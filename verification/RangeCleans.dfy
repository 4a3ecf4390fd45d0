/** Cleaning several ranges in one call: what is sure to go, what is sure to stay, and what can be left behind. */
module RangeCleans {
  import opened Common
  import opened Schema
  import opened Cleaner
  import opened Store

  /** What the cleaner's theorems ask of a database. */
  ghost predicate Tidy(db: Database) {
    RefClosed(db.rows) && Typed(db.rows) && TablesApart(db)
  }

  /** Rows and blocks of `a` are those of `b`, or fewer. */
  ghost predicate Less(a: Database, b: Database) {
    && (forall k :: k in a.rows ==> k in b.rows && a.rows[k] == b.rows[k])
    && (forall s :: s in a.blocks ==> s in b.blocks && a.blocks[s] == b.blocks[s])
  }

  lemma CleanTypeKeeps(db: Database, ty: DataType, lo: nat, hi: nat)
    requires Tidy(db) && ty != UnknownData
    ensures Tidy(CleanType(db, ty, lo, hi)) && Less(CleanType(db, ty, lo, hi), db)
  {
    CleanIsOneDelete(db, ty, lo, hi);
    var hit := Holding(db.rows, AllKeysIn(db, Order(ty), lo, hi));
    assert forall k :: k in db.rows && !Falls(hit, k) && Parent(k).Some? ==> !Falls(hit, Parent(k).value);
  }

  lemma {:induction false} CleanAllLess(db: Database, rngs: seq<(nat, nat)>, ty: DataType)
    requires Tidy(db) && ty != UnknownData
    ensures Tidy(CleanAll(db, rngs, ty)) && Less(CleanAll(db, rngs, ty), db)
  {
    if rngs != [] {
      var n := |rngs| - 1;
      CleanAllLess(db, rngs[..n], ty);
      CleanTypeKeeps(CleanAll(db, rngs[..n], ty), ty, rngs[n].0, rngs[n].1);
    }
  }

  /** Row `l` is of the cleaned type and lies in range i. */
  ghost predicate Hit(l: RowKey, rngs: seq<(nat, nat)>, i: int, ty: DataType) {
    0 <= i < |rngs| && Cleaned(ty, l) && UnderRange(l, rngs[i].0, rngs[i].1)
  }

  /** A row goes that shares its block with a cleaned row in the range, with everything below it. */
  lemma SharerGoes(db: Database, ty: DataType, lo: nat, hi: nat, l: RowKey, a: RowKey, k: RowKey)
    requires Tidy(db) && ty != UnknownData && a in db.rows && (a == k || Above(a, k))
    requires CleanedUnder(db, ty, lo, hi, l, db.rows[a].mhKey)
    ensures k !in CleanType(db, ty, lo, hi).rows
  {
    CleanKeepsRow(db, ty, lo, hi, k);
    assert SharesWithCleaned(db, ty, lo, hi, k);
  }

  /** One range: a cleaned row in it goes with its block and with everything below it. */
  lemma OneRangeGoes(db: Database, ty: DataType, lo: nat, hi: nat, l: RowKey, k: RowKey)
    requires Tidy(db) && ty != UnknownData && Cleaned(ty, l) && UnderRange(l, lo, hi) && (k == l || Above(l, k))
    ensures k !in CleanType(db, ty, lo, hi).rows
    ensures l in db.rows ==> db.rows[l].mhKey.Some? && db.rows[l].mhKey.value !in CleanType(db, ty, lo, hi).blocks
  {
    if l in db.rows {
      assert db.rows[l].mhKey.Some?;
      assert CleanedUnder(db, ty, lo, hi, l, db.rows[l].mhKey);
      SharerGoes(db, ty, lo, hi, l, l, k);
      CleanKeepsBlock(db, ty, lo, hi, db.rows[l].mhKey.value);
    } else {
      if k in db.rows { StillAbove(db, l, k); }
      CleanKeepsRow(db, ty, lo, hi, k);
    }
  }

  /** A row of the cleaned type in any of the ranges is gone, and so is everything below it. */
  lemma {:induction false} CleanedRowsGo(db: Database, rngs: seq<(nat, nat)>, ty: DataType,
                                         i: nat, l: RowKey, k: RowKey)
    requires Tidy(db) && ty != UnknownData && Hit(l, rngs, i, ty) && (k == l || Above(l, k))
    ensures k !in CleanAll(db, rngs, ty).rows
  {
    var n := |rngs| - 1;
    var before := CleanAll(db, rngs[..n], ty);
    CleanAllLess(db, rngs[..n], ty);
    if i < n {
      assert rngs[..n][i] == rngs[i];
      CleanedRowsGo(db, rngs[..n], ty, i, l, k);
      CleanTypeKeeps(before, ty, rngs[n].0, rngs[n].1);
    } else {
      OneRangeGoes(before, ty, rngs[n].0, rngs[n].1, l, k);
    }
  }

  lemma {:induction false} StillAbove(db: Database, l: RowKey, k: RowKey)
    requires RefClosed(db.rows) && k in db.rows && (k == l || Above(l, k))
    ensures l in db.rows
    decreases k
  {
    if k != l { StillAbove(db, l, Parent(k).value); }
  }

  lemma RowOfOneRange(db: Database, ty: DataType, lo: nat, hi: nat, k: RowKey)
    requires Tidy(db) && ty != UnknownData && k in db.rows && !SharesWithCleaned(db, ty, lo, hi, k)
    ensures var after := CleanType(db, ty, lo, hi); k in after.rows && after.rows[k] == db.rows[k]
  {
    CleanKeepsRow(db, ty, lo, hi, k);
  }

  /** A row stays as it is if neither it nor an ancestor shares its block with a cleaned row in a range. */
  lemma {:induction false} OtherRowsStay(db: Database, rngs: seq<(nat, nat)>, ty: DataType, k: RowKey)
    requires Tidy(db) && ty != UnknownData && k in db.rows
    requires forall i :: 0 <= i < |rngs| ==> !SharesWithCleaned(db, ty, rngs[i].0, rngs[i].1, k)
    ensures var after := CleanAll(db, rngs, ty); k in after.rows && after.rows[k] == db.rows[k]
  {
    if rngs != [] {
      var n := |rngs| - 1;
      var before := CleanAll(db, rngs[..n], ty);
      assert forall i :: 0 <= i < n ==> rngs[..n][i] == rngs[i];
      OtherRowsStay(db, rngs[..n], ty, k);
      CleanAllLess(db, rngs[..n], ty);
      if SharesWithCleaned(before, ty, rngs[n].0, rngs[n].1, k) {
        SharesInMore(before, db, ty, rngs[n].0, rngs[n].1, k);
      }
      RowOfOneRange(before, ty, rngs[n].0, rngs[n].1, k);
    }
  }

  lemma SharesInMore(a: Database, b: Database, ty: DataType, lo: nat, hi: nat, k: RowKey)
    requires Less(a, b) && SharesWithCleaned(a, ty, lo, hi, k)
    ensures SharesWithCleaned(b, ty, lo, hi, k)
  {
    var x, l :| x in a.rows && (x == k || Above(x, k)) && CleanedUnder(a, ty, lo, hi, l, a.rows[x].mhKey);
    assert CleanedUnder(b, ty, lo, hi, l, b.rows[x].mhKey);
  }

  /** A cleaned row in the range holds the key. */
  ghost predicate Held(db: Database, ty: DataType, lo: nat, hi: nat, s: string) {
    exists l :: CleanedUnder(db, ty, lo, hi, l, Some(s))
  }

  lemma BlocksOfOneRange(db: Database, ty: DataType, lo: nat, hi: nat, s: string)
    requires Tidy(db) && ty != UnknownData
    ensures s in CleanType(db, ty, lo, hi).blocks <==> s in db.blocks && !Held(db, ty, lo, hi, s)
  {
    CleanKeepsBlock(db, ty, lo, hi, s);
  }

  /** When the turn of range i comes, a cleaned row in it still holds the key. */
  ghost predicate TakenIn(db: Database, rngs: seq<(nat, nat)>, ty: DataType, i: nat, s: string)
    requires i < |rngs| && ty != UnknownData
  {
    Held(CleanAll(db, rngs[..i], ty), ty, rngs[i].0, rngs[i].1, s)
  }

  lemma SameTurn(db: Database, rngs: seq<(nat, nat)>, ty: DataType, n: nat, i: nat, s: string)
    requires i < n <= |rngs| && ty != UnknownData
    ensures TakenIn(db, rngs[..n], ty, i, s) <==> TakenIn(db, rngs, ty, i, s)
  {
    assert rngs[..n][..i] == rngs[..i] && rngs[..n][i] == rngs[i];
  }

  /** Exactly which blocks go: those whose key is held by a cleaned row of a range when its turn comes. */
  lemma {:induction false} BlocksExact(db: Database, rngs: seq<(nat, nat)>, ty: DataType, s: string)
    requires Tidy(db) && ty != UnknownData
    ensures s in CleanAll(db, rngs, ty).blocks <==>
            s in db.blocks && forall i :: 0 <= i < |rngs| ==> !TakenIn(db, rngs, ty, i, s)
  {
    if rngs != [] {
      var n := |rngs| - 1;
      BlocksExact(db, rngs[..n], ty, s);
      CleanAllLess(db, rngs[..n], ty);
      BlocksOfOneRange(CleanAll(db, rngs[..n], ty), ty, rngs[n].0, rngs[n].1, s);
      forall i | 0 <= i < n ensures TakenIn(db, rngs[..n], ty, i, s) <==> TakenIn(db, rngs, ty, i, s) {
        SameTurn(db, rngs, ty, n, i, s);
      }
      assert TakenIn(db, rngs, ty, n, s) <==> Held(CleanAll(db, rngs[..n], ty), ty, rngs[n].0, rngs[n].1, s);
    }
  }

  /** A block no cleaned row of any range holds stays, so none is taken from rows outside the ranges. */
  lemma OtherBlocksStay(db: Database, rngs: seq<(nat, nat)>, ty: DataType, s: string)
    requires Tidy(db) && ty != UnknownData && s in db.blocks
    requires forall i, l :: Hit(l, rngs, i, ty) && l in db.rows ==> db.rows[l].mhKey != Some(s)
    ensures var after := CleanAll(db, rngs, ty); s in after.blocks && after.blocks[s] == db.blocks[s]
  {
    BlocksExact(db, rngs, ty, s);
    CleanAllLess(db, rngs, ty);
    forall i | 0 <= i < |rngs| ensures !TakenIn(db, rngs, ty, i, s) {
      CleanAllLess(db, rngs[..i], ty);
      if l :| CleanedUnder(CleanAll(db, rngs[..i], ty), ty, rngs[i].0, rngs[i].1, l, Some(s)) {
        assert Hit(l, rngs, i, ty);
      }
    }
  }

  // ----- a block left behind -----

  const FIRST: RowKey := StateKey(HeaderKey(1, "h"), [])
  const SECOND: RowKey := StateKey(HeaderKey(5, "g"), [])
  const BELOW: RowKey := StorageKey(SECOND, [])

  /** Two blocks with the same state leaf; the second has a storage node below it. */
  ghost predicate SameLeaf(db: Database) {
    && Tidy(db) && Backed(db)
    && FIRST in db.rows && SECOND in db.rows && BELOW in db.rows && "T" in db.blocks
    && db.rows[FIRST].mhKey == db.rows[SECOND].mhKey == Some("S") && db.rows[BELOW].mhKey == Some("T")
    && (forall k :: k in db.rows ==> k.HeaderKey? || k == FIRST || k == SECOND || k == BELOW)
    && (forall k :: k in db.rows && db.rows[k].mhKey == Some("T") ==> k == BELOW)
  }

  lemma SameLeafTwice() returns (db: Database)
    ensures SameLeaf(db)
  {
    var rows := map[
      HeaderKey(1, "h") := Row(0, Some("A"), HeaderCols("", 1)),
      HeaderKey(5, "g") := Row(1, Some("B"), HeaderCols("", 1)),
      FIRST := Row(2, Some("S"), StateCols("k", 2)),
      SECOND := Row(3, Some("S"), StateCols("k", 2)),
      BELOW := Row(4, Some("T"), StorageCols("k", 2))];
    db := Database(map["A" := [], "B" := [], "S" := [], "T" := []], rows, 5);
    assert "A"[0] != "S"[0] && "A"[0] != "T"[0] && "B"[0] != "S"[0] && "B"[0] != "T"[0] && "S"[0] != "T"[0];
    assert RefClosed(rows);
    assert Typed(rows);
    assert TablesApart(db);
  }

  /** Cleaning the state of height 1 takes the shared leaf, and with it the second block's storage row. */
  lemma FirstRangeCascades(db: Database)
    requires SameLeaf(db)
    ensures var once := CleanType(db, StateData, 1, 1);
            Tidy(once) && "T" in once.blocks && forall l :: l in once.rows ==> l.HeaderKey?
  {
    CleanTypeKeeps(db, StateData, 1, 1);
    HeightIsHeaders(FIRST, 1, 1);
    HeightIsHeaders(BELOW, 1, 1);
    SharerGoes(db, StateData, 1, 1, FIRST, FIRST, FIRST);
    SharerGoes(db, StateData, 1, 1, FIRST, SECOND, SECOND);
    assert Above(SECOND, BELOW);
    SharerGoes(db, StateData, 1, 1, FIRST, SECOND, BELOW);
    BlocksOfOneRange(db, StateData, 1, 1, "T");
  }

  lemma TwoRanges(db: Database, ty: DataType, a: (nat, nat), b: (nat, nat))
    requires ty != UnknownData
    ensures CleanAll(db, [a, b], ty) == CleanType(CleanType(db, ty, a.0, a.1), ty, b.0, b.1)
  {
    assert [a, b][..1] == [a] && [a][..0] == [];
    assert CleanAll(db, [], ty) == db;
    assert CleanAll(db, [a], ty) == CleanType(db, ty, a.0, a.1);
  }

  /** So cleaning both heights in one call leaves the storage node's block behind with no row, which
      cleaning the second height alone would have deleted. */
  lemma CascadeHidesBlock() returns (db: Database, k: RowKey)
    ensures Tidy(db) && Backed(db) && k in db.rows && k.StorageKey? && UnderRange(k, 5, 5) && db.rows[k].mhKey.Some?
    ensures var after := CleanAll(db, [(1, 1), (5, 5)], StateData);
            k !in after.rows && db.rows[k].mhKey.value in after.blocks
    ensures db.rows[k].mhKey.value !in CleanType(db, StateData, 5, 5).blocks
  {
    db := SameLeafTwice();
    k := BELOW;
    HeightIsHeaders(k, 5, 5);
    OneRangeGoes(db, StateData, 5, 5, k, k);
    TwoRanges(db, StateData, (1, 1), (5, 5));
    SecondRangeFindsNothing(db);
  }

  lemma SecondRangeFindsNothing(db: Database)
    requires SameLeaf(db)
    ensures var after := CleanType(CleanType(db, StateData, 1, 1), StateData, 5, 5);
            BELOW !in after.rows && "T" in after.blocks
  {
    FirstRangeCascades(db);
    NoStateLeft(CleanType(db, StateData, 1, 1));
  }

  lemma NoStateLeft(db: Database)
    requires Tidy(db) && "T" in db.blocks && forall l :: l in db.rows ==> l.HeaderKey?
    ensures var after := CleanType(db, StateData, 5, 5); BELOW !in after.rows && "T" in after.blocks
  {
    CleanTypeKeeps(db, StateData, 5, 5);
    BlocksOfOneRange(db, StateData, 5, 5, "T");
  }
}
