/** Range deletes: the cleaner removes blocks table by table and relies on cascades for the rows. */
module Cleaner {
  import opened Common
  import opened Schema

  predicate InRange(k: RowKey, lo: nat, hi: nat) { lo <= Height(k) <= hi }

  /** The mh_keys of one table's rows under headers in the range: the USING join of one delete. */
  function KeysIn(db: Database, t: Table, lo: nat, hi: nat): set<string> {
    set k | k in db.rows && TableOf(k) == t && InRange(k, lo, hi) && db.rows[k].mhKey.Some? :: db.rows[k].mhKey.value
  }

  function RowsIn(db: Database, t: Table, lo: nat, hi: nat): set<RowKey> {
    set k | k in db.rows && TableOf(k) == t && InRange(k, lo, hi)
  }

  function AllKeysIn(db: Database, ts: seq<Table>, lo: nat, hi: nat): set<string> {
    if ts == [] then {} else AllKeysIn(db, ts[..|ts| - 1], lo, hi) + KeysIn(db, ts[|ts| - 1], lo, hi)
  }

  /** One block delete per table, in the given order. */
  function CleanBlocks(db: Database, ts: seq<Table>, lo: nat, hi: nat): Database {
    if ts == [] then db
    else
      var before := CleanBlocks(db, ts[..|ts| - 1], lo, hi);
      DeleteBlocks(before, KeysIn(before, ts[|ts| - 1], lo, hi))
  }

  // ----- deletes compose -----

  lemma {:induction false} FallsEither(a: set<RowKey>, b: set<RowKey>, k: RowKey)
    ensures Falls(a + b, k) <==> Falls(a, k) || Falls(b, k)
    decreases k
  {
    if Parent(k).Some? { FallsEither(a, b, Parent(k).value); }
  }

  /** Two block deletes are one delete of both key sets. */
  lemma DeletesCompose(db: Database, a: set<string>, b: set<string>)
    requires RefClosed(db.rows)
    ensures DeleteBlocks(DeleteBlocks(db, a), b) == DeleteBlocks(db, a + b)
  {
    var mid := DeleteBlocks(db, a);
    var ha, hb, hm := Holding(db.rows, a), Holding(db.rows, b), Holding(mid.rows, b);
    assert Holding(db.rows, a + b) == ha + hb;
    forall k | k in db.rows
      ensures Falls(ha + hb, k) <==> Falls(ha, k) || Falls(hm, k)
    {
      FallsEither(ha, hb, k);
      FallsAmongSurvivors(db.rows, ha, hb, hm, k);
    }
    var l, r := DeleteBlocks(mid, b), DeleteBlocks(db, a + b);
    assert l.rows.Keys == r.rows.Keys;
    assert l.rows == r.rows;
    assert l.blocks == r.blocks;
  }

  lemma {:induction false} FallsAmongSurvivors(rows: map<RowKey, Row>, ha: set<RowKey>, hb: set<RowKey>,
                                               hm: set<RowKey>, k: RowKey)
    requires RefClosed(rows) && k in rows
    requires hm <= hb && forall l :: l in hb && l in rows && !Falls(ha, l) ==> l in hm
    ensures Falls(ha, k) || Falls(hb, k) <==> Falls(ha, k) || Falls(hm, k)
    decreases k
  {
    if Parent(k).Some? { FallsAmongSurvivors(rows, ha, hb, hm, Parent(k).value); }
  }

  // ----- the order of deletes -----

  /** A strict ancestor. */
  predicate Above(a: RowKey, k: RowKey)
    decreases k
  {
    Parent(k).Some? && (a == Parent(k).value || Above(a, Parent(k).value))
  }

  /** No row is dragged away by an earlier table's delete before its own block is found: the keys
      of an in-range row's ancestors are not among those the earlier deletes remove. */
  ghost predicate OrderSafe(db: Database, ts: seq<Table>, lo: nat, hi: nat) {
    forall j, k, a ::
      && 0 <= j < |ts| && k in db.rows && TableOf(k) == ts[j] && InRange(k, lo, hi)
      && a in db.rows && Above(a, k) && db.rows[a].mhKey.Some?
      ==> db.rows[a].mhKey.value !in AllKeysIn(db, ts[..j], lo, hi)
  }

  lemma {:induction false} FallsBySelfOrAncestor(hit: set<RowKey>, k: RowKey)
    ensures Falls(hit, k) <==> k in hit || exists a :: Above(a, k) && a in hit
    decreases k
  {
    if Parent(k).Some? {
      var p := Parent(k).value;
      FallsBySelfOrAncestor(hit, p);
      if Falls(hit, p) {
        var a :| (a == p || Above(a, p)) && a in hit;
        assert Above(a, k);
      }
    }
  }

  /** In a safe order, deleting table by table equals one delete of all the keys at once. */
  lemma {:induction false} TableByTable(db: Database, ts: seq<Table>, lo: nat, hi: nat)
    requires RefClosed(db.rows) && OrderSafe(db, ts, lo, hi)
    ensures CleanBlocks(db, ts, lo, hi) == DeleteBlocks(db, AllKeysIn(db, ts, lo, hi))
  {
    if ts == [] {
      assert Holding(db.rows, {}) == {};
      forall k ensures !Falls({}, k) { FallsBySelfOrAncestor({}, k); }
      assert DeleteRows(db, {}).rows == db.rows;
    } else {
      var n := |ts| - 1;
      var t, earlier := ts[n], AllKeysIn(db, ts[..n], lo, hi);
      assert forall j :: 0 <= j < n ==> ts[..n][..j] == ts[..j];
      TableByTable(db, ts[..n], lo, hi);
      var before := CleanBlocks(db, ts[..n], lo, hi);
      forall k | k in RowsIn(db, t, lo, hi) && k !in before.rows && db.rows[k].mhKey.Some?
        ensures db.rows[k].mhKey.value in earlier
      {
        FallsBySelfOrAncestor(Holding(db.rows, earlier), k);
      }
      var now := KeysIn(before, t, lo, hi);
      assert earlier + now == earlier + KeysIn(db, t, lo, hi) by {
        forall s | s in KeysIn(db, t, lo, hi) && s !in earlier ensures s in now {
          var k :| k in RowsIn(db, t, lo, hi) && db.rows[k].mhKey == Some(s);
          assert k in before.rows && before.rows[k] == db.rows[k];
        }
      }
      DeletesCompose(db, earlier, now);
    }
  }

  // ----- what Clean deletes for each data type -----

  datatype DataType =
    Full | HeaderData | UncleData | TransactionData
    | ReceiptData | StateData | StorageData | UnknownData

  /** The tables whose blocks are deleted, in the order of the statements. */
  function Order(ty: DataType): seq<Table> {
    match ty
    case Full => [Storages, States, Receipts, Transactions, Uncles, Headers]
    case HeaderData => [Storages, States, Receipts, Transactions, Uncles, Headers]
    case UncleData => [Uncles]
    case TransactionData => [Receipts, Transactions]
    case ReceiptData => [Receipts]
    case StateData => [Storages, States]
    case StorageData => [Storages]
    case UnknownData => []
  }

  /** Each type ends by deleting the rows of one table, the last one whose blocks were deleted. */
  function CleanType(db: Database, ty: DataType, lo: nat, hi: nat): Database
    requires ty != UnknownData
  {
    var clean := CleanBlocks(db, Order(ty), lo, hi);
    DeleteRows(clean, RowsIn(clean, Order(ty)[|Order(ty)| - 1], lo, hi))
  }

  /** Rows of different tables do not share a block, except that an uncle may be stored as a header. */
  ghost predicate TablesApart(db: Database) {
    forall k, l :: k in db.rows && l in db.rows && db.rows[k].mhKey.Some? && db.rows[k].mhKey == db.rows[l].mhKey ==>
      TableOf(k) == TableOf(l) || (TableOf(k) in {Headers, Uncles} && TableOf(l) in {Headers, Uncles})
  }

  lemma {:induction false} KeysComeFromRows(db: Database, ts: seq<Table>, lo: nat, hi: nat, s: string)
    ensures s in AllKeysIn(db, ts, lo, hi) <==>
            exists k :: k in db.rows && TableOf(k) in ts && InRange(k, lo, hi) && db.rows[k].mhKey == Some(s)
  {
    if ts != [] {
      var n := |ts| - 1;
      KeysComeFromRows(db, ts[..n], lo, hi, s);
      assert forall t :: t in ts <==> t in ts[..n] || t == ts[n];
    }
  }

  lemma AboveTable(a: RowKey, k: RowKey)
    requires WellFormed(k) && Above(a, k)
    ensures TableOf(k) == Storages || TableOf(k) == Accounts ==> TableOf(a) in {States, Headers}
    ensures TableOf(k) == Receipts ==> TableOf(a) in {Transactions, Headers}
    ensures TableOf(k) in {States, Transactions, Uncles} ==> TableOf(a) == Headers
    ensures TableOf(k) != Headers
    ensures Height(a) == Height(k)
  {
    var p := Parent(k).value;
    if a != p {
      assert Above(a, p) && Parent(p).Some? && Parent(p).value.HeaderKey?;
      assert !Above(a, Parent(p).value);
    }
  }

  /** Children before parents: the order of the statements is what makes them safe. */
  lemma OrderIsSafe(db: Database, ty: DataType, lo: nat, hi: nat)
    requires RefClosed(db.rows) && TablesApart(db)
    ensures OrderSafe(db, Order(ty), lo, hi)
  {
    var ts := Order(ty);
    forall j, k, a |
      && 0 <= j < |ts| && k in db.rows && TableOf(k) == ts[j] && InRange(k, lo, hi)
      && a in db.rows && Above(a, k) && db.rows[a].mhKey.Some?
      ensures db.rows[a].mhKey.value !in AllKeysIn(db, ts[..j], lo, hi)
    {
      AboveTable(a, k);
      var s := db.rows[a].mhKey.value;
      assert forall l :: l in db.rows && TableOf(l) in ts[..j] && InRange(l, lo, hi) ==> db.rows[l].mhKey != Some(s);
      KeysComeFromRows(db, ts[..j], lo, hi, s);
    }
  }

  /** A clean of any type equals one delete of all the blocks of the type's rows in the range. */
  lemma CleanIsOneDelete(db: Database, ty: DataType, lo: nat, hi: nat)
    requires RefClosed(db.rows) && Typed(db.rows) && TablesApart(db) && ty != UnknownData
    ensures CleanType(db, ty, lo, hi) == DeleteBlocks(db, AllKeysIn(db, Order(ty), lo, hi))
  {
    var ts := Order(ty);
    var keys := AllKeysIn(db, ts, lo, hi);
    OrderIsSafe(db, ty, lo, hi);
    TableByTable(db, ts, lo, hi);
    var clean := CleanBlocks(db, ts, lo, hi);
    var last := ts[|ts| - 1];
    forall k | k in RowsIn(db, last, lo, hi) ensures k !in clean.rows {
      KeysComeFromRows(db, ts, lo, hi, db.rows[k].mhKey.value);
      FallsBySelfOrAncestor(Holding(db.rows, keys), k);
    }
    assert RowsIn(clean, last, lo, hi) == {};
    NothingFalls();
    assert DeleteRows(clean, {}).rows == clean.rows;
  }

  lemma NothingFalls()
    ensures forall k :: !Falls({}, k)
  {
    forall k ensures !Falls({}, k) { FallsBySelfOrAncestor({}, k); }
  }

  /** The rows whose blocks a clean of each type is for. */
  predicate Cleaned(ty: DataType, k: RowKey) {
    match ty
    case Full => !k.AccountKey?
    case HeaderData => !k.AccountKey?
    case UncleData => k.UncleKey?
    case TransactionData => k.TxKey? || k.ReceiptKey?
    case ReceiptData => k.ReceiptKey?
    case StateData => k.StateKey? || k.StorageKey?
    case StorageData => k.StorageKey?
    case UnknownData => false
  }

  /** Row `l` is, or hangs from, a header with a number in the range. */
  ghost predicate UnderRange(l: RowKey, lo: nat, hi: nat) {
    exists h: RowKey :: (h == l || Above(h, l)) && h.HeaderKey? && lo <= h.number <= hi
  }

  lemma {:induction false} HeightIsHeaders(l: RowKey, lo: nat, hi: nat)
    ensures UnderRange(l, lo, hi) <==> InRange(l, lo, hi)
    decreases l
  {
    if !l.HeaderKey? {
      var p := Parent(l).value;
      HeightIsHeaders(p, lo, hi);
      if h: RowKey :| (h == l || Above(h, l)) && h.HeaderKey? && lo <= h.number <= hi {
        assert (h == p || Above(h, p)) && h.HeaderKey?;
      }
      if h: RowKey :| (h == p || Above(h, p)) && h.HeaderKey? && lo <= h.number <= hi { assert Above(h, l); }
    }
  }

  /** Row `l` is of the cleaned type, under a header in the range, and holds this key. */
  ghost predicate CleanedUnder(db: Database, ty: DataType, lo: nat, hi: nat, l: RowKey, mhKey: Option<string>) {
    l in db.rows && Cleaned(ty, l) && UnderRange(l, lo, hi) && mhKey.Some? && db.rows[l].mhKey == mhKey
  }

  /** Row `k` itself or one of its ancestors shares its block with a cleaned row in the range. */
  ghost predicate SharesWithCleaned(db: Database, ty: DataType, lo: nat, hi: nat, k: RowKey) {
    exists a, l ::
      a in db.rows && (a == k || Above(a, k)) && CleanedUnder(db, ty, lo, hi, l, db.rows[a].mhKey)
  }

  /** The statements delete the blocks of the cleaned rows, all of them and no others. */
  lemma KeysOfCleaned(db: Database, ty: DataType, lo: nat, hi: nat, s: string)
    ensures s in AllKeysIn(db, Order(ty), lo, hi) <==> exists l :: CleanedUnder(db, ty, lo, hi, l, Some(s))
  {
    KeysComeFromRows(db, Order(ty), lo, hi, s);
    assert forall l :: TableOf(l) in Order(ty) <==> Cleaned(ty, l);
    forall l { HeightIsHeaders(l, lo, hi); }
    if l :| CleanedUnder(db, ty, lo, hi, l, Some(s)) { assert TableOf(l) in Order(ty); }
    if k :| k in db.rows && TableOf(k) in Order(ty) && InRange(k, lo, hi) && db.rows[k].mhKey == Some(s) {
      assert CleanedUnder(db, ty, lo, hi, k, Some(s));
    }
  }

  lemma FallsIffShares(db: Database, ty: DataType, lo: nat, hi: nat, k: RowKey)
    requires k in db.rows
    ensures Falls(Holding(db.rows, AllKeysIn(db, Order(ty), lo, hi)), k) <==> SharesWithCleaned(db, ty, lo, hi, k)
  {
    var hit := Holding(db.rows, AllKeysIn(db, Order(ty), lo, hi));
    FallsBySelfOrAncestor(hit, k);
    if Falls(hit, k) {
      var a :| (a == k || Above(a, k)) && a in hit;
      KeysOfCleaned(db, ty, lo, hi, db.rows[a].mhKey.value);
    }
    if SharesWithCleaned(db, ty, lo, hi, k) {
      var a, l :|
        a in db.rows && (a == k || Above(a, k)) && CleanedUnder(db, ty, lo, hi, l, db.rows[a].mhKey);
      KeysOfCleaned(db, ty, lo, hi, db.rows[a].mhKey.value);
      assert a in hit;
    }
  }

  lemma CleanKeepsRow(db: Database, ty: DataType, lo: nat, hi: nat, k: RowKey)
    requires RefClosed(db.rows) && Typed(db.rows) && TablesApart(db) && ty != UnknownData
    ensures var after := CleanType(db, ty, lo, hi);
            && (k in after.rows <==> k in db.rows && !SharesWithCleaned(db, ty, lo, hi, k))
            && (k in after.rows ==> after.rows[k] == db.rows[k])
  {
    CleanIsOneDelete(db, ty, lo, hi);
    if k in db.rows { FallsIffShares(db, ty, lo, hi, k); }
  }

  lemma CleanKeepsBlock(db: Database, ty: DataType, lo: nat, hi: nat, s: string)
    requires RefClosed(db.rows) && Typed(db.rows) && TablesApart(db) && ty != UnknownData
    ensures var after := CleanType(db, ty, lo, hi);
            && (s in after.blocks <==> s in db.blocks && !exists l :: CleanedUnder(db, ty, lo, hi, l, Some(s)))
            && (s in after.blocks ==> after.blocks[s] == db.blocks[s])
  {
    CleanIsOneDelete(db, ty, lo, hi);
    KeysOfCleaned(db, ty, lo, hi, s);
  }

  /** Exactly which rows and blocks a clean removes: a row goes when it or an ancestor shares its block
      with a cleaned row in the range, a block goes when such a row holds its key, and the rest stays. */
  lemma CleanExact(db: Database, ty: DataType, lo: nat, hi: nat)
    requires RefClosed(db.rows) && Typed(db.rows) && TablesApart(db) && ty != UnknownData
    ensures var after := CleanType(db, ty, lo, hi);
            && (forall k :: k in after.rows <==> k in db.rows && !SharesWithCleaned(db, ty, lo, hi, k))
            && (forall k :: k in after.rows ==> after.rows[k] == db.rows[k])
            && (forall s :: s in after.blocks <==>
                  s in db.blocks && !exists l :: CleanedUnder(db, ty, lo, hi, l, Some(s)))
            && (forall s :: s in after.blocks ==> after.blocks[s] == db.blocks[s])
  {
    forall k { CleanKeepsRow(db, ty, lo, hi, k); }
    forall s { CleanKeepsBlock(db, ty, lo, hi, s); }
  }

  /** A Full clean leaves no row of any table under a header in the range and no block such a row was
      stored under. */
  lemma FullCleanLeavesNothing(db: Database, lo: nat, hi: nat, k: RowKey)
    requires RefClosed(db.rows) && Typed(db.rows) && TablesApart(db)
    requires k in db.rows && InRange(k, lo, hi)
    ensures var after := CleanType(db, Full, lo, hi);
            && k !in after.rows
            && (db.rows[k].mhKey.Some? ==> db.rows[k].mhKey.value !in after.blocks)
  {
    var ts := Order(Full);
    var keys := AllKeysIn(db, ts, lo, hi);
    var a := if k.AccountKey? then k.state else k;
    assert k.AccountKey? ==> Parent(k) == Some(a);
    assert a in db.rows && TableOf(a) in ts;
    KeysComeFromRows(db, ts, lo, hi, db.rows[a].mhKey.value);
    assert a in Holding(db.rows, keys);
    assert Falls(Holding(db.rows, keys), a) && Falls(Holding(db.rows, keys), k);
    CleanIsOneDelete(db, Full, lo, hi);
  }

  /** A header at height 1 with one transaction. */
  function OneTransaction(): Database {
    var h := HeaderKey(1, "h");
    Database(map["A" := [], "B" := []],
             map[h := Row(0, Some("A"), HeaderCols("", 1)), TxKey(h, "t") := Row(1, Some("B"), TxCols("", "", 0))], 2)
  }

  lemma OneTransactionIsSound()
    ensures var db := OneTransaction();
            RefClosed(db.rows) && Typed(db.rows) && TablesApart(db) && Backed(db)
  {
    assert "A" != "B" by { assert "A"[0] != "B"[0]; }
  }

  lemma HeadersFirstDropsRows()
    ensures var after := CleanBlocks(OneTransaction(), [Headers], 1, 1);
            after.rows == map[] && "B" in after.blocks
  {
    var db, h := OneTransaction(), HeaderKey(1, "h");
    assert "A" != "B" by { assert "A"[0] != "B"[0]; }
    assert [Headers][..0] == [];
    assert KeysIn(db, Headers, 1, 1) == {"A"} by { assert h in db.rows && db.rows[h].mhKey.value == "A"; }
    var hit := Holding(db.rows, {"A"});
    assert h in hit;
    assert Falls(hit, h) && Falls(hit, TxKey(h, "t"));
    assert CleanBlocks(db, [Headers], 1, 1) == DeleteBlocks(db, {"A"});
  }

  /** The order matters: with headers first, the cascade hides a transaction from its own delete,
      and the transaction's block stays behind with no row. */
  lemma HeadersFirstLeavesBlocks() returns (db: Database, t: RowKey)
    ensures RefClosed(db.rows) && Typed(db.rows) && TablesApart(db) && Backed(db)
    ensures t in db.rows && TableOf(t) == Transactions && Height(t) == 1 && db.rows[t].mhKey.Some?
    ensures var after := CleanBlocks(db, [Headers, Transactions], 1, 1);
            t !in after.rows && db.rows[t].mhKey.value in after.blocks
  {
    db, t := OneTransaction(), TxKey(HeaderKey(1, "h"), "t");
    OneTransactionIsSound();
    HeadersFirstDropsRows();
    var a := CleanBlocks(db, [Headers], 1, 1);
    assert [Headers, Transactions][..1] == [Headers];
    assert KeysIn(a, Transactions, 1, 1) == {};
    assert CleanBlocks(db, [Headers, Transactions], 1, 1) == DeleteBlocks(a, {});
  }
}
