/** Indexing the same payload again, and what times_validated counts. */
module Reindex {
  import opened Common
  import opened Schema
  import opened Payloads
  import opened Cleaner
  import opened Store
  import opened StoreRuns

  // ----- the last write to a key wins, and ids stay -----

  /** The last entry of the list with key k. */
  function Last(es: seq<Entry>, k: RowKey): Entry
    requires k in KeysOf(es)
  {
    var n := |es| - 1;
    if es[n].key == k then es[n]
    else
      KeysOfLast(es);
      Last(es[..n], k)
  }

  function MhKey(env: Env, e: Entry): Option<string> {
    match e.raw case Some(raw) => Some(env.blockKey(raw)) case None => None
  }

  lemma {:induction false} LastWriteWins(db: Database, env: Env, es: seq<Entry>, known: set<RowKey>, k: RowKey)
    requires Rooted(es, known)
    ensures var after := ApplyAll(db, env, es);
            if k in KeysOf(es) then
              && k in after.rows
              && after.rows[k].mhKey == MhKey(env, Last(es, k)) && after.rows[k].cols == Last(es, k).cols
              && (k in db.rows ==> after.rows[k].id == db.rows[k].id)
            else (k in after.rows <==> k in db.rows) && (k in db.rows ==> after.rows[k] == db.rows[k])
  {
    if es != [] {
      var n := |es| - 1;
      LastWriteWins(db, env, es[..n], known, k);
      KeysOfLast(es);
      WriteOne(ApplyAll(db, env, es[..n]), env, es[n], k);
    }
  }

  lemma WriteOne(db: Database, env: Env, e: Entry, k: RowKey)
    ensures var after := Apply(db, env, e);
            if k == e.key then
              && k in after.rows && after.rows[k].mhKey == MhKey(env, e)
              && (!e.cols.HeaderCols? ==> after.rows[k].cols == e.cols)
              && (k in db.rows ==> after.rows[k].id == db.rows[k].id)
            else (k in after.rows <==> k in db.rows) && (k in db.rows ==> after.rows[k] == db.rows[k])
  {
  }

  // ----- blocks -----

  ghost predicate Stored(blocks: map<string, Bytes>, env: Env, es: seq<Entry>) {
    forall i :: 0 <= i < |es| && es[i].raw.Some? ==> env.blockKey(es[i].raw.value) in blocks
  }

  lemma {:induction false} BlocksOnlyGrow(db: Database, env: Env, es: seq<Entry>)
    ensures var after := ApplyAll(db, env, es);
            db.blocks.Keys <= after.blocks.Keys && Stored(after.blocks, env, es)
    ensures Stored(db.blocks, env, es) ==> ApplyAll(db, env, es).blocks == db.blocks
  {
    if es != [] {
      var n := |es| - 1;
      BlocksOnlyGrow(db, env, es[..n]);
      var before, after := ApplyAll(db, env, es[..n]), ApplyAll(db, env, es);
      assert forall i :: 0 <= i < n ==> es[..n][i] == es[i];
      assert Stored(db.blocks, env, es) ==> Stored(db.blocks, env, es[..n]) && after.blocks == before.blocks;
      assert forall i :: 0 <= i < n && es[i].raw.Some? ==> env.blockKey(es[..n][i].raw.value) in before.blocks;
    }
  }

  lemma {:induction false} InsertAgain(db: Database, env: Env, raws: seq<Bytes>)
    requires forall i :: 0 <= i < |raws| ==> env.blockKey(raws[i]) in db.blocks
    ensures InsertAll(db, env, raws) == db
  {
    if raws != [] {
      assert forall i :: 0 <= i < |raws| - 1 ==> raws[..|raws| - 1][i] == raws[i];
      InsertAgain(db, env, raws[..|raws| - 1]);
    }
  }

  lemma {:induction false} InsertAllStores(db: Database, env: Env, raws: seq<Bytes>)
    ensures InsertAll(db, env, raws).rows == db.rows
    ensures forall i :: 0 <= i < |raws| ==> env.blockKey(raws[i]) in InsertAll(db, env, raws).blocks
  {
    if raws != [] {
      var n := |raws| - 1;
      InsertAllStores(db, env, raws[..n]);
      assert forall i :: 0 <= i < n ==> env.blockKey(raws[..n][i]) in InsertAll(db, env, raws[..n]).blocks;
    }
  }

  // ----- the header row -----

  predicate Effective(env: Env, p: ConvertedPayload) {
    |p.txs| <= |p.receipts| && Decodes(env, p)
  }

  /** A publish touches one header row: it creates it at 1 or adds 1. */
  lemma HeaderAfterPublish(db: Database, env: Env, p: ConvertedPayload, h: RowKey)
    requires h.HeaderKey? && Effective(env, p) && Typed(db.rows)
    ensures var after := Published(db, env, p);
            if h == HeaderOf(p) then
              h in after.rows && after.rows[h].cols ==
                HeaderCols(p.headerInfo, if h in db.rows then db.rows[h].cols.timesValidated + 1 else 1)
            else (h in after.rows <==> h in db.rows) && (h in db.rows ==> after.rows[h] == db.rows[h])
  {
    var start := InsertAll(db, env, p.txAndReceiptTries);
    InsertAllStores(db, env, p.txAndReceiptTries);
    HeaderThenBody(start, env, p);
    BodyRooted(env, p);
    LastWriteWins(Apply(start, env, HeaderEntry(p)), env, BodyEntries(env, p), {HeaderOf(p)}, h);
    NoHeaderBelow(BodyEntries(env, p), {HeaderOf(p)}, h);
  }

  lemma {:induction false} NoHeaderBelow(es: seq<Entry>, known: set<RowKey>, h: RowKey)
    requires Rooted(es, known) && h.HeaderKey?
    ensures h !in KeysOf(es)
  {
    if es != [] {
      NoHeaderBelow(es[..|es| - 1], known, h);
      KeysOfLast(es);
    }
  }

  // ----- indexing twice -----

  /** Writing the body again below any header row leaves every row as it is. */
  lemma BodyAgain(env: Env, b0: Database, c0: Database, body: seq<Entry>, h: RowKey, r: Row)
    requires h.HeaderKey? && Rooted(body, {h})
    requires c0.rows == ApplyAll(b0, env, body).rows[h := r]
    ensures ApplyAll(c0, env, body).rows == c0.rows
  {
    var once, twice := ApplyAll(b0, env, body), ApplyAll(c0, env, body);
    forall k ensures (k in twice.rows <==> k in c0.rows) && (k in c0.rows ==> twice.rows[k] == c0.rows[k]) {
      LastWriteWins(b0, env, body, {h}, k);
      LastWriteWins(c0, env, body, {h}, k);
      NoHeaderBelow(body, {h}, h);
    }
    assert twice.rows.Keys == c0.rows.Keys;
  }

  function OneMore(row: Row): Row
    requires row.cols.HeaderCols?
  {
    row.(cols := row.cols.(timesValidated := row.cols.timesValidated + 1))
  }

  /** The header row and the blocks after one publish. */
  lemma AfterOnce(db: Database, env: Env, p: ConvertedPayload)
    requires Effective(env, p) && Typed(db.rows)
    ensures var once := Published(db, env, p);
            && HeaderWritten(once, env, p)
            && Stored(once.blocks, env, BodyEntries(env, p))
            && forall i :: 0 <= i < |p.txAndReceiptTries| ==> env.blockKey(p.txAndReceiptTries[i]) in once.blocks
  {
    var h, body := HeaderOf(p), BodyEntries(env, p);
    var start := InsertAll(db, env, p.txAndReceiptTries);
    var b0 := Apply(start, env, HeaderEntry(p));
    InsertAllStores(db, env, p.txAndReceiptTries);
    HeaderThenBody(start, env, p);
    BodyRooted(env, p);
    NoHeaderBelow(body, {h}, h);
    LastWriteWins(b0, env, body, {h}, h);
    BlocksOnlyGrow(b0, env, body);
    assert h in db.rows ==> Fits(TableOf(h), db.rows[h].cols);
  }

  /** The header row is in place with these columns and its block is stored. */
  ghost predicate HeaderWritten(db: Database, env: Env, p: ConvertedPayload) {
    var h := HeaderOf(p);
    && h in db.rows && db.rows[h].cols.HeaderCols? && db.rows[h].cols.info == p.headerInfo
    && db.rows[h].mhKey == Some(env.blockKey(p.headerRaw)) && env.blockKey(p.headerRaw) in db.blocks
  }

  lemma HeaderAgain(db: Database, env: Env, p: ConvertedPayload)
    requires HeaderWritten(db, env, p)
    ensures var again := Apply(db, env, HeaderEntry(p));
            && again.blocks == db.blocks
            && again.rows == db.rows[HeaderOf(p) := OneMore(db.rows[HeaderOf(p)])]
  {
  }

  /** Publishing a payload a second time changes nothing but the header's times_validated, by one. */
  lemma PublishTwice(db: Database, env: Env, p: ConvertedPayload)
    requires Effective(env, p) && Typed(db.rows)
    ensures var once, h := Published(db, env, p), HeaderOf(p);
            var twice := Published(once, env, p);
            && twice.blocks == once.blocks
            && h in once.rows && once.rows[h].cols.HeaderCols?
            && twice.rows == once.rows[h := OneMore(once.rows[h])]
  {
    var h, body := HeaderOf(p), BodyEntries(env, p);
    var start := InsertAll(db, env, p.txAndReceiptTries);
    var b0, once := Apply(start, env, HeaderEntry(p)), Published(db, env, p);
    HeaderThenBody(start, env, p);
    AfterOnce(db, env, p);
    InsertAgain(once, env, p.txAndReceiptTries);
    HeaderThenBody(once, env, p);
    HeaderAgain(once, env, p);
    var c0 := Apply(once, env, HeaderEntry(p));
    BodyRooted(env, p);
    BodyAgain(env, b0, c0, body, h, OneMore(once.rows[h]));
    BlocksOnlyGrow(c0, env, body);
  }

  // ----- what times_validated counts -----

  predicate Indexes(env: Env, ev: Event, h: RowKey) {
    ev.PublishEvent? && Effective(env, ev.p) && HeaderOf(ev.p) == h
  }

  predicate Resets(ev: Event, h: RowKey) {
    ev.ResetEvent? && Covers(ev.rngs, h)
  }

  /** How often h was indexed in evs. */
  function TimesIndexed(env: Env, evs: seq<Event>, h: RowKey): nat {
    if evs == [] then 0
    else TimesIndexed(env, evs[..|evs| - 1], h) + if Indexes(env, evs[|evs| - 1], h) then 1 else 0
  }

  /** After `from` events h was absent or had just been reset. */
  ghost predicate Origin(env: Env, evs: seq<Event>, from: nat, h: RowKey)
    requires from <= |evs|
  {
    h !in Run(env, evs[..from]).rows || (from > 0 && Resets(evs[from - 1], h))
  }

  /** After j events h was there, and the last of them did not reset it. */
  ghost predicate Lasting(env: Env, evs: seq<Event>, j: nat, h: RowKey)
    requires 0 < j <= |evs|
  {
    h in Run(env, evs[..j]).rows && !Resets(evs[j - 1], h)
  }

  /** `from` is the last point of the run at which h was absent or was reset. */
  ghost predicate Since(env: Env, evs: seq<Event>, from: nat, h: RowKey) {
    && from <= |evs|
    && Origin(env, evs, from, h)
    && forall j :: from < j <= |evs| ==> Lasting(env, evs, j, h)
  }

  /** In every run a header's times_validated is the number of times it was indexed since it was
      created or since the last reset covering it. */
  lemma {:induction false} TimesValidatedCounts(env: Env, evs: seq<Event>, h: RowKey) returns (from: nat)
    requires h.HeaderKey? && h in Run(env, evs).rows
    ensures Since(env, evs, from, h)
    ensures Run(env, evs).rows[h].cols.HeaderCols?
    ensures Run(env, evs).rows[h].cols.timesValidated == TimesIndexed(env, evs[from..], h)
  {
    var n := |evs| - 1;
    var ev, before := evs[n], Run(env, evs[..n]);
    EveryRunIsConsistent(env, evs[..n]);
    var hist := History(env, evs[..n]);
    if Resets(ev, h) {
      from := |evs|;
      JustReset(env, before, ev, hist, h);
    } else if h !in before.rows {
      from := n;
      FirstIndexed(env, before, ev, hist, h);
      SinceFirst(env, evs, h);
      IndexedSince(env, evs, from, h);
      assert evs[..n][n..] == [];
    } else {
      from := TimesValidatedCounts(env, evs[..n], h);
      StillThere(env, before, ev, hist, h);
      SinceLonger(env, evs, from, h);
      IndexedSince(env, evs, from, h);
    }
  }

  lemma PrefixSame(env: Env, evs: seq<Event>, n: nat, j: nat, h: RowKey)
    requires j <= n <= |evs|
    ensures Origin(env, evs[..n], j, h) <==> Origin(env, evs, j, h)
    ensures j > 0 ==> (Lasting(env, evs[..n], j, h) <==> Lasting(env, evs, j, h))
  {
    assert evs[..n][..j] == evs[..j];
  }

  lemma SinceFirst(env: Env, evs: seq<Event>, h: RowKey)
    requires evs != [] && h !in Run(env, evs[..|evs| - 1]).rows
    requires h in Run(env, evs).rows && !Resets(evs[|evs| - 1], h)
    ensures Since(env, evs, |evs| - 1, h)
  {
    assert evs[..|evs|] == evs;
  }

  lemma SinceLonger(env: Env, evs: seq<Event>, from: nat, h: RowKey)
    requires evs != [] && Since(env, evs[..|evs| - 1], from, h)
    requires h in Run(env, evs).rows && !Resets(evs[|evs| - 1], h)
    ensures Since(env, evs, from, h)
  {
    var n := |evs| - 1;
    assert evs[..|evs|] == evs;
    PrefixSame(env, evs, n, from, h);
    forall j | from < j <= |evs| ensures Lasting(env, evs, j, h) {
      if j <= n { PrefixSame(env, evs, n, j, h); }
    }
  }

  lemma IndexedSince(env: Env, evs: seq<Event>, from: nat, h: RowKey)
    requires from < |evs|
    ensures TimesIndexed(env, evs[from..], h) == TimesIndexed(env, evs[..|evs| - 1][from..], h)
            + if Indexes(env, evs[|evs| - 1], h) then 1 else 0
  {
    var tail := evs[from..];
    assert tail[..|tail| - 1] == evs[..|evs| - 1][from..];
  }

  lemma JustReset(env: Env, db: Database, ev: Event, hist: map<RowKey, Bytes>, h: RowKey)
    requires Consistent(db, env.blockKey) && Faithful(db, env, hist)
    requires h.HeaderKey? && Resets(ev, h) && h in Step(db, env, ev).rows
    ensures Step(db, env, ev).rows[h].cols.HeaderCols? && Step(db, env, ev).rows[h].cols.timesValidated == 0
  {
    ResetAllKeeps(db, env, ev.rngs, hist);
    assert Fits(TableOf(h), db.rows[h].cols);
  }

  lemma FirstIndexed(env: Env, db: Database, ev: Event, hist: map<RowKey, Bytes>, h: RowKey)
    requires Consistent(db, env.blockKey) && Faithful(db, env, hist)
    requires h.HeaderKey? && h !in db.rows && h in Step(db, env, ev).rows
    ensures Indexes(env, ev, h) && Step(db, env, ev).rows[h].cols == HeaderCols(ev.p.headerInfo, 1)
  {
    match ev
    case PublishEvent(p) => if Effective(env, p) { HeaderAfterPublish(db, env, p, h); }
    case CleanEvent(rngs, ty) => if ty != UnknownData { CleanAllKeeps(db, env, rngs, ty, hist); }
    case ResetEvent(rngs) => ResetAllKeeps(db, env, rngs, hist);
  }

  lemma StillThere(env: Env, db: Database, ev: Event, hist: map<RowKey, Bytes>, h: RowKey)
    requires Consistent(db, env.blockKey) && Faithful(db, env, hist)
    requires h.HeaderKey? && h in db.rows && h in Step(db, env, ev).rows && !Resets(ev, h)
    ensures Step(db, env, ev).rows[h].cols.HeaderCols?
    ensures Step(db, env, ev).rows[h].cols.timesValidated
         == db.rows[h].cols.timesValidated + if Indexes(env, ev, h) then 1 else 0
  {
    assert Fits(TableOf(h), db.rows[h].cols);
    match ev
    case PublishEvent(p) => if Effective(env, p) { HeaderAfterPublish(db, env, p, h); }
    case CleanEvent(rngs, ty) => if ty != UnknownData { CleanAllKeeps(db, env, rngs, ty, hist); }
    case ResetEvent(rngs) => ResetAllKeeps(db, env, rngs, hist);
  }
}
