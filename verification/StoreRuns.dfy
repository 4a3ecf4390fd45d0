/** What every run of publishes, cleans and resets keeps. */
module StoreRuns {
  import opened Common
  import opened Schema
  import opened Payloads
  import opened Cleaner
  import opened Store

  // ----- the entries of a payload -----

  function KeysOf(es: seq<Entry>): set<RowKey> { set i | 0 <= i < |es| :: es[i].key }

  predicate Sound(e: Entry) {
    WellFormed(e.key) && Fits(TableOf(e.key), e.cols) && (e.raw.None? <==> e.key.AccountKey?)
  }

  /** Every row of the list hangs from a known row or from an earlier row of the list. */
  predicate Rooted(es: seq<Entry>, known: set<RowKey>) {
    if es == [] then true
    else
      var n := |es| - 1;
      && Rooted(es[..n], known)
      && Sound(es[n]) && Parent(es[n].key).Some? && Parent(es[n].key).value in known + KeysOf(es[..n])
  }

  lemma KeysOfJoin(es: seq<Entry>, fs: seq<Entry>)
    ensures KeysOf(es + fs) == KeysOf(es) + KeysOf(fs)
  {
    assert forall i :: 0 <= i < |es| ==> (es + fs)[i] == es[i];
    assert forall i :: 0 <= i < |fs| ==> (es + fs)[|es| + i] == fs[i];
  }

  lemma {:induction false} RootedJoin(es: seq<Entry>, fs: seq<Entry>, known: set<RowKey>, base: set<RowKey>)
    requires Rooted(es, known) && Rooted(fs, base) && base <= known + KeysOf(es)
    ensures Rooted(es + fs, known)
  {
    if fs == [] {
      assert es + fs == es;
    } else {
      var n := |fs| - 1;
      assert es + fs == (es + fs[..n]) + [fs[n]];
      RootedJoin(es, fs[..n], known, base);
      KeysOfJoin(es, fs[..n]);
      assert Parent(fs[n].key).value in base + KeysOf(fs[..n]);
      RootedNext(es + fs[..n], fs[n], known);
    }
  }

  lemma RootedNext(es: seq<Entry>, e: Entry, known: set<RowKey>)
    requires Rooted(es, known) && Sound(e) && Parent(e.key).Some? && Parent(e.key).value in known + KeysOf(es)
    ensures Rooted(es + [e], known)
  {
    assert (es + [e])[..|es|] == es;
  }

  lemma {:induction false} UnclesRooted(p: ConvertedPayload, n: nat)
    requires n <= |p.uncles|
    ensures Rooted(UncleEntries(p, n), {HeaderOf(p)})
  {
    if n > 0 {
      UnclesRooted(p, n - 1);
      RootedNext(UncleEntries(p, n - 1), UncleEntry(p, p.uncles[n - 1]), {HeaderOf(p)});
    }
  }

  lemma {:induction false} TxsRooted(p: ConvertedPayload, n: nat)
    requires n <= |p.txs| && n <= |p.receipts|
    ensures Rooted(TxEntries(p, n), {HeaderOf(p)})
  {
    if n > 0 {
      TxsRooted(p, n - 1);
      var a, b := TxEntry(p, n - 1), ReceiptEntry(p, n - 1);
      RootedOne(a, {HeaderOf(p)});
      assert WellFormed(a.key) && Sound(b);
      RootedNext([a], b, {HeaderOf(p)});
      RootedJoin(TxEntries(p, n - 1), PairEntries(p, n - 1), {HeaderOf(p)}, {HeaderOf(p)});
    }
  }

  lemma {:induction false} StorageRooted(env: Env, p: ConvertedPayload, n: TrieNode, m: nat)
    requires m <= |StorageUnder(p, n.path)|
    ensures Rooted(StorageEntries(env, p, n, m), {StateKeyOf(p, n)})
  {
    if m > 0 {
      StorageRooted(env, p, n, m - 1);
      var last := StorageEntry(env, p, n, StorageUnder(p, n.path)[m - 1]);
      assert WellFormed(StateKeyOf(p, n)) && Sound(last);
      RootedNext(StorageEntries(env, p, n, m - 1), last, {StateKeyOf(p, n)});
    }
  }

  lemma RootedOne(e: Entry, known: set<RowKey>)
    requires Sound(e) && Parent(e.key).Some? && Parent(e.key).value in known
    ensures Rooted([e], known) && KeysOf([e]) == {e.key}
  {
    assert [e][..0] == [];
    assert [e][0].key == e.key;
  }

  lemma LeafRooted(env: Env, p: ConvertedPayload, n: TrieNode)
    ensures Rooted(LeafEntries(env, p, n), {StateKeyOf(p, n)})
  {
    var below, k := LeafEntries(env, p, n), StateKeyOf(p, n);
    if below != [] {
      assert WellFormed(k) && Sound(below[0]);
      RootedOne(below[0], {k});
      StorageRooted(env, p, n, |StorageUnder(p, n.path)|);
      RootedJoin([below[0]], StorageEntries(env, p, n, |StorageUnder(p, n.path)|), {k}, {k});
    }
  }

  lemma NodeRooted(env: Env, p: ConvertedPayload, n: TrieNode)
    ensures Rooted(NodeEntries(env, p, n), {HeaderOf(p)})
  {
    RootedOne(StateEntry(env, p, n), {HeaderOf(p)});
    LeafRooted(env, p, n);
    RootedJoin([StateEntry(env, p, n)], LeafEntries(env, p, n), {HeaderOf(p)}, {StateKeyOf(p, n)});
  }

  lemma {:induction false} StatesRooted(env: Env, p: ConvertedPayload, n: nat)
    requires n <= |p.stateNodes|
    ensures Rooted(StateEntries(env, p, n), {HeaderOf(p)})
  {
    if n > 0 {
      StatesRooted(env, p, n - 1);
      var node := p.stateNodes[n - 1];
      NodeRooted(env, p, node);
      RootedJoin(StateEntries(env, p, n - 1), NodeEntries(env, p, node), {HeaderOf(p)}, {HeaderOf(p)});
    }
  }

  lemma BodyRooted(env: Env, p: ConvertedPayload)
    requires |p.txs| <= |p.receipts|
    ensures Rooted(BodyEntries(env, p), {HeaderOf(p)})
  {
    UnclesRooted(p, |p.uncles|);
    TxsRooted(p, |p.txs|);
    StatesRooted(env, p, |p.stateNodes|);
    RootedJoin(UncleEntries(p, |p.uncles|), TxEntries(p, |p.txs|), {HeaderOf(p)}, {HeaderOf(p)});
    RootedJoin(UncleEntries(p, |p.uncles|) + TxEntries(p, |p.txs|), StateEntries(env, p, |p.stateNodes|),
               {HeaderOf(p)}, {HeaderOf(p)});
  }

  // ----- what writing entries keeps -----

  /** The bytes last published for each row. */
  function Remember(hist: map<RowKey, Bytes>, es: seq<Entry>): map<RowKey, Bytes> {
    if es == [] then hist
    else
      var e := es[|es| - 1];
      var before := Remember(hist, es[..|es| - 1]);
      if e.raw.Some? then before[e.key := e.raw.value] else before
  }

  ghost predicate Faithful(db: Database, env: Env, hist: map<RowKey, Bytes>) {
    forall k :: k in db.rows && db.rows[k].mhKey.Some? ==> k in hist && db.rows[k].mhKey.value == env.blockKey(hist[k])
  }

  lemma InsertKeeps(db: Database, env: Env, raw: Bytes)
    requires Consistent(db, env.blockKey)
    ensures Consistent(InsertBlock(db, env.blockKey, raw), env.blockKey)
    ensures env.blockKey(raw) in InsertBlock(db, env.blockKey, raw).blocks
  {
  }

  lemma UpsertKeeps(db: Database, env: Env, k: RowKey, mhKey: Option<string>, cols: Columns)
    requires Consistent(db, env.blockKey) && WellFormed(k) && Fits(TableOf(k), cols)
    requires Parent(k).Some? ==> Parent(k).value in db.rows
    requires mhKey.None? <==> k.AccountKey?
    requires mhKey.Some? ==> mhKey.value in db.blocks
    ensures Consistent(Upsert(db, k, mhKey, cols), env.blockKey)
  {
    UpsertKeepsRows(db, k, mhKey, cols);
    UpsertKeepsIds(db, k, mhKey, cols);
  }

  lemma UpsertKeepsRows(db: Database, k: RowKey, mhKey: Option<string>, cols: Columns)
    requires RefClosed(db.rows) && Typed(db.rows) && Backed(db) && WellFormed(k) && Fits(TableOf(k), cols)
    requires Parent(k).Some? ==> Parent(k).value in db.rows
    requires mhKey.None? <==> k.AccountKey?
    requires mhKey.Some? ==> mhKey.value in db.blocks
    ensures var after := Upsert(db, k, mhKey, cols); RefClosed(after.rows) && Typed(after.rows) && Backed(after)
  {
    var after := Upsert(db, k, mhKey, cols);
    assert Fits(TableOf(k), after.rows[k].cols);
    forall l | l in after.rows && l != k ensures l in db.rows && after.rows[l] == db.rows[l] {}
  }

  lemma UpsertKeepsIds(db: Database, k: RowKey, mhKey: Option<string>, cols: Columns)
    requires IdsUnique(db)
    ensures IdsUnique(Upsert(db, k, mhKey, cols))
  {
    var after := Upsert(db, k, mhKey, cols);
    forall l | l in after.rows && l != k ensures l in db.rows && after.rows[l] == db.rows[l] {}
  }

  lemma ApplyKeeps(db: Database, env: Env, e: Entry)
    requires Consistent(db, env.blockKey) && Sound(e)
    requires Parent(e.key).Some? ==> Parent(e.key).value in db.rows
    ensures Consistent(Apply(db, env, e), env.blockKey)
  {
    if e.raw.Some? {
      InsertKeeps(db, env, e.raw.value);
      UpsertKeeps(InsertBlock(db, env.blockKey, e.raw.value), env, e.key, Some(env.blockKey(e.raw.value)), e.cols);
    } else {
      UpsertKeeps(db, env, e.key, None, e.cols);
    }
  }

  lemma ApplyFaithful(db: Database, env: Env, e: Entry, hist: map<RowKey, Bytes>)
    requires Faithful(db, env, hist)
    ensures Faithful(Apply(db, env, e), env, if e.raw.Some? then hist[e.key := e.raw.value] else hist)
  {
    if e.raw.Some? {
      var mid := InsertBlock(db, env.blockKey, e.raw.value);
      UpsertFaithful(mid, env, e.key, Some(env.blockKey(e.raw.value)), e.cols, hist, hist[e.key := e.raw.value]);
    } else {
      UpsertFaithful(db, env, e.key, None, e.cols, hist, hist);
    }
  }

  lemma UpsertFaithful(db: Database, env: Env, k: RowKey, mhKey: Option<string>, cols: Columns,
                       hist: map<RowKey, Bytes>, hist': map<RowKey, Bytes>)
    requires Faithful(db, env, hist)
    requires forall l :: l in hist && l != k ==> l in hist' && hist'[l] == hist[l]
    requires mhKey.Some? ==> k in hist' && mhKey.value == env.blockKey(hist'[k])
    ensures Faithful(Upsert(db, k, mhKey, cols), env, hist')
  {
    var after := Upsert(db, k, mhKey, cols);
    forall l | l in after.rows && l != k ensures l in db.rows && after.rows[l] == db.rows[l] {}
  }

  lemma {:induction false} ApplyAllKeys(db: Database, env: Env, es: seq<Entry>)
    ensures ApplyAll(db, env, es).rows.Keys == db.rows.Keys + KeysOf(es)
  {
    if es == [] {
      assert KeysOf(es) == {};
    } else {
      ApplyAllKeys(db, env, es[..|es| - 1]);
      KeysOfLast(es);
    }
  }

  lemma {:induction false} ApplyAllFaithful(db: Database, env: Env, es: seq<Entry>, hist: map<RowKey, Bytes>)
    requires Faithful(db, env, hist)
    ensures Faithful(ApplyAll(db, env, es), env, Remember(hist, es))
  {
    if es != [] {
      var n := |es| - 1;
      ApplyAllFaithful(db, env, es[..n], hist);
      ApplyFaithful(ApplyAll(db, env, es[..n]), env, es[n], Remember(hist, es[..n]));
    }
  }

  /** Writing a rooted list below a known header keeps every promise of the schema. */
  lemma {:induction false} ApplyAllKeeps(db: Database, env: Env, es: seq<Entry>, root: RowKey)
    requires Consistent(db, env.blockKey) && root in db.rows && Rooted(es, {root})
    ensures Consistent(ApplyAll(db, env, es), env.blockKey)
  {
    if es != [] {
      var n := |es| - 1;
      ApplyAllKeeps(db, env, es[..n], root);
      ApplyAllKeys(db, env, es[..n]);
      ApplyKeeps(ApplyAll(db, env, es[..n]), env, es[n]);
    }
  }

  lemma KeysOfLast(es: seq<Entry>)
    requires es != []
    ensures KeysOf(es) == KeysOf(es[..|es| - 1]) + {es[|es| - 1].key}
  {
    var n := |es| - 1;
    assert forall i :: 0 <= i < n ==> es[..n][i].key == es[i].key;
  }

  lemma {:induction false} InsertAllKeeps(db: Database, env: Env, raws: seq<Bytes>)
    requires Consistent(db, env.blockKey)
    ensures Consistent(InsertAll(db, env, raws), env.blockKey)
    ensures InsertAll(db, env, raws).rows == db.rows
    ensures forall raw :: raw in raws ==> env.blockKey(raw) in InsertAll(db, env, raws).blocks
    ensures db.blocks.Keys <= InsertAll(db, env, raws).blocks.Keys
  {
    if raws != [] {
      var n := |raws| - 1;
      InsertAllKeeps(db, env, raws[..n]);
      assert forall raw :: raw in raws ==> raw in raws[..n] || raw == raws[n];
    }
  }

  function RememberPayload(hist: map<RowKey, Bytes>, env: Env, p: ConvertedPayload): map<RowKey, Bytes> {
    if |p.txs| <= |p.receipts| && Decodes(env, p) then Remember(hist, Entries(env, p)) else hist
  }

  lemma PublishKeeps(db: Database, env: Env, p: ConvertedPayload, hist: map<RowKey, Bytes>)
    requires Consistent(db, env.blockKey) && Faithful(db, env, hist)
    ensures Consistent(Published(db, env, p), env.blockKey)
    ensures Faithful(Published(db, env, p), env, RememberPayload(hist, env, p))
  {
    if |p.txs| <= |p.receipts| && Decodes(env, p) {
      var start, header := InsertAll(db, env, p.txAndReceiptTries), HeaderEntry(p);
      InsertAllKeeps(db, env, p.txAndReceiptTries);
      ApplyKeeps(start, env, header);
      BodyRooted(env, p);
      ApplyAllKeeps(Apply(start, env, header), env, BodyEntries(env, p), HeaderOf(p));
      HeaderThenBody(start, env, p);
      ApplyAllFaithful(start, env, Entries(env, p), hist);
    }
  }

  lemma HeaderThenBody(start: Database, env: Env, p: ConvertedPayload)
    requires |p.txs| <= |p.receipts|
    ensures ApplyAll(start, env, Entries(env, p))
         == ApplyAll(Apply(start, env, HeaderEntry(p)), env, BodyEntries(env, p))
  {
    ApplyNext(start, env, [], HeaderEntry(p));
    assert [] + [HeaderEntry(p)] == [HeaderEntry(p)];
    ApplyAppend(start, env, [HeaderEntry(p)], BodyEntries(env, p));
  }

  // ----- what deleting and resetting keep -----

  lemma DeleteKeeps(db: Database, env: Env, keys: set<string>, hit: set<RowKey>, hist: map<RowKey, Bytes>)
    requires Consistent(db, env.blockKey) && Faithful(db, env, hist)
    ensures Consistent(DeleteBlocks(db, keys), env.blockKey) && Faithful(DeleteBlocks(db, keys), env, hist)
    ensures Consistent(DeleteRows(db, hit), env.blockKey) && Faithful(DeleteRows(db, hit), env, hist)
  {
    var held := Holding(db.rows, keys);
    forall k | k in db.rows && db.rows[k].mhKey.Some? && !Falls(held, k)
      ensures db.rows[k].mhKey.value !in keys {}
  }

  lemma {:induction false} CleanBlocksKeeps(db: Database, env: Env, ts: seq<Table>, lo: nat, hi: nat,
                                            hist: map<RowKey, Bytes>)
    requires Consistent(db, env.blockKey) && Faithful(db, env, hist)
    ensures Consistent(CleanBlocks(db, ts, lo, hi), env.blockKey) && Faithful(CleanBlocks(db, ts, lo, hi), env, hist)
    ensures Within(CleanBlocks(db, ts, lo, hi), db)
  {
    if ts != [] {
      var n := |ts| - 1;
      CleanBlocksKeeps(db, env, ts[..n], lo, hi, hist);
      var before := CleanBlocks(db, ts[..n], lo, hi);
      DeleteKeeps(before, env, KeysIn(before, ts[n], lo, hi), {}, hist);
    }
  }

  /** `a` has only rows of `b`, unchanged. */
  ghost predicate Within(a: Database, b: Database) {
    forall k :: k in a.rows ==> k in b.rows && a.rows[k] == b.rows[k]
  }

  lemma {:induction false} CleanAllKeeps(db: Database, env: Env, rngs: seq<(nat, nat)>, ty: DataType,
                                         hist: map<RowKey, Bytes>)
    requires ty != UnknownData
    requires Consistent(db, env.blockKey) && Faithful(db, env, hist)
    ensures Consistent(CleanAll(db, rngs, ty), env.blockKey) && Faithful(CleanAll(db, rngs, ty), env, hist)
    ensures Within(CleanAll(db, rngs, ty), db)
  {
    if rngs != [] {
      var n := |rngs| - 1;
      CleanAllKeeps(db, env, rngs[..n], ty, hist);
      var before := CleanAll(db, rngs[..n], ty);
      CleanBlocksKeeps(before, env, Order(ty), rngs[n].0, rngs[n].1, hist);
      var clean := CleanBlocks(before, Order(ty), rngs[n].0, rngs[n].1);
      DeleteKeeps(clean, env, {}, RowsIn(clean, Order(ty)[|Order(ty)| - 1], rngs[n].0, rngs[n].1), hist);
    }
  }

  predicate Covers(rngs: seq<(nat, nat)>, h: RowKey) {
    h.HeaderKey? && exists i :: 0 <= i < |rngs| && rngs[i].0 <= h.number <= rngs[i].1
  }

  lemma ResetKeeps(db: Database, env: Env, lo: nat, hi: nat, hist: map<RowKey, Bytes>)
    requires Consistent(db, env.blockKey) && Faithful(db, env, hist)
    ensures Consistent(Reset(db, lo, hi), env.blockKey) && Faithful(Reset(db, lo, hi), env, hist)
  {
    var after := Reset(db, lo, hi);
    assert forall k :: k in db.rows ==> after.rows[k].id == db.rows[k].id && after.rows[k].mhKey == db.rows[k].mhKey;
  }

  lemma CoversLast(rngs: seq<(nat, nat)>, k: RowKey)
    requires rngs != []
    ensures var n := |rngs| - 1;
            Covers(rngs, k) <==> Covers(rngs[..n], k) || (k.HeaderKey? && rngs[n].0 <= k.number <= rngs[n].1)
  {
    var n := |rngs| - 1;
    assert forall i :: 0 <= i < n ==> rngs[..n][i] == rngs[i];
    if Covers(rngs[..n], k) {
      var i :| 0 <= i < n && rngs[..n][i].0 <= k.number <= rngs[..n][i].1;
      assert rngs[i].0 <= k.number <= rngs[i].1;
    }
  }

  lemma {:induction false} ResetAllKeeps(db: Database, env: Env, rngs: seq<(nat, nat)>, hist: map<RowKey, Bytes>)
    requires Consistent(db, env.blockKey) && Faithful(db, env, hist)
    ensures Consistent(ResetAll(db, rngs), env.blockKey) && Faithful(ResetAll(db, rngs), env, hist)
    ensures ResetAll(db, rngs).rows.Keys == db.rows.Keys
    ensures forall k :: k in db.rows ==>
              ResetAll(db, rngs).rows[k] ==
                if Covers(rngs, k) then ResetRow(k, db.rows[k], k.number, k.number) else db.rows[k]
  {
    if rngs != [] {
      var n := |rngs| - 1;
      ResetAllKeeps(db, env, rngs[..n], hist);
      ResetKeeps(ResetAll(db, rngs[..n]), env, rngs[n].0, rngs[n].1, hist);
      forall k { CoversLast(rngs, k); }
    }
  }

  // ----- runs -----

  datatype Event =
    | PublishEvent(p: ConvertedPayload)
    | CleanEvent(rngs: seq<(nat, nat)>, ty: DataType)
    | ResetEvent(rngs: seq<(nat, nat)>)

  function Step(db: Database, env: Env, ev: Event): Database {
    match ev
    case PublishEvent(p) => Published(db, env, p)
    case CleanEvent(rngs, ty) => if ty == UnknownData then db else CleanAll(db, rngs, ty)
    case ResetEvent(rngs) => ResetAll(db, rngs)
  }

  function Run(env: Env, evs: seq<Event>): Database {
    if evs == [] then Database(map[], map[], 0) else Step(Run(env, evs[..|evs| - 1]), env, evs[|evs| - 1])
  }

  /** The bytes last published for each row over a run. */
  function History(env: Env, evs: seq<Event>): map<RowKey, Bytes> {
    if evs == [] then map[]
    else
      var before := History(env, evs[..|evs| - 1]);
      var ev := evs[|evs| - 1];
      if ev.PublishEvent? then RememberPayload(before, env, ev.p) else before
  }

  /** In every reachable state the foreign keys hold, ids are unique, blocks are content-addressed
      and each row's mh_key is the key of the bytes last published for that row. */
  lemma {:induction false} EveryRunIsConsistent(env: Env, evs: seq<Event>)
    ensures Consistent(Run(env, evs), env.blockKey)
    ensures Faithful(Run(env, evs), env, History(env, evs))
  {
    if evs != [] {
      var n := |evs| - 1;
      EveryRunIsConsistent(env, evs[..n]);
      var before, hist := Run(env, evs[..n]), History(env, evs[..n]);
      match evs[n]
      case PublishEvent(p) => PublishKeeps(before, env, p, hist);
      case CleanEvent(rngs, ty) => if ty != UnknownData { CleanAllKeeps(before, env, rngs, ty, hist); }
      case ResetEvent(rngs) => ResetAllKeeps(before, env, rngs, hist);
    }
  }

  /** FetchIPLDByMhKey. */
  function Fetch(db: Database, mhKey: string): Option<Bytes> {
    if mhKey in db.blocks then Some(db.blocks[mhKey]) else None
  }

  /** Fetching by a row's mh_key finds a block, and that block is exactly the bytes last published for the
      row, unless those bytes collide with the block that was stored under their key first. */
  lemma FetchReturnsPublished(env: Env, evs: seq<Event>, k: RowKey)
    requires k in Run(env, evs).rows && Run(env, evs).rows[k].mhKey.Some?
    ensures var key, hist := Run(env, evs).rows[k].mhKey.value, History(env, evs);
            && k in hist && key in Run(env, evs).blocks
            && (Fetch(Run(env, evs), key) == Some(hist[k]) <==> CollisionFree(env, Run(env, evs).blocks[key], hist[k]))
  {
    EveryRunIsConsistent(env, evs);
  }

  predicate CollisionFree(env: Env, a: Bytes, b: Bytes) {
    env.blockKey(a) == env.blockKey(b) ==> a == b
  }
}
