/** Which bytes and columns a published block leaves behind each of its rows, in terms of the payload. */
module StoredBytes {
  import opened Common
  import opened Schema
  import opened Payloads
  import opened Cleaner
  import opened Store
  import opened StoreRuns
  import opened Reindex
  import opened Indexed

  /** Row k has these columns, and refers to a stored block under the key of these bytes. */
  ghost predicate Keeps(db: Database, env: Env, k: RowKey, raw: Bytes, cols: Columns) {
    && k in db.rows && db.rows[k].cols == cols
    && db.rows[k].mhKey == Some(env.blockKey(raw)) && env.blockKey(raw) in db.blocks
  }

  /** A block's uncles have different hashes. */
  ghost predicate DistinctUncles(p: ConvertedPayload) {
    forall i, j :: 0 <= i < |p.uncles| && 0 <= j < |p.uncles| && p.uncles[i].hash == p.uncles[j].hash ==> i == j
  }

  ghost predicate Ready(db: Database, env: Env, p: ConvertedPayload) {
    Effective(env, p) && Typed(db.rows) && Distinct(p) && DistinctUncles(p)
  }

  /** The row under the key of a body entry was written by an entry with that key. */
  lemma WrittenBy(db: Database, env: Env, p: ConvertedPayload, own: Entry) returns (e: Entry)
    requires Effective(env, p) && Typed(db.rows) && own in BodyEntries(env, p)
    ensures e in BodyEntries(env, p) && e.key == own.key
    ensures var after := Published(db, env, p);
            && e.key in after.rows && after.rows[e.key].cols == e.cols && after.rows[e.key].mhKey == MhKey(env, e)
            && (e.raw.Some? ==> env.blockKey(e.raw.value) in after.blocks)
  {
    var body := BodyEntries(env, p);
    var i :| 0 <= i < |body| && body[i] == own;
    RowOfKey(db, env, p, own.key);
    LastIsIn(body, own.key);
    e := Last(body, own.key);
    AfterOnce(db, env, p);
    var j :| 0 <= j < |body| && body[j] == e;
  }

  /** Which entries a key can come from. */
  lemma Kinds(env: Env, p: ConvertedPayload, e: Entry)
    requires |p.txs| <= |p.receipts| && e in BodyEntries(env, p)
    ensures e.key.UncleKey? ==> exists i :: 0 <= i < |p.uncles| && e == UncleEntry(p, p.uncles[i])
    ensures e.key.TxKey? ==> exists i :: 0 <= i < |p.txs| && e == TxEntry(p, i)
    ensures e.key.ReceiptKey? ==> exists i :: 0 <= i < |p.txs| && e == ReceiptEntry(p, i)
    ensures e.key.StateKey? ==> exists i :: 0 <= i < |p.stateNodes| && e == StateEntry(env, p, p.stateNodes[i])
  {
    InBody(env, p, e);
    InUncles(p, |p.uncles|, e);
    InTxs(p, |p.txs|, e);
    NotState(env, p, e);
    InStates(env, p, |p.stateNodes|, e);
    forall i | 0 <= i < |p.stateNodes| && e in LeafEntries(env, p, p.stateNodes[i]) ensures !e.key.StateKey? {
      InLeaf(env, p, p.stateNodes[i], e);
    }
  }

  lemma UncleKept(db: Database, env: Env, p: ConvertedPayload, i: nat)
    requires Ready(db, env, p) && i < |p.uncles|
    ensures var u := p.uncles[i];
            Keeps(Published(db, env, p), env, UncleKey(HeaderOf(p), u.hash), u.raw, UncleCols(u.info))
  {
    var own := UncleEntry(p, p.uncles[i]);
    InUncles(p, |p.uncles|, own);
    InBody(env, p, own);
    var e := WrittenBy(db, env, p, own);
    Kinds(env, p, e);
  }

  lemma TxKept(db: Database, env: Env, p: ConvertedPayload, i: nat)
    requires Ready(db, env, p) && i < |p.txs|
    ensures var tx := p.txs[i];
            Keeps(Published(db, env, p), env, TxKey(HeaderOf(p), tx.hash), tx.raw, TxCols(tx.src, tx.dst, i))
  {
    InTxs(p, |p.txs|, TxEntry(p, i));
    InBody(env, p, TxEntry(p, i));
    var e := WrittenBy(db, env, p, TxEntry(p, i));
    Kinds(env, p, e);
  }

  /** The receipt columns: one per topic position, NULL where there is no topic, and the log addresses. */
  function ReceiptColumns(r: Receipt): Columns {
    var topics := seq(|r.topics|, n requires 0 <= n < |r.topics| =>
                        if r.topics[n] == [] then None else Some(r.topics[n]));
    ReceiptCols(topics, Some(r.logContracts))
  }

  lemma ReceiptKept(db: Database, env: Env, p: ConvertedPayload, i: nat)
    requires Ready(db, env, p) && i < |p.txs|
    ensures Keeps(Published(db, env, p), env, ReceiptKey(TxKey(HeaderOf(p), p.txs[i].hash)),
                  p.receipts[i].raw, ReceiptColumns(p.receipts[i]))
  {
    InTxs(p, |p.txs|, ReceiptEntry(p, i));
    InBody(env, p, ReceiptEntry(p, i));
    var e := WrittenBy(db, env, p, ReceiptEntry(p, i));
    Kinds(env, p, e);
    assert ReceiptEntry(p, i).cols.topics == ReceiptColumns(p.receipts[i]).topics;
  }

  /** The leaf key column: empty for the null hash. */
  function KeyColumn(env: Env, leafKey: Bytes): string {
    if env.hex(leafKey) != env.hex(NULL_HASH) then env.hex(leafKey) else ""
  }

  /** The node type column. */
  function TypeColumn(kind: NodeType): int {
    if kind == Branch then 0 else if kind == Extension then 1 else if kind == Leaf then 2
    else if kind == Removed then 3 else -1
  }

  lemma StateKept(db: Database, env: Env, p: ConvertedPayload, i: nat)
    requires Ready(db, env, p) && i < |p.stateNodes|
    ensures var n := p.stateNodes[i];
            Keeps(Published(db, env, p), env, StateKey(HeaderOf(p), n.path), n.value,
                  StateCols(KeyColumn(env, n.leafKey), TypeColumn(n.kind)))
  {
    var own := StateEntry(env, p, p.stateNodes[i]);
    InStates(env, p, |p.stateNodes|, own);
    InBody(env, p, own);
    var e := WrittenBy(db, env, p, own);
    Kinds(env, p, e);
    assert DistinctPaths(p.stateNodes);
  }

  /** An entry below a state node comes from that state node, a leaf. */
  lemma BelowLeaf(env: Env, p: ConvertedPayload, e: Entry, i: nat)
    requires |p.txs| <= |p.receipts| && Distinct(p) && e in BodyEntries(env, p) && i < |p.stateNodes|
    requires e.key.AccountKey? || e.key.StorageKey?
    requires e.key.state == StateKeyOf(p, p.stateNodes[i])
    ensures e in LeafEntries(env, p, p.stateNodes[i])
  {
    InBody(env, p, e);
    InUncles(p, |p.uncles|, e);
    InTxs(p, |p.txs|, e);
    InStates(env, p, |p.stateNodes|, e);
    var j :| 0 <= j < |p.stateNodes|
      && (e == StateEntry(env, p, p.stateNodes[j]) || e in LeafEntries(env, p, p.stateNodes[j]));
    InLeaf(env, p, p.stateNodes[j], e);
    assert p.stateNodes[j].path == p.stateNodes[i].path;
    assert DistinctPaths(p.stateNodes);
  }

  /** Within one leaf a storage key names one storage node. */
  lemma OneNodePerPath(env: Env, p: ConvertedPayload, n: TrieNode, own: Entry, e: Entry)
    requires Distinct(p) && own in LeafEntries(env, p, n) && e in LeafEntries(env, p, n)
    requires own.key.StorageKey? && e.key == own.key
    ensures e == own
  {
    var below := StorageUnder(p, n.path);
    InLeaf(env, p, n, own);
    InLeaf(env, p, n, e);
    var i :| 0 <= i < |below| && own == StorageEntry(env, p, n, below[i]);
    var j :| 0 <= j < |below| && e == StorageEntry(env, p, n, below[j]);
    assert below[i].path == own.key.path == e.key.path == below[j].path;
    assert n.path in p.storageNodes && DistinctPaths(p.storageNodes[n.path]);
  }

  lemma LeafInBody(env: Env, p: ConvertedPayload, i: nat, e: Entry)
    requires |p.txs| <= |p.receipts| && i < |p.stateNodes| && e in LeafEntries(env, p, p.stateNodes[i])
    ensures e in BodyEntries(env, p)
  {
    InStates(env, p, |p.stateNodes|, e);
    InBody(env, p, e);
  }

  lemma StorageKept(db: Database, env: Env, p: ConvertedPayload, i: nat, m: nat)
    requires Ready(db, env, p) && i < |p.stateNodes| && m < |StorageUnder(p, p.stateNodes[i].path)|
    requires p.stateNodes[i].kind == Leaf
    ensures var n, node := p.stateNodes[i], StorageUnder(p, p.stateNodes[i].path)[m];
            Keeps(Published(db, env, p), env, StorageKey(StateKey(HeaderOf(p), n.path), node.path), node.value,
                  StorageCols(KeyColumn(env, node.leafKey), TypeColumn(node.kind)))
  {
    var n := p.stateNodes[i];
    var own := StorageEntry(env, p, n, StorageUnder(p, n.path)[m]);
    InLeaf(env, p, n, own);
    LeafInBody(env, p, i, own);
    var e := WrittenBy(db, env, p, own);
    BelowLeaf(env, p, e, i);
    OneNodePerPath(env, p, n, own, e);
  }

  /** The account row has no block of its own. */
  lemma AccountKept(db: Database, env: Env, p: ConvertedPayload, i: nat)
    requires Ready(db, env, p) && i < |p.stateNodes| && p.stateNodes[i].kind == Leaf
    ensures var after, k := Published(db, env, p), AccountKey(StateKey(HeaderOf(p), p.stateNodes[i].path));
            && env.account(p.stateNodes[i].value).Some? && k in after.rows && after.rows[k].mhKey == None
            && after.rows[k].cols == AccountCols(env.account(p.stateNodes[i].value).value)
  {
    var n := p.stateNodes[i];
    assert env.account(n.value).Some?;
    var own := Entry(AccountKey(StateKeyOf(p, n)), None, AccountCols(env.account(n.value).value));
    InLeaf(env, p, n, own);
    LeafInBody(env, p, i, own);
    var e := WrittenBy(db, env, p, own);
    BelowLeaf(env, p, e, i);
    InLeaf(env, p, n, e);
  }

  lemma HeaderKept(db: Database, env: Env, p: ConvertedPayload)
    requires Ready(db, env, p)
    ensures var h := HeaderKey(p.number, p.hash);
            Keeps(Published(db, env, p), env, h, p.headerRaw,
                  HeaderCols(p.headerInfo, if h in db.rows then db.rows[h].cols.timesValidated + 1 else 1))
  {
    AfterOnce(db, env, p);
    HeaderAfterPublish(db, env, p, HeaderOf(p));
  }

  // ----- all rows together, after one publish and in every run -----

  /** The payload gives row k these bytes: the block's own, an uncle's, a transaction's, a receipt's, a
      state node's or those of a storage node below a state leaf. */
  ghost predicate Names(p: ConvertedPayload, k: RowKey, raw: Bytes) {
    var h := HeaderKey(p.number, p.hash);
    || (k == h && raw == p.headerRaw)
    || (exists i :: 0 <= i < |p.uncles| && k == UncleKey(h, p.uncles[i].hash) && raw == p.uncles[i].raw)
    || (exists i :: 0 <= i < |p.txs| && k == TxKey(h, p.txs[i].hash) && raw == p.txs[i].raw)
    || (exists i :: && 0 <= i < |p.txs| && i < |p.receipts|
                   && k == ReceiptKey(TxKey(h, p.txs[i].hash)) && raw == p.receipts[i].raw)
    || (exists i :: 0 <= i < |p.stateNodes| && k == StateKey(h, p.stateNodes[i].path) && raw == p.stateNodes[i].value)
    || (exists i, m :: && 0 <= i < |p.stateNodes| && p.stateNodes[i].kind == Leaf
                      && 0 <= m < |StorageUnder(p, p.stateNodes[i].path)|
                      && k == StorageKey(StateKey(h, p.stateNodes[i].path),
                                         StorageUnder(p, p.stateNodes[i].path)[m].path)
                      && raw == StorageUnder(p, p.stateNodes[i].path)[m].value)
  }

  /** Row k refers to a stored block under the key of these bytes. */
  ghost predicate Refers(db: Database, env: Env, k: RowKey, raw: Bytes) {
    k in db.rows && db.rows[k].mhKey == Some(env.blockKey(raw)) && env.blockKey(raw) in db.blocks
  }

  /** After a publish each of the block's rows refers to its own bytes. */
  lemma PublishStoresBytes(db: Database, env: Env, p: ConvertedPayload, k: RowKey, raw: Bytes)
    requires Ready(db, env, p) && Names(p, k, raw)
    ensures Refers(Published(db, env, p), env, k, raw)
  {
    HeaderKept(db, env, p);
    match k
    case HeaderKey(_, _) =>
    case UncleKey(_, hash) =>
      var i :| 0 <= i < |p.uncles| && hash == p.uncles[i].hash && raw == p.uncles[i].raw;
      UncleKept(db, env, p, i);
    case TxKey(_, hash) =>
      var i :| 0 <= i < |p.txs| && hash == p.txs[i].hash && raw == p.txs[i].raw;
      TxKept(db, env, p, i);
    case ReceiptKey(t) =>
      var i :| 0 <= i < |p.txs| && t.hash == p.txs[i].hash && raw == p.receipts[i].raw;
      ReceiptKept(db, env, p, i);
    case StateKey(_, path) =>
      var i :| 0 <= i < |p.stateNodes| && path == p.stateNodes[i].path && raw == p.stateNodes[i].value;
      StateKept(db, env, p, i);
    case StorageKey(s, path) =>
      var i, m :| && 0 <= i < |p.stateNodes| && p.stateNodes[i].kind == Leaf && s.path == p.stateNodes[i].path
                  && 0 <= m < |StorageUnder(p, s.path)| && path == StorageUnder(p, s.path)[m].path
                  && raw == StorageUnder(p, s.path)[m].value;
      StorageKept(db, env, p, i, m);
    case AccountKey(_) => assert false;
  }

  /** Whatever a body entry stores, the payload names. */
  lemma EntryNamed(env: Env, p: ConvertedPayload, e: Entry)
    requires |p.txs| <= |p.receipts| && e in BodyEntries(env, p) && e.raw.Some?
    ensures Names(p, e.key, e.raw.value)
  {
    InBody(env, p, e);
    InUncles(p, |p.uncles|, e);
    InTxs(p, |p.txs|, e);
    InStates(env, p, |p.stateNodes|, e);
    if e in StateEntries(env, p, |p.stateNodes|) {
      var i :| 0 <= i < |p.stateNodes|
        && (e == StateEntry(env, p, p.stateNodes[i]) || e in LeafEntries(env, p, p.stateNodes[i]));
      InLeaf(env, p, p.stateNodes[i], e);
    }
  }

  lemma {:induction false} BlocksOfEntries(db: Database, env: Env, es: seq<Entry>, key: string)
    ensures var after := ApplyAll(db, env, es);
            && (key in db.blocks ==> key in after.blocks && after.blocks[key] == db.blocks[key])
            && (key in after.blocks ==>
                  key in db.blocks || exists e :: e in es && e.raw.Some? && key == env.blockKey(e.raw.value))
  {
    if es != [] { BlocksOfEntries(db, env, es[..|es| - 1], key); }
  }

  lemma {:induction false} BlocksOfTries(db: Database, env: Env, raws: seq<Bytes>, key: string)
    ensures var after := InsertAll(db, env, raws);
            && (key in db.blocks ==> key in after.blocks && after.blocks[key] == db.blocks[key])
            && (key in after.blocks ==> key in db.blocks || exists raw :: raw in raws && key == env.blockKey(raw))
  {
    if raws != [] { BlocksOfTries(db, env, raws[..|raws| - 1], key); }
  }

  /** A publish keeps every stored block, and adds the keys of the trie nodes and of the bytes the payload
      names and no others. */
  lemma PublishStoresNothingElse(db: Database, env: Env, p: ConvertedPayload, key: string)
    requires Ready(db, env, p)
    ensures var after := Published(db, env, p);
            && (key in db.blocks ==> key in after.blocks && after.blocks[key] == db.blocks[key])
            && (key in after.blocks <==>
                || key in db.blocks
                || (exists i :: 0 <= i < |p.txAndReceiptTries| && key == env.blockKey(p.txAndReceiptTries[i]))
                || exists k, raw :: Names(p, k, raw) && key == env.blockKey(raw))
  {
    var start, after := InsertAll(db, env, p.txAndReceiptTries), Published(db, env, p);
    BlocksOfTries(db, env, p.txAndReceiptTries, key);
    BlocksOfEntries(start, env, Entries(env, p), key);
    AfterOnce(db, env, p);
    if key in after.blocks && key !in start.blocks {
      var e :| e in Entries(env, p) && e.raw.Some? && key == env.blockKey(e.raw.value);
      if e in BodyEntries(env, p) { EntryNamed(env, p, e); }
      assert Names(p, e.key, e.raw.value);
    }
    if k, raw :| Names(p, k, raw) && key == env.blockKey(raw) { PublishStoresBytes(db, env, p, k, raw); }
  }

  lemma NamesBelow(p: ConvertedPayload, k: RowKey, raw: Bytes)
    requires Names(p, k, raw)
    ensures Top(k) == HeaderOf(p) && !k.AccountKey?
  {
    TopOfParent(HeaderOf(p));
    TopOfParent(k);
    if Parent(k).Some? { TopOfParent(Parent(k).value); }
  }

  /** A publish of another block leaves the rows below this header as they are. */
  lemma OthersUntouched(db: Database, env: Env, p: ConvertedPayload, k: RowKey)
    requires Effective(env, p) && Top(k) != HeaderOf(p)
    ensures var after := Published(db, env, p);
            (k in after.rows <==> k in db.rows) && (k in db.rows ==> after.rows[k] == db.rows[k])
  {
    var start := InsertAll(db, env, p.txAndReceiptTries);
    InsertAllStores(db, env, p.txAndReceiptTries);
    HeaderThenBody(start, env, p);
    BodyRooted(env, p);
    KeysAfterPublish(db, env, p);
    LastWriteWins(Apply(start, env, HeaderEntry(p)), env, BodyEntries(env, p), {HeaderOf(p)}, k);
    TopOfParent(HeaderOf(p));
  }

  /** A payload that cannot be published, because a receipt is missing or a state leaf holds no account,
      changes nothing. */
  lemma RefusedChangesNothing(db: Database, env: Env, p: ConvertedPayload)
    requires || |p.receipts| < |p.txs|
             || exists i :: && 0 <= i < |p.stateNodes| && p.stateNodes[i].kind == Leaf
                         && env.account(p.stateNodes[i].value) == None
    ensures Published(db, env, p) == db
  {
    assert !Effective(env, p);
  }

  /** If row k is there, it names the key of these bytes. */
  ghost predicate IfThere(db: Database, env: Env, k: RowKey, raw: Bytes) {
    k in db.rows ==> db.rows[k].mhKey == Some(env.blockKey(raw))
  }

  lemma PublishKeepsBytes(db: Database, env: Env, q: ConvertedPayload, p: ConvertedPayload, k: RowKey, raw: Bytes)
    requires Typed(db.rows) && Distinct(p) && DistinctUncles(p) && Names(p, k, raw) && IfThere(db, env, k, raw)
    requires HeaderOf(q) == HeaderOf(p) ==> q == p
    ensures IfThere(Published(db, env, q), env, k, raw)
  {
    if Effective(env, q) {
      NamesBelow(p, k, raw);
      if q == p { PublishStoresBytes(db, env, p, k, raw); } else { OthersUntouched(db, env, q, k); }
    }
  }

  lemma {:induction false} RunKeepsBytes(env: Env, evs: seq<Event>, p: ConvertedPayload, k: RowKey, raw: Bytes)
    requires Distinct(p) && DistinctUncles(p) && Names(p, k, raw)
    requires forall i :: 0 <= i < |evs| && evs[i].PublishEvent? && HeaderOf(evs[i].p) == HeaderOf(p) ==> evs[i].p == p
    ensures IfThere(Run(env, evs), env, k, raw)
  {
    if evs != [] {
      var n := |evs| - 1;
      assert forall i :: 0 <= i < n ==> evs[..n][i] == evs[i];
      EveryRunIsConsistent(env, evs[..n]);
      RunKeepsBytes(env, evs[..n], p, k, raw);
      var before, hist := Run(env, evs[..n]), History(env, evs[..n]);
      match evs[n]
      case PublishEvent(q) => PublishKeepsBytes(before, env, q, p, k, raw);
      case CleanEvent(rngs, ty) => if ty != UnknownData { CleanAllKeeps(before, env, rngs, ty, hist); }
      case ResetEvent(rngs) => ResetAllKeeps(before, env, rngs, hist);
    }
  }

  /** In every history that publishes no other block under this header, a row that is there refers to
      the bytes the payload gives it, whatever was cleaned, reset or published around it. */
  lemma BytesInEveryRun(env: Env, evs: seq<Event>, p: ConvertedPayload, k: RowKey, raw: Bytes)
    requires Distinct(p) && DistinctUncles(p) && Names(p, k, raw) && k in Run(env, evs).rows
    requires forall i :: 0 <= i < |evs| && evs[i].PublishEvent? && HeaderOf(evs[i].p) == HeaderOf(p) ==> evs[i].p == p
    ensures Refers(Run(env, evs), env, k, raw)
  {
    RunKeepsBytes(env, evs, p, k, raw);
    EveryRunIsConsistent(env, evs);
  }

  /** So fetching by the row's mh_key gives the payload's own bytes, exactly when they do not collide with
      the block stored under their key first. */
  lemma FetchReturnsPayload(env: Env, evs: seq<Event>, p: ConvertedPayload, k: RowKey, raw: Bytes)
    requires Distinct(p) && DistinctUncles(p) && Names(p, k, raw) && k in Run(env, evs).rows
    requires forall i :: 0 <= i < |evs| && evs[i].PublishEvent? && HeaderOf(evs[i].p) == HeaderOf(p) ==> evs[i].p == p
    ensures var db := Run(env, evs);
            && db.rows[k].mhKey.Some? && Fetch(db, db.rows[k].mhKey.value).Some?
            && (Fetch(db, db.rows[k].mhKey.value) == Some(raw) <==>
                CollisionFree(env, db.blocks[db.rows[k].mhKey.value], raw))
  {
    BytesInEveryRun(env, evs, p, k, raw);
    EveryRunIsConsistent(env, evs);
  }

  /** Right after its publish every row of the block is there to be fetched. */
  lemma FetchAfterPublish(env: Env, evs: seq<Event>, p: ConvertedPayload, k: RowKey, raw: Bytes)
    requires Distinct(p) && DistinctUncles(p) && Names(p, k, raw)
    requires |p.txs| <= |p.receipts|
    requires forall i :: 0 <= i < |p.stateNodes| && p.stateNodes[i].kind == Leaf ==>
               env.account(p.stateNodes[i].value).Some?
    ensures var db := Run(env, evs + [PublishEvent(p)]);
            && k in db.rows && db.rows[k].mhKey.Some? && Fetch(db, db.rows[k].mhKey.value).Some?
            && (Fetch(db, db.rows[k].mhKey.value) == Some(raw) <==>
                CollisionFree(env, db.blocks[db.rows[k].mhKey.value], raw))
  {
    EveryRunIsConsistent(env, evs);
    EveryRunIsConsistent(env, evs + [PublishEvent(p)]);
    assert (evs + [PublishEvent(p)])[..|evs|] == evs;
    PublishStoresBytes(Run(env, evs), env, p, k, raw);
  }
}
