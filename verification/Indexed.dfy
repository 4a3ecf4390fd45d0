/** The rows a published payload leaves under its header: one for each transaction, receipt and state
    node, and one for each storage node below a state leaf. What the stored route finds is worked out
    from these. */
module Indexed {
  import opened Common
  import opened Schema
  import opened Payloads
  import opened Cleaner
  import opened Store
  import opened StoreRuns
  import opened Reindex

  ghost predicate DistinctPaths(nodes: seq<TrieNode>) {
    forall i, j :: 0 <= i < |nodes| && 0 <= j < |nodes| && nodes[i].path == nodes[j].path ==> i == j
  }

  /** The block's own identifiers do not repeat. */
  ghost predicate Distinct(p: ConvertedPayload) {
    && (forall i, j :: 0 <= i < |p.txs| && 0 <= j < |p.txs| && p.txs[i].hash == p.txs[j].hash ==> i == j)
    && DistinctPaths(p.stateNodes)
    && (forall path :: path in p.storageNodes ==> DistinctPaths(p.storageNodes[path]))
  }

  /** The header a row hangs from. */
  function Top(k: RowKey): RowKey {
    match k
    case HeaderKey(_, _) => k
    case UncleKey(h, _) => Top(h)
    case TxKey(h, _) => Top(h)
    case ReceiptKey(t) => Top(t)
    case StateKey(h, _) => Top(h)
    case AccountKey(s) => Top(s)
    case StorageKey(s, _) => Top(s)
  }

  /** Whatever hangs from the payload's header already is one of the payload's own rows: nothing at all
      before the first publish, all of them when the block is validated again. */
  ghost predicate OnlyOwn(db: Database, env: Env, p: ConvertedPayload)
    requires |p.txs| <= |p.receipts|
  {
    forall k :: k in db.rows && Top(k) == HeaderOf(p) ==> k == HeaderOf(p) || k in KeysOf(BodyEntries(env, p))
  }

  lemma {:induction false} RootedTops(es: seq<Entry>, h: RowKey, k: RowKey)
    requires h.HeaderKey? && Rooted(es, {h}) && k in KeysOf(es)
    ensures Top(k) == h
  {
    var n := |es| - 1;
    KeysOfLast(es);
    if k in KeysOf(es[..n]) {
      RootedTops(es[..n], h, k);
    } else if Parent(k).value != h {
      RootedTops(es[..n], h, Parent(k).value);
    }
  }

  /** Publishing a payload adds its header and the keys of its entries, all of them below that header. */
  lemma KeysAfterPublish(db: Database, env: Env, p: ConvertedPayload)
    requires Effective(env, p)
    ensures Published(db, env, p).rows.Keys == db.rows.Keys + {HeaderOf(p)} + KeysOf(BodyEntries(env, p))
    ensures forall k :: k in KeysOf(BodyEntries(env, p)) ==> Top(k) == HeaderOf(p)
  {
    var start := InsertAll(db, env, p.txAndReceiptTries);
    InsertAllStores(db, env, p.txAndReceiptTries);
    HeaderThenBody(start, env, p);
    ApplyAllKeys(Apply(start, env, HeaderEntry(p)), env, BodyEntries(env, p));
    BodyRooted(env, p);
    forall k | k in KeysOf(BodyEntries(env, p)) ensures Top(k) == HeaderOf(p) {
      RootedTops(BodyEntries(env, p), HeaderOf(p), k);
    }
  }

  lemma OwnAfterPublish(db: Database, env: Env, p: ConvertedPayload, q: ConvertedPayload)
    requires |p.txs| <= |p.receipts| && OnlyOwn(db, env, p) && Effective(env, q)
    requires HeaderOf(q) == HeaderOf(p) ==> q == p
    ensures OnlyOwn(Published(db, env, q), env, p)
  {
    KeysAfterPublish(db, env, q);
  }

  /** In every history in which the block under this header is always the same payload, nothing but its
      own rows ever hangs from the header. */
  lemma {:induction false} OwnInEveryRun(env: Env, evs: seq<Event>, p: ConvertedPayload)
    requires |p.txs| <= |p.receipts|
    requires forall i :: 0 <= i < |evs| && evs[i].PublishEvent? && HeaderOf(evs[i].p) == HeaderOf(p) ==> evs[i].p == p
    ensures OnlyOwn(Run(env, evs), env, p)
  {
    if evs != [] {
      var n := |evs| - 1;
      assert forall i :: 0 <= i < n ==> evs[..n][i] == evs[i];
      OwnInEveryRun(env, evs[..n], p);
      EveryRunIsConsistent(env, evs[..n]);
      var before, hist := Run(env, evs[..n]), History(env, evs[..n]);
      match evs[n]
      case PublishEvent(q) => if Effective(env, q) { OwnAfterPublish(before, env, p, q); }
      case CleanEvent(rngs, ty) => if ty != UnknownData { CleanAllKeeps(before, env, rngs, ty, hist); }
      case ResetEvent(rngs) => ResetAllKeeps(before, env, rngs, hist);
    }
  }

  // ----- which entries a payload has -----

  lemma {:induction false} InUncles(p: ConvertedPayload, n: nat, e: Entry)
    requires n <= |p.uncles|
    ensures e in UncleEntries(p, n) <==> exists i :: 0 <= i < n && e == UncleEntry(p, p.uncles[i])
  {
    if n > 0 {
      InUncles(p, n - 1, e);
      assert e in UncleEntries(p, n) <==> e in UncleEntries(p, n - 1) || e == UncleEntry(p, p.uncles[n - 1]);
    }
  }

  lemma {:induction false} InTxs(p: ConvertedPayload, n: nat, e: Entry)
    requires n <= |p.txs| && n <= |p.receipts|
    ensures e in TxEntries(p, n) <==> exists i :: 0 <= i < n && (e == TxEntry(p, i) || e == ReceiptEntry(p, i))
  {
    if n > 0 {
      InTxs(p, n - 1, e);
      assert e in TxEntries(p, n) <==>
        e in TxEntries(p, n - 1) || e == TxEntry(p, n - 1) || e == ReceiptEntry(p, n - 1);
    }
  }

  lemma {:induction false} InStorage(env: Env, p: ConvertedPayload, n: TrieNode, m: nat, e: Entry)
    requires m <= |StorageUnder(p, n.path)|
    ensures e in StorageEntries(env, p, n, m) <==>
            exists i :: 0 <= i < m && e == StorageEntry(env, p, n, StorageUnder(p, n.path)[i])
  {
    if m > 0 {
      InStorage(env, p, n, m - 1, e);
      assert e in StorageEntries(env, p, n, m) <==>
        e in StorageEntries(env, p, n, m - 1) || e == StorageEntry(env, p, n, StorageUnder(p, n.path)[m - 1]);
    }
  }

  lemma {:induction false} InStates(env: Env, p: ConvertedPayload, n: nat, e: Entry)
    requires n <= |p.stateNodes|
    ensures e in StateEntries(env, p, n) <==>
            exists i :: 0 <= i < n &&
                      (e == StateEntry(env, p, p.stateNodes[i]) || e in LeafEntries(env, p, p.stateNodes[i]))
  {
    if n > 0 {
      InStates(env, p, n - 1, e);
      assert e in StateEntries(env, p, n) <==>
        || e in StateEntries(env, p, n - 1)
        || e == StateEntry(env, p, p.stateNodes[n - 1]) || e in LeafEntries(env, p, p.stateNodes[n - 1]);
    }
  }

  lemma LastIsIn(es: seq<Entry>, k: RowKey)
    requires k in KeysOf(es)
    ensures Last(es, k) in es && Last(es, k).key == k
  {
    if es[|es| - 1].key != k {
      KeysOfLast(es);
      LastIsIn(es[..|es| - 1], k);
    }
  }

  // ----- the rows after publishing -----

  lemma TopOfParent(k: RowKey)
    ensures Parent(k).Some? ==> Top(k) == Top(Parent(k).value)
    ensures k.HeaderKey? ==> Top(k) == k
  {
  }

  /** A body entry's key has a row, written by the last entry with that key. */
  lemma RowOfKey(db: Database, env: Env, p: ConvertedPayload, k: RowKey)
    requires Effective(env, p) && k in KeysOf(BodyEntries(env, p))
    ensures k in Published(db, env, p).rows
    ensures Published(db, env, p).rows[k].cols == Last(BodyEntries(env, p), k).cols
    ensures Published(db, env, p).rows[k].mhKey == MhKey(env, Last(BodyEntries(env, p), k))
  {
    var start := InsertAll(db, env, p.txAndReceiptTries);
    HeaderThenBody(start, env, p);
    BodyRooted(env, p);
    LastWriteWins(Apply(start, env, HeaderEntry(p)), env, BodyEntries(env, p), {HeaderOf(p)}, k);
  }

  /** A row below the header after a publish comes from a body entry. */
  lemma RowFromEntry(db: Database, env: Env, p: ConvertedPayload, k: RowKey) returns (e: Entry)
    requires Effective(env, p) && OnlyOwn(db, env, p)
    requires k in Published(db, env, p).rows
    requires Parent(k) == Some(HeaderOf(p)) || (Parent(k).Some? && Parent(Parent(k).value) == Some(HeaderOf(p)))
    ensures e in BodyEntries(env, p) && e.key == k && Published(db, env, p).rows[k].cols == e.cols
  {
    KeysAfterPublish(db, env, p);
    TopOfParent(k);
    TopOfParent(Parent(k).value);
    TopOfParent(HeaderOf(p));
    RowOfKey(db, env, p, k);
    LastIsIn(BodyEntries(env, p), k);
    e := Last(BodyEntries(env, p), k);
  }

  /** Every body entry leaves a row under its key, written by an entry with that key. */
  lemma EntryLeavesRow(db: Database, env: Env, p: ConvertedPayload, e: Entry)
    requires Effective(env, p) && e in BodyEntries(env, p)
    ensures e.key in Published(db, env, p).rows
  {
    var body := BodyEntries(env, p);
    var i :| 0 <= i < |body| && body[i] == e;
    RowOfKey(db, env, p, e.key);
  }

  lemma InBody(env: Env, p: ConvertedPayload, e: Entry)
    requires |p.txs| <= |p.receipts|
    ensures e in BodyEntries(env, p) <==>
            e in UncleEntries(p, |p.uncles|) || e in TxEntries(p, |p.txs|) || e in StateEntries(env, p, |p.stateNodes|)
  {
  }

  lemma UncleRows(db: Database, env: Env, p: ConvertedPayload, k: RowKey)
    requires Effective(env, p) && OnlyOwn(db, env, p)
    requires k.UncleKey? && k.header == HeaderOf(p)
    ensures k in Published(db, env, p).rows <==> exists i :: 0 <= i < |p.uncles| && p.uncles[i].hash == k.hash
  {
    if k in Published(db, env, p).rows {
      var e := RowFromEntry(db, env, p, k);
      InBody(env, p, e);
      InUncles(p, |p.uncles|, e);
      InTxs(p, |p.txs|, e);
      NotState(env, p, e);
    }
    forall i | 0 <= i < |p.uncles| && p.uncles[i].hash == k.hash ensures k in Published(db, env, p).rows {
      InUncles(p, |p.uncles|, UncleEntry(p, p.uncles[i]));
      InBody(env, p, UncleEntry(p, p.uncles[i]));
      EntryLeavesRow(db, env, p, UncleEntry(p, p.uncles[i]));
    }
  }

  lemma TxRows(db: Database, env: Env, p: ConvertedPayload, k: RowKey)
    requires Effective(env, p) && OnlyOwn(db, env, p) && Distinct(p)
    requires k.TxKey? && k.header == HeaderOf(p)
    ensures k in Published(db, env, p).rows <==> exists i :: 0 <= i < |p.txs| && p.txs[i].hash == k.hash
    ensures forall i :: 0 <= i < |p.txs| && p.txs[i].hash == k.hash ==>
              k in Published(db, env, p).rows && Published(db, env, p).rows[k].cols == TxEntry(p, i).cols
  {
    if k in Published(db, env, p).rows {
      var e := RowFromEntry(db, env, p, k);
      InBody(env, p, e);
      InUncles(p, |p.uncles|, e);
      InTxs(p, |p.txs|, e);
      NotState(env, p, e);
    }
    forall i | 0 <= i < |p.txs| && p.txs[i].hash == k.hash ensures k in Published(db, env, p).rows {
      InTxs(p, |p.txs|, TxEntry(p, i));
      InBody(env, p, TxEntry(p, i));
      EntryLeavesRow(db, env, p, TxEntry(p, i));
    }
  }

  lemma ReceiptRows(db: Database, env: Env, p: ConvertedPayload, k: RowKey)
    requires Effective(env, p) && OnlyOwn(db, env, p) && Distinct(p)
    requires k.ReceiptKey? && k.tx.TxKey? && k.tx.header == HeaderOf(p)
    ensures k in Published(db, env, p).rows <==> exists i :: 0 <= i < |p.txs| && p.txs[i].hash == k.tx.hash
    ensures forall i :: 0 <= i < |p.txs| && p.txs[i].hash == k.tx.hash ==>
              k in Published(db, env, p).rows && Published(db, env, p).rows[k].cols == ReceiptEntry(p, i).cols
  {
    if k in Published(db, env, p).rows {
      var e := RowFromEntry(db, env, p, k);
      InBody(env, p, e);
      InUncles(p, |p.uncles|, e);
      InTxs(p, |p.txs|, e);
      NotState(env, p, e);
    }
    forall i | 0 <= i < |p.txs| && p.txs[i].hash == k.tx.hash ensures k in Published(db, env, p).rows {
      InTxs(p, |p.txs|, ReceiptEntry(p, i));
      InBody(env, p, ReceiptEntry(p, i));
      EntryLeavesRow(db, env, p, ReceiptEntry(p, i));
    }
  }

  lemma NotState(env: Env, p: ConvertedPayload, e: Entry)
    requires |p.txs| <= |p.receipts|
    ensures e in StateEntries(env, p, |p.stateNodes|) ==> e.key.StateKey? || e.key.AccountKey? || e.key.StorageKey?
  {
    if e in StateEntries(env, p, |p.stateNodes|) {
      InStates(env, p, |p.stateNodes|, e);
      var i :| 0 <= i < |p.stateNodes|
        && (e == StateEntry(env, p, p.stateNodes[i]) || e in LeafEntries(env, p, p.stateNodes[i]));
      InLeaf(env, p, p.stateNodes[i], e);
    }
  }

  lemma InLeaf(env: Env, p: ConvertedPayload, n: TrieNode, e: Entry)
    ensures e in LeafEntries(env, p, n) <==>
            && n.kind == Leaf && env.account(n.value).Some?
            && (|| e == Entry(AccountKey(StateKeyOf(p, n)), None, AccountCols(env.account(n.value).value))
                || exists i :: 0 <= i < |StorageUnder(p, n.path)|
                            && e == StorageEntry(env, p, n, StorageUnder(p, n.path)[i]))
  {
    InStorage(env, p, n, |StorageUnder(p, n.path)|, e);
  }

  lemma StateRows(db: Database, env: Env, p: ConvertedPayload, k: RowKey)
    requires Effective(env, p) && OnlyOwn(db, env, p) && Distinct(p)
    requires k.StateKey? && k.header == HeaderOf(p)
    ensures k in Published(db, env, p).rows <==> exists i :: 0 <= i < |p.stateNodes| && p.stateNodes[i].path == k.path
    ensures forall i :: 0 <= i < |p.stateNodes| && p.stateNodes[i].path == k.path ==>
              k in Published(db, env, p).rows
              && Published(db, env, p).rows[k].cols == StateEntry(env, p, p.stateNodes[i]).cols
  {
    if k in Published(db, env, p).rows {
      var e := RowFromEntry(db, env, p, k);
      InBody(env, p, e);
      InUncles(p, |p.uncles|, e);
      InTxs(p, |p.txs|, e);
      InStates(env, p, |p.stateNodes|, e);
      var i :| 0 <= i < |p.stateNodes|
        && (e == StateEntry(env, p, p.stateNodes[i]) || e in LeafEntries(env, p, p.stateNodes[i]));
      InLeaf(env, p, p.stateNodes[i], e);
    }
    forall i | 0 <= i < |p.stateNodes| && p.stateNodes[i].path == k.path ensures k in Published(db, env, p).rows {
      var e := StateEntry(env, p, p.stateNodes[i]);
      InStates(env, p, |p.stateNodes|, e);
      InBody(env, p, e);
      EntryLeavesRow(db, env, p, e);
    }
  }

  /** Storage node m under state node i has a row exactly when the state node is a leaf. */
  lemma StorageRows(db: Database, env: Env, p: ConvertedPayload, k: RowKey) returns (i: nat, m: nat)
    requires Effective(env, p) && OnlyOwn(db, env, p)
    requires k.StorageKey? && k.state.StateKey? && k.state.header == HeaderOf(p)
    requires k in Published(db, env, p).rows
    ensures i < |p.stateNodes| && p.stateNodes[i].path == k.state.path && p.stateNodes[i].kind == Leaf
    ensures m < |StorageUnder(p, k.state.path)| && StorageUnder(p, k.state.path)[m].path == k.path
    ensures Published(db, env, p).rows[k].cols
         == StorageEntry(env, p, p.stateNodes[i], StorageUnder(p, k.state.path)[m]).cols
  {
    var e := RowFromEntry(db, env, p, k);
    InBody(env, p, e);
    InUncles(p, |p.uncles|, e);
    InTxs(p, |p.txs|, e);
    InStates(env, p, |p.stateNodes|, e);
    i :| 0 <= i < |p.stateNodes|
        && (e == StateEntry(env, p, p.stateNodes[i]) || e in LeafEntries(env, p, p.stateNodes[i]));
    var n := p.stateNodes[i];
    InLeaf(env, p, n, e);
    m :| 0 <= m < |StorageUnder(p, n.path)| && e == StorageEntry(env, p, n, StorageUnder(p, n.path)[m]);
  }

  lemma StorageRowExists(db: Database, env: Env, p: ConvertedPayload, i: nat, m: nat)
    requires Effective(env, p)
    requires i < |p.stateNodes| && p.stateNodes[i].kind == Leaf && m < |StorageUnder(p, p.stateNodes[i].path)|
    ensures StorageKey(StateKeyOf(p, p.stateNodes[i]), StorageUnder(p, p.stateNodes[i].path)[m].path)
            in Published(db, env, p).rows
  {
    var n := p.stateNodes[i];
    var e := StorageEntry(env, p, n, StorageUnder(p, n.path)[m]);
    InLeaf(env, p, n, e);
    InStates(env, p, |p.stateNodes|, e);
    InBody(env, p, e);
    EntryLeavesRow(db, env, p, e);
  }
}
