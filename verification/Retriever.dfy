/** The stored route: CIDs selected from the index tables for one header. Joins are on serial ids, as
    in the queries, and are shown to follow the parent keys. */
module Retriever {
  import opened Common
  import opened Schema
  import opened Payloads
  import opened SqlText
  import opened ReceiptQuery
  import opened LiveFilter

  /** Rows selected for one header. */
  datatype CIDWrapper = CIDWrapper(
    number: nat, header: Option<RowKey>, uncles: set<RowKey>,
    txs: set<RowKey>, receipts: set<RowKey>, states: set<RowKey>, storages: set<RowKey>)

  /** The header_id, tx_id or state_id column. */
  function ForeignId(db: Database, k: RowKey): int
    requires k in db.rows
  {
    if Parent(k).Some? && Parent(k).value in db.rows then db.rows[Parent(k).value].id else -1
  }

  /** INNER JOIN with header_cids and `header_cids.id = $1`. */
  predicate JoinsHeader(db: Database, k: RowKey, headerId: int)
    requires k in db.rows
  {
    exists h :: h in db.rows && h.HeaderKey? && ForeignId(db, k) == db.rows[h].id && db.rows[h].id == headerId
  }

  lemma JoinById(db: Database, k: RowKey, h: RowKey)
    requires RefClosed(db.rows) && IdsUnique(db) && k in db.rows && h in db.rows
    requires Parent(k).Some?
    ensures ForeignId(db, k) == db.rows[h].id <==> Parent(k) == Some(h)
    ensures h.HeaderKey? ==> (JoinsHeader(db, k, db.rows[h].id) <==> Parent(k) == Some(h))
  {
  }

  // ----- transactions -----

  predicate TxWanted(f: TxFilter, src: string, dst: string) {
    (f.dst == [] || dst in f.dst) && (f.src == [] || src in f.src)
  }

  predicate TxRow(db: Database, f: TxFilter, h: RowKey, k: RowKey) {
    && k in db.rows && k.TxKey? && k.header == h
    && db.rows[k].cols.TxCols? && TxWanted(f, db.rows[k].cols.src, db.rows[k].cols.dst)
  }

  /** The rows of a table joined with the header: `INNER JOIN header_cids ON (header_id = header_cids.id)
      WHERE header_cids.id = ...`. */
  method RowsUnder(db: Database, t: Table, h: RowKey) returns (rows: set<RowKey>)
    requires RefClosed(db.rows) && IdsUnique(db) && h in db.rows && h.HeaderKey? && (t == Transactions || t == States)
    ensures forall k :: k in rows <==> k in db.rows && TableOf(k) == t && Parent(k) == Some(h)
  {
    var headerId := db.rows[h].id;
    rows := set k | k in db.rows && TableOf(k) == t && JoinsHeader(db, k, headerId);
    forall k | k in db.rows && TableOf(k) == t
      ensures JoinsHeader(db, k, headerId) <==> Parent(k) == Some(h)
    {
      JoinById(db, k, h);
    }
  }

  method RetrieveTxCIDs(db: Database, f: TxFilter, h: RowKey) returns (txs: set<RowKey>)
    requires RefClosed(db.rows) && Typed(db.rows) && IdsUnique(db) && h in db.rows && h.HeaderKey?
    ensures txs == set k | k in db.rows && TxRow(db, f, h, k)
  {
    var all := RowsUnder(db, Transactions, h);
    forall k | k in all ensures db.rows[k].cols.TxCols? { assert Fits(TableOf(k), db.rows[k].cols); }
    txs := all;
    if |f.dst| > 0 {
      txs := set k | k in txs && db.rows[k].cols.dst in f.dst;
    }
    if |f.src| > 0 {
      txs := set k | k in txs && db.rows[k].cols.src in f.src;
    }
    assert forall k :: k in txs <==> k in all && TxWanted(f, db.rows[k].cols.src, db.rows[k].cols.dst);
  }

  // ----- receipts -----

  function JoinedRow(db: Database, k: RowKey, t: RowKey, h: RowKey): Joined
    requires k in db.rows && t in db.rows && h in db.rows
    requires db.rows[k].cols.ReceiptCols? && h.HeaderKey?
  {
    var r := db.rows[k].cols;
    Joined(ForeignId(db, k), r.logContracts, r.topics, db.rows[t].id, ForeignId(db, t), db.rows[h].id, h.number, h.hash)
  }

  /** The database runs a receipt query: some transaction and header row complete the join. */
  predicate Runs(db: Database, text: seq<Token<Condition>>, args: seq<Arg>, k: RowKey) {
    && k in db.rows && k.ReceiptKey? && db.rows[k].cols.ReceiptCols?
    && exists t, h :: t in db.rows && t.TxKey? && h in db.rows && h.HeaderKey?
                   && Selects(text, args, JoinedRow(db, k, t, h))
  }

  predicate ReceiptRowOf(db: Database, h: RowKey, k: RowKey) {
    k in db.rows && k.ReceiptKey? && k.tx.TxKey? && k.tx in db.rows && k.tx.header == h && db.rows[k].cols.ReceiptCols?
  }

  /** The row the query must decide on: the receipt with its own transaction and header. */
  function OwnRow(db: Database, h: RowKey, k: RowKey): Joined
    requires ReceiptRowOf(db, h, k) && h in db.rows && h.HeaderKey?
  {
    JoinedRow(db, k, k.tx, h)
  }

  /** The receipt queries select, under one header, exactly what the filter wants. */
  lemma HeaderQuerySelects(db: Database, f: ReceiptFilter, h: RowKey, trxIds: seq<int>,
                           text: seq<Token<Condition>>, args: seq<Arg>, k: RowKey)
    requires RefClosed(db.rows) && IdsUnique(db) && h in db.rows && h.HeaderKey?
    requires Parse(text).Some?
    requires forall j :: Selects(text, args, j) <==>
               && j.rctTxId == j.txId && j.txHeaderId == j.headerId && j.headerId == db.rows[h].id
               && FilterWants(f, trxIds, j)
    ensures Runs(db, text, args, k) <==> ReceiptRowOf(db, h, k) && FilterWants(f, trxIds, OwnRow(db, h, k))
  {
    if Runs(db, text, args, k) {
      var t, g :| t in db.rows && t.TxKey? && g in db.rows && g.HeaderKey?
        && Selects(text, args, JoinedRow(db, k, t, g));
      JoinById(db, k, t);
      JoinById(db, t, g);
      assert g == h && t == k.tx;
    }
    if ReceiptRowOf(db, h, k) && FilterWants(f, trxIds, OwnRow(db, h, k)) {
      assert Selects(text, args, JoinedRow(db, k, k.tx, h));
    }
  }

  /** The ids of the selected transactions, in some order. */
  ghost predicate IdsOf(db: Database, txs: set<RowKey>, ids: seq<int>) {
    && (forall k :: k in txs ==> k in db.rows && db.rows[k].id in ids)
    && (forall i :: 0 <= i < |ids| ==> exists k :: k in txs && k in db.rows && db.rows[k].id == ids[i])
  }

  method CollectIds(db: Database, txs: set<RowKey>) returns (ids: seq<int>)
    requires forall k :: k in txs ==> k in db.rows
    ensures IdsOf(db, txs, ids)
    ensures ids == [] <==> txs == {}
  {
    ids := [];
    var left := txs;
    while left != {}
      invariant left <= txs && (ids == [] <==> left == txs)
      invariant IdsOf(db, txs - left, ids)
      decreases left
    {
      var k :| k in left;
      left := left - {k};
      ghost var before := ids;
      ids := ids + [db.rows[k].id];
      assert ids[|before|] == db.rows[k].id;
      assert forall l :: l in txs - left ==> l == k || db.rows[l].id in before;
    }
    assert txs - left == txs;
  }

  // ----- state and storage -----

  /** `leaf key = ANY(keys)` with the keys of the wanted addresses. */
  predicate KeyWanted(env: Env, addresses: seq<string>, stored: string) {
    addresses == [] || exists i :: 0 <= i < |addresses| && env.hex(env.addressHash(addresses[i])) == stored
  }

  predicate StateRow(env: Env, db: Database, f: StateFilter, h: RowKey, k: RowKey) {
    && k in db.rows && k.StateKey? && k.header == h
    && db.rows[k].cols.StateCols?
    && KeyWanted(env, f.addresses, db.rows[k].cols.leafKey)
    && (f.intermediateNodes || db.rows[k].cols.nodeType == 2)
  }

  predicate StorageRow(env: Env, db: Database, f: StorageFilter, h: RowKey, k: RowKey) {
    && k in db.rows && k.StorageKey? && k.state.StateKey? && k.state in db.rows && k.state.header == h
    && db.rows[k].cols.StorageCols? && db.rows[k.state].cols.StateCols?
    && KeyWanted(env, f.addresses, db.rows[k.state].cols.leafKey)
    && (f.storageKeys == [] || db.rows[k].cols.leafKey in f.storageKeys)
    && (f.intermediateNodes || db.rows[k].cols.nodeType == 2)
  }

  method RetrieveStateCIDs(env: Env, db: Database, f: StateFilter, h: RowKey) returns (states: set<RowKey>)
    requires RefClosed(db.rows) && Typed(db.rows) && IdsUnique(db) && h in db.rows && h.HeaderKey?
    ensures states == set k | k in db.rows && StateRow(env, db, f, h, k)
  {
    var all := RowsUnder(db, States, h);
    forall k | k in all ensures db.rows[k].cols.StateCols? { assert Fits(TableOf(k), db.rows[k].cols); }
    states := FilterStates(env, db, f, all);
  }

  /** The conditions the filter adds to the query. */
  method FilterStates(env: Env, db: Database, f: StateFilter, all: set<RowKey>) returns (states: set<RowKey>)
    requires forall k :: k in all ==> k in db.rows && db.rows[k].cols.StateCols?
    ensures states == set k | k in all && KeyWanted(env, f.addresses, db.rows[k].cols.leafKey)
                              && (f.intermediateNodes || db.rows[k].cols.nodeType == 2)
  {
    states := all;
    if |f.addresses| > 0 {
      states := set k | k in states && KeyWanted(env, f.addresses, db.rows[k].cols.leafKey);
    }
    if !f.intermediateNodes {
      states := set k | k in states && db.rows[k].cols.nodeType == 2;
    }
  }

  /** The three-table join of the storage query. */
  predicate JoinsThroughState(db: Database, k: RowKey, headerId: int)
    requires k in db.rows
  {
    exists s :: s in db.rows && s.StateKey? && ForeignId(db, k) == db.rows[s].id && JoinsHeader(db, s, headerId)
  }

  /** storage_cids joined with state_cids and header_cids. */
  method StorageRowsOf(db: Database, h: RowKey) returns (storages: set<RowKey>)
    requires RefClosed(db.rows) && IdsUnique(db) && h in db.rows && h.HeaderKey?
    ensures forall k :: k in storages <==>
              k in db.rows && k.StorageKey? && k.state.StateKey? && k.state in db.rows && k.state.header == h
  {
    var headerId := db.rows[h].id;
    storages := set k | k in db.rows && k.StorageKey? && JoinsThroughState(db, k, headerId);
    forall k | k in db.rows && k.StorageKey?
      ensures JoinsThroughState(db, k, headerId) <==> k.state.StateKey? && k.state in db.rows && k.state.header == h
    {
      StorageJoin(db, k, h);
    }
  }

  method RetrieveStorageCIDs(env: Env, db: Database, f: StorageFilter, h: RowKey) returns (storages: set<RowKey>)
    requires RefClosed(db.rows) && Typed(db.rows) && IdsUnique(db) && h in db.rows && h.HeaderKey?
    ensures storages == set k | k in db.rows && StorageRow(env, db, f, h, k)
  {
    var all := StorageRowsOf(db, h);
    forall k | k in all ensures db.rows[k].cols.StorageCols? && db.rows[k.state].cols.StateCols? {
      assert Fits(TableOf(k), db.rows[k].cols) && Fits(TableOf(k.state), db.rows[k.state].cols);
    }
    storages := FilterStorages(env, db, f, all);
  }

  method FilterStorages(env: Env, db: Database, f: StorageFilter, all: set<RowKey>) returns (storages: set<RowKey>)
    requires forall k :: k in all ==> k in db.rows && k.StorageKey? && k.state in db.rows
                                      && db.rows[k].cols.StorageCols? && db.rows[k.state].cols.StateCols?
    ensures storages == set k | k in all && KeyWanted(env, f.addresses, db.rows[k.state].cols.leafKey)
                                && (f.storageKeys == [] || db.rows[k].cols.leafKey in f.storageKeys)
                                && (f.intermediateNodes || db.rows[k].cols.nodeType == 2)
  {
    storages := all;
    if |f.addresses| > 0 {
      storages := set k | k in storages && KeyWanted(env, f.addresses, db.rows[k.state].cols.leafKey);
    }
    if |f.storageKeys| > 0 {
      storages := set k | k in storages && db.rows[k].cols.leafKey in f.storageKeys;
    }
    if !f.intermediateNodes {
      storages := set k | k in storages && db.rows[k].cols.nodeType == 2;
    }
  }

  lemma StorageJoin(db: Database, k: RowKey, h: RowKey)
    requires RefClosed(db.rows) && IdsUnique(db) && k in db.rows && k.StorageKey? && h in db.rows && h.HeaderKey?
    ensures JoinsThroughState(db, k, db.rows[h].id) <==> k.state.StateKey? && k.state in db.rows && k.state.header == h
  {
    assert Parent(k) == Some(k.state) && k.state in db.rows;
    JoinById(db, k, k.state);
    JoinById(db, k.state, h);
    if JoinsThroughState(db, k, db.rows[h].id) {
      var s :| s in db.rows && s.StateKey? && ForeignId(db, k) == db.rows[s].id && JoinsHeader(db, s, db.rows[h].id);
      JoinById(db, k, s);
    }
  }

  // ----- the whole retrieval -----

  /** A receipt row the filter wants when `txs` are the transactions already selected. */
  ghost predicate ReceiptRow(db: Database, f: ReceiptFilter, h: RowKey, txs: set<RowKey>, k: RowKey) {
    && ReceiptRowOf(db, h, k)
    && var r := db.rows[k].cols;
       var byTx := f.matchTxs && txs != {};
       if f.logAddresses == [] && NoneAsked(f.topics) then byTx ==> k.tx in txs
       else
         || (byTx && k.tx in txs)
         || ((f.logAddresses == [] || Overlaps(r.logContracts, f.logAddresses)) &&
             forall i :: Asked(f.topics, i) ==> i < |r.topics| && Overlaps(r.topics[i], f.topics[i]))
  }

  lemma WantsByRow(db: Database, f: ReceiptFilter, h: RowKey, txs: set<RowKey>, ids: seq<int>, k: RowKey)
    requires RefClosed(db.rows) && IdsUnique(db) && IdsOf(db, txs, ids) && (ids == [] <==> txs == {})
    requires ReceiptRowOf(db, h, k) && h in db.rows && h.HeaderKey?
    ensures FilterWants(f, ids, OwnRow(db, h, k)) <==> ReceiptRow(db, f, h, txs, k)
  {
    var j := OwnRow(db, h, k);
    assert j.rctTxId == db.rows[k.tx].id;
    assert j.rctTxId in ids <==> k.tx in txs;
    assert TopicsWanted(f.topics, j) <==>
      forall i :: Asked(f.topics, i) ==>
        i < |db.rows[k].cols.topics| && Overlaps(db.rows[k].cols.topics[i], f.topics[i]);
  }

  method RetrieveReceiptCIDs(db: Database, f: ReceiptFilter, h: RowKey, txs: set<RowKey>)
    returns (ok: bool, receipts: set<RowKey>)
    requires RefClosed(db.rows) && IdsUnique(db) && h in db.rows && h.HeaderKey?
    requires forall k :: k in txs ==> k in db.rows
    ensures ok <==> !OnlyLateTopics(f.topics)
    ensures ok ==> receipts == set k | k in db.rows && ReceiptRow(db, f, h, txs, k)
  {
    var trxIds := CollectIds(db, txs);
    var text, args := BuildByHeaderId(f, db.rows[h].id, trxIds);
    ok := Parse(text).Some?;
    receipts := set k | k in db.rows && Runs(db, text, args, k);
    if ok {
      forall k | k in db.rows ensures Runs(db, text, args, k) <==> ReceiptRow(db, f, h, txs, k) {
        HeaderQuerySelects(db, f, h, trxIds, text, args, k);
        if ReceiptRowOf(db, h, k) { WantsByRow(db, f, h, txs, trxIds, k); }
      }
    }
  }

  ghost function StoredTxs(db: Database, f: TxFilter, h: RowKey): set<RowKey> {
    if f.off then {} else set k | k in db.rows && TxRow(db, f, h, k)
  }

  ghost function StoredReceipts(db: Database, s: Settings, h: RowKey): set<RowKey> {
    if s.receiptFilter.off then {}
    else set k | k in db.rows && ReceiptRow(db, s.receiptFilter, h, StoredTxs(db, s.txFilter, h), k)
  }

  ghost function StoredStates(env: Env, db: Database, f: StateFilter, h: RowKey): set<RowKey> {
    if f.off then {} else set k | k in db.rows && StateRow(env, db, f, h, k)
  }

  ghost function StoredStorages(env: Env, db: Database, f: StorageFilter, h: RowKey): set<RowKey> {
    if f.off then {} else set k | k in db.rows && StorageRow(env, db, f, h, k)
  }

  ghost function StoredUncles(db: Database, h: RowKey): set<RowKey> {
    set k | k in db.rows && k.UncleKey? && k.header == h
  }

  ghost function Wrapper(env: Env, db: Database, s: Settings, h: RowKey): CIDWrapper
    requires h.HeaderKey?
  {
    CIDWrapper(
      h.number,
      if s.headerFilter.off then None else Some(h),
      if !s.headerFilter.off && s.headerFilter.uncles then StoredUncles(db, h) else {},
      StoredTxs(db, s.txFilter, h),
      StoredReceipts(db, s, h),
      StoredStates(env, db, s.stateFilter, h),
      StoredStorages(env, db, s.storageFilter, h))
  }

  /** The query text for receipts is not SQL. */
  predicate BadReceiptQuery(s: Settings) {
    !s.receiptFilter.off && OnlyLateTopics(s.receiptFilter.topics)
  }

  /** What Retrieve hands out for a height: an error, or a wrapper for each header there. */
  ghost function Answer(env: Env, db: Database, s: Settings, number: nat): Option<map<RowKey, CIDWrapper>> {
    if BadReceiptQuery(s) && (exists h :: h in db.rows && h.HeaderKey? && h.number == number) then None
    else Some(map h | h in db.rows && h.HeaderKey? && h.number == number :: Wrapper(env, db, s, h))
  }

  predicate HasData(w: CIDWrapper) {
    w.header.Some? || w.txs != {} || w.receipts != {} || w.states != {} || w.storages != {}
  }

  /** The body of Retrieve's loop over the headers at a height. */
  method RetrieveForHeader(env: Env, db: Database, s: Settings, h: RowKey) returns (ok: bool, w: CIDWrapper)
    requires RefClosed(db.rows) && Typed(db.rows) && IdsUnique(db) && h in db.rows && h.HeaderKey?
    ensures ok <==> s.receiptFilter.off || !OnlyLateTopics(s.receiptFilter.topics)
    ensures ok ==> w == Wrapper(env, db, s, h)
  {
    w := CIDWrapper(h.number, None, {}, {}, {}, {}, {});
    ok := true;
    if !s.headerFilter.off {
      w := w.(header := Some(h));
      if s.headerFilter.uncles {
        forall k | k in db.rows && k.UncleKey? { JoinById(db, k, h); }
        w := w.(uncles := set k | k in db.rows && k.UncleKey? && ForeignId(db, k) == db.rows[h].id);
        assert w.uncles == StoredUncles(db, h);
      }
    }
    var txs := {};
    if !s.txFilter.off {
      txs := RetrieveTxCIDs(db, s.txFilter, h);
    }
    w := w.(txs := txs);
    if !s.receiptFilter.off {
      var receipts;
      ok, receipts := RetrieveReceiptCIDs(db, s.receiptFilter, h, txs);
      if !ok { return; }
      w := w.(receipts := receipts);
    }
    if !s.stateFilter.off {
      var states := RetrieveStateCIDs(env, db, s.stateFilter, h);
      w := w.(states := states);
    }
    if !s.storageFilter.off {
      var storages := RetrieveStorageCIDs(env, db, s.storageFilter, h);
      w := w.(storages := storages);
    }
  }

  /** Retrieve: every header at the height, in any order; `empty` reports that nothing was selected. */
  method Retrieve(env: Env, db: Database, s: Settings, number: nat)
    returns (ok: bool, cws: map<RowKey, CIDWrapper>, empty: bool)
    requires RefClosed(db.rows) && Typed(db.rows) && IdsUnique(db)
    ensures ok <==> Answer(env, db, s, number).Some?
    ensures ok ==> cws == Answer(env, db, s, number).value
    ensures ok ==> forall h :: h in cws <==> h in db.rows && h.HeaderKey? && h.number == number
    ensures ok ==> forall h :: h in cws ==>
              && cws[h].number == number && cws[h].header == (if s.headerFilter.off then None else Some(h))
              && forall k :: k in cws[h].uncles <==>
                   && !s.headerFilter.off && s.headerFilter.uncles
                   && k in db.rows && k.UncleKey? && k.header == h
    ensures ok ==>
              (!empty <==> exists h :: && h in db.rows && h.HeaderKey? && h.number == number
                                       && (|| !s.headerFilter.off
                                           || (exists k :: k in cws[h].txs) || (exists k :: k in cws[h].receipts)
                                           || (exists k :: k in cws[h].states) || (exists k :: k in cws[h].storages)))
  {
    var left := set h | h in db.rows && h.HeaderKey? && h.number == number;
    ghost var headers := left;
    ok, cws, empty := true, map[], true;
    while left != {}
      invariant ok && left <= headers
      invariant left != headers ==> !BadReceiptQuery(s)
      invariant forall h :: h in cws <==> h in headers && h !in left
      invariant forall h :: h in cws ==> cws[h] == Wrapper(env, db, s, h)
      invariant empty <==> forall h :: h in cws ==> !HasData(cws[h])
      decreases left
    {
      var h :| h in left;
      left := left - {h};
      var w;
      ok, w := RetrieveForHeader(env, db, s, h);
      if !ok {
        assert h in db.rows && h.HeaderKey? && h.number == number;
        empty := true;
        return;
      }
      ghost var before := cws;
      cws := cws[h := w];
      if HasData(w) {
        empty := false;
        assert h in cws && HasData(cws[h]);
      }
      assert forall g :: g in cws ==> g == h || (g in before && cws[g] == before[g]);
      assert forall g :: g in before ==> g in cws && cws[g] == before[g];
    }
    AnswerIs(env, db, s, number, cws);
    forall h | h in cws { WrapperIs(env, db, s, h); }
  }

  lemma WrapperIs(env: Env, db: Database, s: Settings, h: RowKey)
    requires h.HeaderKey?
    ensures var w := Wrapper(env, db, s, h);
            && w.number == h.number && w.header == (if s.headerFilter.off then None else Some(h))
            && (forall k :: k in w.uncles <==>
                  && !s.headerFilter.off && s.headerFilter.uncles
                  && k in db.rows && k.UncleKey? && k.header == h)
            && (HasData(w) <==>
                || !s.headerFilter.off || (exists k :: k in w.txs) || (exists k :: k in w.receipts)
                || (exists k :: k in w.states) || (exists k :: k in w.storages))
  {
  }

  lemma AnswerIs(env: Env, db: Database, s: Settings, number: nat, cws: map<RowKey, CIDWrapper>)
    requires forall h :: h in cws <==> h in db.rows && h.HeaderKey? && h.number == number
    requires forall h :: h in cws ==> cws[h] == Wrapper(env, db, s, h)
    requires cws != map[] ==> !BadReceiptQuery(s)
    ensures Answer(env, db, s, number) == Some(cws)
  {
    if exists h :: h in db.rows && h.HeaderKey? && h.number == number {
      var h :| h in db.rows && h.HeaderKey? && h.number == number;
      assert h in cws;
    }
    var all := map h | h in db.rows && h.HeaderKey? && h.number == number :: Wrapper(env, db, s, h);
    assert all.Keys == cws.Keys;
    assert all == cws;
  }
}
