/** Two routes to the same data: what SQL selects of a published block, against what the live filter keeps. */
module Routes {
  import opened Common
  import opened Schema
  import opened Payloads
  import opened Store
  import opened StoreRuns
  import opened Reindex
  import opened Indexed
  import opened ReceiptQuery
  import opened LiveFilter
  import opened Retriever

  /** Hashes are 32 bytes; their hex strings determine them and are not empty; the empty string reads as
      the null hash. */
  ghost predicate HexLaws(env: Env) {
    && (forall b :: |b| == 32 ==> env.unhex(env.hex(b)) == b && env.hex(b) != "")
    && (forall s :: |env.unhex(s)| == 32)
    && (forall a :: |env.addressHash(a)| == 32)
    && env.unhex("") == NULL_HASH
  }

  /** Leaf keys are hashes. */
  ghost predicate HashKeys(p: ConvertedPayload) {
    && (forall i :: 0 <= i < |p.stateNodes| ==> |p.stateNodes[i].leafKey| == 32)
    && (forall path, j :: path in p.storageNodes && 0 <= j < |p.storageNodes[path]| ==>
          |p.storageNodes[path][j].leafKey| == 32)
  }

  /** A converted block, published into a store where nothing foreign hangs from its header. */
  ghost predicate Situation(db: Database, env: Env, p: ConvertedPayload) {
    && Effective(env, p) && OnlyOwn(db, env, p)
    && Distinct(p) && Paired(p) && FourTopics(p) && HashKeys(p) && HexLaws(env)
  }

  // ----- transactions -----

  /** The live route keeps the transaction. */
  predicate TxLive(f: TxFilter, tx: Tx) { !f.off && CheckTransactionAddrs(f, tx.src, tx.dst) }

  /** The query selects it. */
  predicate TxStored(f: TxFilter, tx: Tx) { !f.off && TxWanted(f, tx.src, tx.dst) }

  lemma TxRoutes(db: Database, env: Env, f: TxFilter, p: ConvertedPayload, i: nat)
    requires Situation(db, env, p) && i < |p.txs|
    ensures TxKey(HeaderOf(p), p.txs[i].hash) in StoredTxs(Published(db, env, p), f, HeaderOf(p))
       <==> TxStored(f, p.txs[i])
    ensures p.txs[i] in LiveTxs(f, p) <==> TxLive(f, p.txs[i])
  {
    TxRows(db, env, p, TxKey(HeaderOf(p), p.txs[i].hash));
    if !f.off {
      SelectMembers(p.txs, (tx: Tx) => CheckTransactionAddrs(f, tx.src, tx.dst), p.txs[i]);
    }
  }

  /** Filter by filter, the routes agree on every transaction exactly when sources and destinations
      are not both given: the live route takes either, the query both. */
  lemma TxFiltersAgree(f: TxFilter)
    ensures (forall src, dst :: CheckTransactionAddrs(f, src, dst) <==> TxWanted(f, src, dst))
       <==> f.src == [] || f.dst == []
  {
    if f.src != [] && f.dst != [] {
      var dst := Unlisted(f.dst);
      assert CheckTransactionAddrs(f, f.src[0], dst) && !TxWanted(f, f.src[0], dst);
    }
  }

  /** A string that is not in the list. */
  function Unlisted(ss: seq<string>): (s: string)
    ensures s !in ss
  {
    LongerThanAll(ss);
    seq(Total(ss) + 1, _ => '0')
  }

  function Total(ss: seq<string>): nat {
    if ss == [] then 0 else |ss[0]| + Total(ss[1..])
  }

  lemma LongerThanAll(ss: seq<string>)
    ensures forall s :: s in ss ==> |s| <= Total(ss)
  {
    if ss != [] {
      LongerThanAll(ss[1..]);
      assert forall s :: s in ss ==> s == ss[0] || s in ss[1..];
    }
  }

  // ----- receipts -----

  lemma LiveHashes(f: TxFilter, p: ConvertedPayload, i: nat)
    requires Distinct(p) && i < |p.txs|
    ensures p.txs[i].hash in TxHashes(LiveTxs(f, p)) <==> TxLive(f, p.txs[i])
  {
    var txs := LiveTxs(f, p);
    if !f.off {
      SelectMembers(p.txs, (tx: Tx) => CheckTransactionAddrs(f, tx.src, tx.dst), p.txs[i]);
    }
    if p.txs[i] in txs {
      var j :| 0 <= j < |txs| && txs[j] == p.txs[i];
      assert TxHashes(txs)[j] == p.txs[i].hash;
    }
    if p.txs[i].hash in TxHashes(txs) {
      var j :| 0 <= j < |txs| && TxHashes(txs)[j] == p.txs[i].hash;
      SelectMembers(p.txs, (tx: Tx) => CheckTransactionAddrs(f, tx.src, tx.dst), txs[j]);
      var n :| 0 <= n < |p.txs| && p.txs[n] == txs[j];
      assert n == i;
    }
  }

  /** Nothing stored as a transaction under the header is outside the payload. */
  lemma StoredTxsFromPayload(db: Database, env: Env, f: TxFilter, p: ConvertedPayload, k: RowKey) returns (i: nat)
    requires Situation(db, env, p) && k in StoredTxs(Published(db, env, p), f, HeaderOf(p))
    ensures i < |p.txs| && k == TxKey(HeaderOf(p), p.txs[i].hash)
  {
    TxRows(db, env, p, k);
    i :| 0 <= i < |p.txs| && p.txs[i].hash == k.hash;
  }

  predicate SomeTxStored(f: TxFilter, p: ConvertedPayload) {
    exists j :: 0 <= j < |p.txs| && TxStored(f, p.txs[j])
  }

  lemma SomeStored(db: Database, env: Env, f: TxFilter, p: ConvertedPayload)
    requires Situation(db, env, p)
    ensures StoredTxs(Published(db, env, p), f, HeaderOf(p)) != {} <==> SomeTxStored(f, p)
  {
    var stored := StoredTxs(Published(db, env, p), f, HeaderOf(p));
    if stored != {} {
      var k :| k in stored;
      var i := StoredTxsFromPayload(db, env, f, p, k);
      TxRoutes(db, env, f, p, i);
    }
    if SomeTxStored(f, p) {
      var j :| 0 <= j < |p.txs| && TxStored(f, p.txs[j]);
      TxRoutes(db, env, f, p, j);
    }
  }

  /** No address and no topic is asked for. */
  predicate Unfiltered(f: ReceiptFilter) { f.logAddresses == [] && NoneAsked(f.topics) }

  /** The receipt has a wanted log address, if any is given, and wanted topics. */
  predicate TestsMet(f: ReceiptFilter, r: Receipt)
    requires |r.topics| == 4
  {
    (f.logAddresses == [] || Share(f.logAddresses, r.logContracts)) && TopicsMatch(f.topics, r.topics)
  }

  /** The live route keeps receipt i. */
  predicate ReceiptLive(s: Settings, p: ConvertedPayload, i: nat)
    requires i < |p.txs| && Paired(p) && FourTopics(p)
  {
    && !s.receiptFilter.off
    && (|| Unfiltered(s.receiptFilter) || TestsMet(s.receiptFilter, p.receipts[i])
        || (s.receiptFilter.matchTxs && TxLive(s.txFilter, p.txs[i])))
  }

  /** The query selects it. */
  predicate ReceiptStored(s: Settings, p: ConvertedPayload, i: nat)
    requires i < |p.txs| && Paired(p) && FourTopics(p)
  {
    && !s.receiptFilter.off
    && if Unfiltered(s.receiptFilter) then
         s.receiptFilter.matchTxs && SomeTxStored(s.txFilter, p) ==> TxStored(s.txFilter, p.txs[i])
       else
         TestsMet(s.receiptFilter, p.receipts[i]) || (s.receiptFilter.matchTxs && TxStored(s.txFilter, p.txs[i]))
  }

  lemma ShareSwaps(a: seq<string>, b: seq<string>)
    ensures Share(a, b) <==> Share(b, a)
  {
  }

  /** The columns of a receipt row pass the query's tests exactly when the metadata passes the filter's. */
  lemma TestsOnColumns(f: ReceiptFilter, p: ConvertedPayload, i: nat)
    requires i < |p.txs| && i < |p.receipts| && |p.receipts[i].topics| == 4
    ensures var r := ReceiptEntry(p, i).cols;
            TestsMet(f, p.receipts[i]) <==>
            && (f.logAddresses == [] || Overlaps(r.logContracts, f.logAddresses))
            && forall n :: Asked(f.topics, n) ==> n < |r.topics| && Overlaps(r.topics[n], f.topics[n])
  {
    var r := ReceiptEntry(p, i).cols;
    ShareSwaps(f.logAddresses, p.receipts[i].logContracts);
    forall n | 0 <= n < 4 && n < |f.topics|
      ensures Overlaps(r.topics[n], f.topics[n]) <==> Share(p.receipts[i].topics[n], f.topics[n])
    {
    }
  }

  lemma ReceiptLiveIs(s: Settings, p: ConvertedPayload, i: nat)
    requires Distinct(p) && Paired(p) && FourTopics(p) && i < |p.txs|
    ensures p.receipts[i] in LiveReceipts(s.receiptFilter, p, WantedTrxs(s, p)) <==> ReceiptLive(s, p, i)
  {
    var f, trxs := s.receiptFilter, WantedTrxs(s, p);
    LiveHashes(s.txFilter, p, i);
    if !f.off {
      SelectMembers(p.receipts, (r: Receipt) => |r.topics| == 4 && CheckReceipts(f, r, trxs), p.receipts[i]);
      assert NoneAsked(f.topics) ==> TopicsMatch(f.topics, p.receipts[i].topics);
    }
  }

  lemma ReceiptStoredIs(db: Database, env: Env, s: Settings, p: ConvertedPayload, i: nat)
    requires Situation(db, env, p) && i < |p.txs|
    ensures ReceiptKey(TxKey(HeaderOf(p), p.txs[i].hash)) in StoredReceipts(Published(db, env, p), s, HeaderOf(p))
       <==> ReceiptStored(s, p, i)
  {
    var k := ReceiptKey(TxKey(HeaderOf(p), p.txs[i].hash));
    ReceiptRows(db, env, p, k);
    TxRows(db, env, p, k.tx);
    TxRoutes(db, env, s.txFilter, p, i);
    SomeStored(db, env, s.txFilter, p);
    TestsOnColumns(s.receiptFilter, p, i);
  }

  // ----- state and storage -----

  /** A leaf key is among the wanted ones on both routes, or on neither, unless it is the null hash. */
  lemma LeafKeyRoutes(env: Env, addresses: seq<string>, leafKey: Bytes)
    requires HexLaws(env) && |leafKey| == 32
    ensures KeyWanted(env, addresses, StoredKey(env, leafKey)) <==>
            CheckNodeKeys(Hashes(env, addresses), leafKey) && (addresses == [] || leafKey != NULL_HASH)
  {
    var hashes := Hashes(env, addresses);
    assert leafKey == env.unhex(env.hex(leafKey)) && NULL_HASH == env.unhex(env.hex(NULL_HASH));
    if addresses != [] && KeyWanted(env, addresses, StoredKey(env, leafKey)) {
      var i :| 0 <= i < |addresses| && env.hex(env.addressHash(addresses[i])) == StoredKey(env, leafKey);
      assert env.unhex(env.hex(env.addressHash(addresses[i]))) == hashes[i];
    }
    if addresses != [] && leafKey != NULL_HASH && leafKey in hashes {
      var i :| 0 <= i < |hashes| && hashes[i] == leafKey;
      assert env.hex(env.addressHash(addresses[i])) == StoredKey(env, leafKey);
    }
  }

  /** A storage key written as the indexer writes it is read back as itself. */
  lemma StorageKeyRoutes(env: Env, keys: seq<string>, leafKey: Bytes)
    requires HexLaws(env) && |leafKey| == 32
    ensures keys == [] || StoredKey(env, leafKey) in keys ==> CheckNodeKeys(Keys(env, keys), leafKey)
  {
    assert leafKey == env.unhex(env.hex(leafKey)) && NULL_HASH == env.unhex(env.hex(NULL_HASH));
    if StoredKey(env, leafKey) in keys {
      var i :| 0 <= i < |keys| && keys[i] == StoredKey(env, leafKey);
      assert Keys(env, keys)[i] == leafKey;
    }
  }

  predicate StateStored(env: Env, f: StateFilter, n: TrieNode) {
    KeepsState(env, f, n) && (f.addresses == [] || !IsNull(n.leafKey))
  }

  lemma StateStoredIs(db: Database, env: Env, f: StateFilter, p: ConvertedPayload, i: nat)
    requires Situation(db, env, p) && i < |p.stateNodes|
    ensures StateKeyOf(p, p.stateNodes[i]) in StoredStates(env, Published(db, env, p), f, HeaderOf(p))
       <==> StateStored(env, f, p.stateNodes[i])
  {
    var n, after := p.stateNodes[i], Published(db, env, p);
    StateRows(db, env, p, StateKeyOf(p, n));
    assert after.rows[StateKeyOf(p, n)].cols == StateCols(StoredKey(env, n.leafKey), NodeTypeCode(n.kind));
    LeafKeyRoutes(env, f.addresses, n.leafKey);
  }

  lemma StateLiveIs(env: Env, f: StateFilter, p: ConvertedPayload, i: nat)
    requires i < |p.stateNodes|
    ensures p.stateNodes[i] in LiveStates(env, f, p) <==> KeepsState(env, f, p.stateNodes[i])
  {
    SelectMembers(p.stateNodes, n => KeepsState(env, f, n), p.stateNodes[i]);
  }

  lemma LiveStorage(env: Env, f: StorageFilter, p: ConvertedPayload, i: nat, m: nat)
    requires i < |p.stateNodes| && m < |StorageUnder(p, p.stateNodes[i].path)|
    ensures var n := p.stateNodes[i];
            var node := StorageUnder(p, n.path)[m];
            StorageItem(n, node) in LiveStorages(env, f, p, |p.stateNodes|) <==> KeepsStorage(env, f, n, node)
  {
    var n := p.stateNodes[i];
    InLiveStorages(env, f, p, |p.stateNodes|, StorageItem(n, StorageUnder(p, n.path)[m]));
    assert StorageBelow(p, n)[m] == StorageItem(n, StorageUnder(p, n.path)[m]);
  }

  /** The row under a storage node's key is that node's own, and there is one below leaves only. */
  lemma OwnStorageRow(db: Database, env: Env, p: ConvertedPayload, i: nat, m: nat)
    requires Situation(db, env, p) && i < |p.stateNodes| && m < |StorageUnder(p, p.stateNodes[i].path)|
    ensures var n, after := p.stateNodes[i], Published(db, env, p);
            var node := StorageUnder(p, n.path)[m];
            var k := StorageKey(StateKeyOf(p, n), node.path);
            && (k in after.rows <==> n.kind == Leaf)
            && (k in after.rows ==> after.rows[k].cols == StorageEntry(env, p, n, node).cols)
  {
    var n := p.stateNodes[i];
    var k := StorageKey(StateKeyOf(p, n), StorageUnder(p, n.path)[m].path);
    if n.kind == Leaf { StorageRowExists(db, env, p, i, m); }
    if k in Published(db, env, p).rows {
      var i', m' := StorageRows(db, env, p, k);
      assert DistinctPaths(p.stateNodes);
      assert i' == i;
      assert n.path in p.storageNodes && DistinctPaths(p.storageNodes[n.path]);
      assert m' == m;
    }
  }

  /** The query selects storage node `node` below state node `n`. */
  predicate StorageStored(env: Env, f: StorageFilter, n: TrieNode, node: TrieNode) {
    && KeepsStorage(env, f, n, node)
    && n.kind == Leaf && (f.intermediateNodes || node.kind == Leaf)
    && (f.addresses == [] || !IsNull(n.leafKey))
    && (f.storageKeys == [] || StoredKey(env, node.leafKey) in f.storageKeys)
  }

  lemma StorageRoutes(db: Database, env: Env, f: StorageFilter, p: ConvertedPayload, i: nat, m: nat)
    requires Situation(db, env, p) && i < |p.stateNodes| && m < |StorageUnder(p, p.stateNodes[i].path)|
    ensures var n := p.stateNodes[i];
            var node := StorageUnder(p, n.path)[m];
            StorageKey(StateKeyOf(p, n), node.path) in StoredStorages(env, Published(db, env, p), f, HeaderOf(p))
            <==> StorageStored(env, f, n, node)
  {
    var n := p.stateNodes[i];
    var node := StorageUnder(p, n.path)[m];
    assert n.path in p.storageNodes && |p.storageNodes[n.path][m].leafKey| == 32;
    StateRows(db, env, p, StateKeyOf(p, n));
    LeafKeyRoutes(env, f.addresses, n.leafKey);
    StorageKeyRoutes(env, f.storageKeys, node.leafKey);
    OwnStorageRow(db, env, p, i, m);
  }

  // ----- the two routes -----

  ghost function HeadersWrapper(a: Option<map<RowKey, CIDWrapper>>, h: RowKey): Option<CIDWrapper> {
    if a.Some? && h in a.value then Some(a.value[h]) else None
  }

  /** What the stored route hands out for the block: an error, or the wrapper of its header. */
  ghost function Served(db: Database, env: Env, s: Settings, p: ConvertedPayload): Option<CIDWrapper> {
    HeadersWrapper(Answer(env, Published(db, env, p), s, p.number), HeaderOf(p))
  }

  lemma ServedIs(db: Database, env: Env, s: Settings, p: ConvertedPayload)
    requires Effective(env, p)
    ensures Served(db, env, s, p)
         == if BadReceiptQuery(s) then None else Some(Wrapper(env, Published(db, env, p), s, HeaderOf(p)))
  {
    KeysAfterPublish(db, env, p);
    var h := HeaderOf(p);
    assert h in Published(db, env, p).rows && h.HeaderKey? && h.number == p.number;
  }

  /** Everything the stored route hands out belongs to the block, and the live route keeps it too. */
  ghost predicate Within(w: CIDWrapper, live: IPLDs, p: ConvertedPayload) {
    && (forall k :: k in w.txs ==>
          exists i :: 0 <= i < |p.txs| && k == TxKey(HeaderOf(p), p.txs[i].hash) && p.txs[i] in live.txs)
    && (forall k :: k in w.receipts ==>
          exists i :: 0 <= i < |p.txs| && i < |p.receipts|
                      && k == ReceiptKey(TxKey(HeaderOf(p), p.txs[i].hash)) && p.receipts[i] in live.receipts)
    && (forall k :: k in w.states ==>
          exists i :: 0 <= i < |p.stateNodes| && k == StateKeyOf(p, p.stateNodes[i])
                      && p.stateNodes[i] in live.stateNodes)
    && (forall k :: k in w.storages ==>
          exists item :: item in live.storageNodes && k == StorageKey(StateKeyOf(p, item.state), item.node.path))
  }

  lemma StoredWithinLive(db: Database, env: Env, s: Settings, p: ConvertedPayload)
    requires Situation(db, env, p) && CheckRange(s.start, s.end, p.number)
    requires Served(db, env, s, p).Some?
    ensures Within(Served(db, env, s, p).value, LiveResponse(env, s, p), p)
  {
    ServedIs(db, env, s, p);
    var after, h, live := Published(db, env, p), HeaderOf(p), LiveResponse(env, s, p);
    var w := Wrapper(env, after, s, h);
    forall k | k in w.txs
      ensures exists i :: 0 <= i < |p.txs| && k == TxKey(h, p.txs[i].hash) && p.txs[i] in live.txs
    {
      var i := StoredTxsFromPayload(db, env, s.txFilter, p, k);
      TxRoutes(db, env, s.txFilter, p, i);
    }
    forall k | k in w.receipts
      ensures exists i :: 0 <= i < |p.txs| && i < |p.receipts|
                          && k == ReceiptKey(TxKey(h, p.txs[i].hash)) && p.receipts[i] in live.receipts
    {
      ReceiptRows(db, env, p, k);
      var i :| 0 <= i < |p.txs| && p.txs[i].hash == k.tx.hash;
      ReceiptStoredIs(db, env, s, p, i);
      ReceiptLiveIs(s, p, i);
    }
    forall k | k in w.states
      ensures exists i :: 0 <= i < |p.stateNodes| && k == StateKeyOf(p, p.stateNodes[i])
                          && p.stateNodes[i] in live.stateNodes
    {
      StateRows(db, env, p, k);
      var i :| 0 <= i < |p.stateNodes| && p.stateNodes[i].path == k.path;
      StateStoredIs(db, env, s.stateFilter, p, i);
      StateLiveIs(env, s.stateFilter, p, i);
    }
    forall k | k in w.storages
      ensures exists item :: item in live.storageNodes && k == StorageKey(StateKeyOf(p, item.state), item.node.path)
    {
      var item := StorageWithin(db, env, s.storageFilter, p, k);
    }
  }

  lemma StorageWithin(db: Database, env: Env, f: StorageFilter, p: ConvertedPayload,
                      k: RowKey)
    returns (item: StorageItem)
    requires Situation(db, env, p) && k in StoredStorages(env, Published(db, env, p), f, HeaderOf(p))
    ensures item in LiveStorages(env, f, p, |p.stateNodes|)
    ensures k == StorageKey(StateKeyOf(p, item.state), item.node.path)
  {
    var i, m := StorageRows(db, env, p, k);
    StorageRoutes(db, env, f, p, i, m);
    LiveStorage(env, f, p, i, m);
    item := StorageItem(p.stateNodes[i], StorageUnder(p, k.state.path)[m]);
  }

  // ----- exactly where they agree -----

  /** Both routes have the transaction, or neither has; and so on below. */
  ghost predicate SameTx(w: CIDWrapper, live: IPLDs, p: ConvertedPayload, i: nat)
    requires i < |p.txs|
  {
    TxKey(HeaderOf(p), p.txs[i].hash) in w.txs <==> p.txs[i] in live.txs
  }

  ghost predicate SameReceipt(w: CIDWrapper, live: IPLDs, p: ConvertedPayload, i: nat)
    requires i < |p.txs| && Paired(p)
  {
    ReceiptKey(TxKey(HeaderOf(p), p.txs[i].hash)) in w.receipts <==> p.receipts[i] in live.receipts
  }

  ghost predicate SameState(w: CIDWrapper, live: IPLDs, p: ConvertedPayload, i: nat)
    requires i < |p.stateNodes|
  {
    StateKeyOf(p, p.stateNodes[i]) in w.states <==> p.stateNodes[i] in live.stateNodes
  }

  ghost predicate SameStorage(w: CIDWrapper, live: IPLDs, p: ConvertedPayload, i: nat, m: nat)
    requires i < |p.stateNodes| && m < |StorageUnder(p, p.stateNodes[i].path)|
  {
    var n := p.stateNodes[i];
    var node := StorageUnder(p, n.path)[m];
    StorageKey(StateKeyOf(p, n), node.path) in w.storages <==> StorageItem(n, node) in live.storageNodes
  }

  /** Not both address lists are given, or the transaction is on both or on neither. */
  predicate TxAlike(s: Settings, tx: Tx) {
    || s.txFilter.off || s.txFilter.src == [] || s.txFilter.dst == []
    || (tx.src in s.txFilter.src <==> tx.dst in s.txFilter.dst)
  }

  /** Pairing with transactions makes no difference to the receipt. */
  predicate ReceiptAlike(s: Settings, p: ConvertedPayload, i: nat)
    requires i < |p.txs| && Paired(p) && FourTopics(p)
  {
    || s.receiptFilter.off || !s.receiptFilter.matchTxs
    || (if Unfiltered(s.receiptFilter) then SomeTxStored(s.txFilter, p) ==> TxStored(s.txFilter, p.txs[i])
        else TestsMet(s.receiptFilter, p.receipts[i]) || TxAlike(s, p.txs[i]))
  }

  /** The node is not looked up by the null hash. */
  predicate StateAlike(env: Env, f: StateFilter, n: TrieNode) {
    KeepsState(env, f, n) ==> f.addresses == [] || !IsNull(n.leafKey)
  }

  /** The node hangs below a state leaf and is a leaf, unless intermediate nodes are on; it is not looked
      up by the null hash; and its key, if keys are given, is spelled as the indexer spells it. */
  predicate StorageAlike(env: Env, f: StorageFilter, n: TrieNode, node: TrieNode) {
    KeepsStorage(env, f, n, node) ==>
      && n.kind == Leaf && (f.intermediateNodes || node.kind == Leaf)
      && (f.addresses == [] || !IsNull(n.leafKey))
      && (f.storageKeys == [] || StoredKey(env, node.leafKey) in f.storageKeys)
  }

  /** The block is in range and the stored route answers. */
  ghost predicate Both(db: Database, env: Env, s: Settings, p: ConvertedPayload) {
    Situation(db, env, p) && CheckRange(s.start, s.end, p.number) && Served(db, env, s, p).Some?
  }

  lemma TxDiffers(db: Database, env: Env, s: Settings, p: ConvertedPayload, i: nat)
    requires Both(db, env, s, p) && i < |p.txs|
    ensures SameTx(Served(db, env, s, p).value, LiveResponse(env, s, p), p, i) <==> TxAlike(s, p.txs[i])
  {
    ServedIs(db, env, s, p);
    TxRoutes(db, env, s.txFilter, p, i);
  }

  lemma ReceiptDiffers(db: Database, env: Env, s: Settings, p: ConvertedPayload, i: nat)
    requires Both(db, env, s, p) && i < |p.txs|
    ensures SameReceipt(Served(db, env, s, p).value, LiveResponse(env, s, p), p, i) <==> ReceiptAlike(s, p, i)
  {
    ServedIs(db, env, s, p);
    ReceiptStoredIs(db, env, s, p, i);
    ReceiptLiveIs(s, p, i);
    TxStoredWithinLive(s, p.txs[i]);
  }

  lemma TxStoredWithinLive(s: Settings, tx: Tx)
    ensures TxStored(s.txFilter, tx) ==> TxLive(s.txFilter, tx)
    ensures (TxLive(s.txFilter, tx) ==> TxStored(s.txFilter, tx)) <==> TxAlike(s, tx)
  {
  }

  lemma StateDiffers(db: Database, env: Env, s: Settings, p: ConvertedPayload, i: nat)
    requires Both(db, env, s, p) && i < |p.stateNodes|
    ensures SameState(Served(db, env, s, p).value, LiveResponse(env, s, p), p, i)
       <==> StateAlike(env, s.stateFilter, p.stateNodes[i])
  {
    ServedIs(db, env, s, p);
    StateStoredIs(db, env, s.stateFilter, p, i);
    StateLiveIs(env, s.stateFilter, p, i);
  }

  lemma StorageDiffers(db: Database, env: Env, s: Settings, p: ConvertedPayload, i: nat, m: nat)
    requires Both(db, env, s, p) && i < |p.stateNodes| && m < |StorageUnder(p, p.stateNodes[i].path)|
    ensures SameStorage(Served(db, env, s, p).value, LiveResponse(env, s, p), p, i, m)
       <==> StorageAlike(env, s.storageFilter, p.stateNodes[i], StorageUnder(p, p.stateNodes[i].path)[m])
  {
    ServedIs(db, env, s, p);
    StorageRoutes(db, env, s.storageFilter, p, i, m);
    LiveStorage(env, s.storageFilter, p, i, m);
  }

  ghost predicate SameTxs(w: CIDWrapper, live: IPLDs, p: ConvertedPayload) {
    forall i :: 0 <= i < |p.txs| ==> SameTx(w, live, p, i)
  }

  ghost predicate SameReceipts(w: CIDWrapper, live: IPLDs, p: ConvertedPayload)
    requires Paired(p)
  {
    forall i :: 0 <= i < |p.txs| ==> SameReceipt(w, live, p, i)
  }

  ghost predicate SameStates(w: CIDWrapper, live: IPLDs, p: ConvertedPayload) {
    forall i :: 0 <= i < |p.stateNodes| ==> SameState(w, live, p, i)
  }

  ghost predicate SameStorages(w: CIDWrapper, live: IPLDs, p: ConvertedPayload) {
    forall i, m :: 0 <= i < |p.stateNodes| && 0 <= m < |StorageUnder(p, p.stateNodes[i].path)| ==>
      SameStorage(w, live, p, i, m)
  }

  /** The same height, and the block's own header on both routes or on neither. */
  ghost predicate SameHeader(w: CIDWrapper, live: IPLDs, p: ConvertedPayload) {
    && Some(w.number as int) == live.blockNumber == Some(p.number)
    && (|| (w.header == Some(HeaderOf(p)) && live.header == Some(p.headerRaw))
        || (w.header == None && live.header == None))
  }

  /** The uncles of the stored route are those of the live one. */
  ghost predicate SameUncles(w: CIDWrapper, live: IPLDs, p: ConvertedPayload) {
    forall k :: k in w.uncles <==>
      exists i :: && 0 <= i < |p.uncles| && k == UncleKey(HeaderOf(p), p.uncles[i].hash)
                  && i < |live.uncles| && live.uncles[i] == p.uncles[i].raw
  }

  /** Both routes have the header exactly when headers are on, and the uncles when uncles are too. */
  lemma HeaderAndUnclesAgree(db: Database, env: Env, s: Settings, p: ConvertedPayload)
    requires Both(db, env, s, p)
    ensures var w, live := Served(db, env, s, p).value, LiveResponse(env, s, p);
            && SameHeader(w, live, p) && SameUncles(w, live, p)
            && (w.header.Some? <==> !s.headerFilter.off)
            && (s.headerFilter.off || !s.headerFilter.uncles ==> w.uncles == {} && live.uncles == [])
            && (!s.headerFilter.off && s.headerFilter.uncles ==>
                  && |live.uncles| == |p.uncles|
                  && forall i :: 0 <= i < |p.uncles| ==> UncleKey(HeaderOf(p), p.uncles[i].hash) in w.uncles)
  {
    ServedIs(db, env, s, p);
    StoredUnclesAre(db, env, p);
  }

  lemma StoredUnclesAre(db: Database, env: Env, p: ConvertedPayload)
    requires Effective(env, p) && OnlyOwn(db, env, p)
    ensures forall k :: k in StoredUncles(Published(db, env, p), HeaderOf(p)) <==>
              exists i :: 0 <= i < |p.uncles| && k == UncleKey(HeaderOf(p), p.uncles[i].hash)
    ensures forall i :: 0 <= i < |p.uncles| ==>
              UncleKey(HeaderOf(p), p.uncles[i].hash) in StoredUncles(Published(db, env, p), HeaderOf(p))
  {
    var h := HeaderOf(p);
    forall k: RowKey | k.UncleKey? && k.header == h
      ensures k in StoredUncles(Published(db, env, p), h) <==>
              exists i :: 0 <= i < |p.uncles| && k == UncleKey(h, p.uncles[i].hash)
    {
      UncleRows(db, env, p, k);
    }
  }

  /** The stored route answers, with the same header, uncles, transactions, receipts, state and storage nodes. */
  ghost predicate Agree(db: Database, env: Env, s: Settings, p: ConvertedPayload)
    requires Paired(p)
  {
    && Served(db, env, s, p).Some?
    && SameHeader(Served(db, env, s, p).value, LiveResponse(env, s, p), p)
    && SameUncles(Served(db, env, s, p).value, LiveResponse(env, s, p), p)
    && SameTxs(Served(db, env, s, p).value, LiveResponse(env, s, p), p)
    && SameReceipts(Served(db, env, s, p).value, LiveResponse(env, s, p), p)
    && SameStates(Served(db, env, s, p).value, LiveResponse(env, s, p), p)
    && SameStorages(Served(db, env, s, p).value, LiveResponse(env, s, p), p)
  }

  predicate TxsAlike(s: Settings, p: ConvertedPayload) {
    forall i :: 0 <= i < |p.txs| ==> TxAlike(s, p.txs[i])
  }

  predicate ReceiptsAlike(s: Settings, p: ConvertedPayload)
    requires Paired(p) && FourTopics(p)
  {
    forall i :: 0 <= i < |p.txs| ==> ReceiptAlike(s, p, i)
  }

  predicate StatesAlike(env: Env, s: Settings, p: ConvertedPayload) {
    forall i :: 0 <= i < |p.stateNodes| ==> StateAlike(env, s.stateFilter, p.stateNodes[i])
  }

  predicate StoragesAlike(env: Env, s: Settings, p: ConvertedPayload) {
    forall i, m :: 0 <= i < |p.stateNodes| && 0 <= m < |StorageUnder(p, p.stateNodes[i].path)| ==>
      StorageAlike(env, s.storageFilter, p.stateNodes[i], StorageUnder(p, p.stateNodes[i].path)[m])
  }

  /** What a caller can check of the filter and the block: no peculiarity of either route shows. */
  predicate Alike(env: Env, s: Settings, p: ConvertedPayload)
    requires Paired(p) && FourTopics(p)
  {
    && !BadReceiptQuery(s) && TxsAlike(s, p) && ReceiptsAlike(s, p)
    && StatesAlike(env, s, p) && StoragesAlike(env, s, p)
  }

  lemma TxsAgree(db: Database, env: Env, s: Settings, p: ConvertedPayload)
    requires Both(db, env, s, p)
    ensures SameTxs(Served(db, env, s, p).value, LiveResponse(env, s, p), p) <==> TxsAlike(s, p)
  {
    var w, live := Served(db, env, s, p).value, LiveResponse(env, s, p);
    forall i | 0 <= i < |p.txs| ensures SameTx(w, live, p, i) <==> TxAlike(s, p.txs[i]) {
      TxDiffers(db, env, s, p, i);
    }
  }

  lemma ReceiptsAgree(db: Database, env: Env, s: Settings, p: ConvertedPayload)
    requires Both(db, env, s, p)
    ensures SameReceipts(Served(db, env, s, p).value, LiveResponse(env, s, p), p) <==> ReceiptsAlike(s, p)
  {
    var w, live := Served(db, env, s, p).value, LiveResponse(env, s, p);
    forall i | 0 <= i < |p.txs| ensures SameReceipt(w, live, p, i) <==> ReceiptAlike(s, p, i) {
      ReceiptDiffers(db, env, s, p, i);
    }
  }

  lemma StatesAgree(db: Database, env: Env, s: Settings, p: ConvertedPayload)
    requires Both(db, env, s, p)
    ensures SameStates(Served(db, env, s, p).value, LiveResponse(env, s, p), p) <==> StatesAlike(env, s, p)
  {
    var w, live := Served(db, env, s, p).value, LiveResponse(env, s, p);
    forall i | 0 <= i < |p.stateNodes|
      ensures SameState(w, live, p, i) <==> StateAlike(env, s.stateFilter, p.stateNodes[i])
    {
      StateDiffers(db, env, s, p, i);
    }
  }

  lemma StoragesAgree(db: Database, env: Env, s: Settings, p: ConvertedPayload)
    requires Both(db, env, s, p)
    ensures SameStorages(Served(db, env, s, p).value, LiveResponse(env, s, p), p) <==> StoragesAlike(env, s, p)
  {
    var w, live := Served(db, env, s, p).value, LiveResponse(env, s, p);
    forall i, m | 0 <= i < |p.stateNodes| && 0 <= m < |StorageUnder(p, p.stateNodes[i].path)|
      ensures SameStorage(w, live, p, i, m)
         <==> StorageAlike(env, s.storageFilter, p.stateNodes[i], StorageUnder(p, p.stateNodes[i].path)[m])
    {
      StorageDiffers(db, env, s, p, i, m);
    }
  }

  /** For every filter and every block in range: the two routes agree exactly when that is so. */
  lemma RoutesAgree(db: Database, env: Env, s: Settings, p: ConvertedPayload)
    requires Situation(db, env, p) && CheckRange(s.start, s.end, p.number)
    ensures Agree(db, env, s, p) <==> Alike(env, s, p)
  {
    ServedIs(db, env, s, p);
    if !BadReceiptQuery(s) {
      HeaderAndUnclesAgree(db, env, s, p);
      TxsAgree(db, env, s, p);
      ReceiptsAgree(db, env, s, p);
      StatesAgree(db, env, s, p);
      StoragesAgree(db, env, s, p);
    }
  }

  /** Something was selected for the wrapper. */
  ghost predicate Anything(w: CIDWrapper) {
    || w.header.Some? || (exists k :: k in w.txs) || (exists k :: k in w.receipts)
    || (exists k :: k in w.states) || (exists k :: k in w.storages)
  }

  /** The live response has something to send beside uncles. */
  predicate Carries(live: IPLDs) {
    || live.header.Some? || live.txs != [] || live.receipts != []
    || live.stateNodes != [] || live.storageNodes != []
  }

  lemma WithinCarries(w: CIDWrapper, live: IPLDs, p: ConvertedPayload)
    requires Within(w, live, p) && SameHeader(w, live, p) && Anything(w)
    ensures Carries(live)
  {
    if k :| k in w.txs { assert live.txs != []; }
    if k :| k in w.receipts { assert live.receipts != []; }
    if k :| k in w.states { assert live.stateNodes != []; }
    if k :| k in w.storages { assert live.storageNodes != []; }
  }

  /** What the stored route does not report empty, the live route has something of too; and where the
      routes agree, a height with something to send is never reported empty. */
  lemma NothingHidden(db: Database, env: Env, s: Settings, p: ConvertedPayload)
    requires Both(db, env, s, p)
    ensures Anything(Served(db, env, s, p).value) ==> Carries(LiveResponse(env, s, p))
    ensures Alike(env, s, p) && Carries(LiveResponse(env, s, p)) ==> Anything(Served(db, env, s, p).value)
  {
    var w, live := Served(db, env, s, p).value, LiveResponse(env, s, p);
    HeaderAndUnclesAgree(db, env, s, p);
    StoredWithinLive(db, env, s, p);
    if Anything(w) { WithinCarries(w, live, p); }
    if Alike(env, s, p) && Carries(live) { NothingMissed(db, env, s, p); }
  }

  lemma NothingMissed(db: Database, env: Env, s: Settings, p: ConvertedPayload)
    requires Both(db, env, s, p) && Alike(env, s, p) && Carries(LiveResponse(env, s, p))
    ensures Anything(Served(db, env, s, p).value)
  {
    var live := LiveResponse(env, s, p);
    RoutesAgree(db, env, s, p);
    if !Anything(Served(db, env, s, p).value) {
      if live.txs != [] { LiveTxStored(db, env, s, p, live.txs[0]); }
      if live.receipts != [] { LiveReceiptStored(db, env, s, p, live.receipts[0]); }
      if live.stateNodes != [] { LiveStateStored(db, env, s, p, live.stateNodes[0]); }
      if live.storageNodes != [] { LiveStorageStored(db, env, s, p, live.storageNodes[0]); }
    }
  }

  lemma LiveTxStored(db: Database, env: Env, s: Settings, p: ConvertedPayload, tx: Tx)
    requires Both(db, env, s, p) && Agree(db, env, s, p) && tx in LiveResponse(env, s, p).txs
    ensures exists k :: k in Served(db, env, s, p).value.txs
  {
    TxIsKept(s.txFilter, p, tx);
    var i :| 0 <= i < |p.txs| && p.txs[i] == tx;
    assert SameTx(Served(db, env, s, p).value, LiveResponse(env, s, p), p, i);
  }

  lemma LiveReceiptStored(db: Database, env: Env, s: Settings, p: ConvertedPayload, r: Receipt)
    requires Both(db, env, s, p) && Agree(db, env, s, p) && r in LiveResponse(env, s, p).receipts
    ensures exists k :: k in Served(db, env, s, p).value.receipts
  {
    ReceiptIsKept(s, p, r);
    var i :| 0 <= i < |p.receipts| && p.receipts[i] == r;
    assert SameReceipt(Served(db, env, s, p).value, LiveResponse(env, s, p), p, i);
  }

  lemma LiveStateStored(db: Database, env: Env, s: Settings, p: ConvertedPayload, n: TrieNode)
    requires Both(db, env, s, p) && Agree(db, env, s, p) && n in LiveResponse(env, s, p).stateNodes
    ensures exists k :: k in Served(db, env, s, p).value.states
  {
    StateIsKept(env, s.stateFilter, p, n);
    var i :| 0 <= i < |p.stateNodes| && p.stateNodes[i] == n;
    assert SameState(Served(db, env, s, p).value, LiveResponse(env, s, p), p, i);
  }

  lemma LiveStorageStored(db: Database, env: Env, s: Settings, p: ConvertedPayload, item: StorageItem)
    requires Both(db, env, s, p) && Agree(db, env, s, p) && item in LiveResponse(env, s, p).storageNodes
    ensures exists k :: k in Served(db, env, s, p).value.storages
  {
    StorageIsKept(env, s.storageFilter, p, item);
    var i :| 0 <= i < |p.stateNodes| && p.stateNodes[i] == item.state;
    var nodes := StorageUnder(p, item.state.path);
    var m :| 0 <= m < |nodes| && nodes[m] == item.node;
    assert SameStorage(Served(db, env, s, p).value, LiveResponse(env, s, p), p, i, m);
  }

  /** The same after any history of publishes, cleans and resets, however often the block itself was
      published before, as long as its header always came with the same block. */
  lemma RoutesAgreeInEveryRun(env: Env, evs: seq<Event>, s: Settings, p: ConvertedPayload)
    requires forall i :: 0 <= i < |evs| && evs[i].PublishEvent? && HeaderOf(evs[i].p) == HeaderOf(p) ==> evs[i].p == p
    requires Effective(env, p) && Distinct(p) && Paired(p) && FourTopics(p) && HashKeys(p) && HexLaws(env)
    requires CheckRange(s.start, s.end, p.number)
    ensures var db := Run(env, evs);
            && Run(env, evs + [PublishEvent(p)]) == Published(db, env, p)
            && (Agree(db, env, s, p) <==> Alike(env, s, p))
            && (Served(db, env, s, p).Some? ==> Within(Served(db, env, s, p).value, LiveResponse(env, s, p), p))
  {
    assert (evs + [PublishEvent(p)])[..|evs|] == evs;
    OwnInEveryRun(env, evs, p);
    RoutesAgree(Run(env, evs), env, s, p);
    if Served(Run(env, evs), env, s, p).Some? { StoredWithinLive(Run(env, evs), env, s, p); }
  }

  // ----- which heights the historical route serves -----

  /** The bounds sendHistoricalData computes from the stored first and last heights. */
  method HistoricalRange(s: Settings, first: int, last: int) returns (from: int, to: int)
    requires first <= last
    ensures forall h :: first <= h <= last && CheckRange(s.start, s.end, h) ==> from <= h <= to
    ensures first <= from && s.start <= from && to <= last
    ensures (forall h :: from <= h <= to ==> CheckRange(s.start, s.end, h))
            <==> s.end <= 0 || s.end >= last || (s.end > first && s.end > s.start) || s.start > last
  {
    from := first;
    if from < s.start { from := s.start; }
    to := last;
    if to > s.end && s.end > 0 && s.end > from { to := s.end; }
    if s.end > 0 && s.end < last && s.end <= from <= last {
      assert !CheckRange(s.start, s.end, last);
    }
  }
}
