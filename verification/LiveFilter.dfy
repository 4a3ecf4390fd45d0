/** The live route: the response filter applied to a converted payload in memory. */
module LiveFilter {
  import opened Common
  import opened Schema
  import opened Payloads
  import opened ReceiptQuery

  datatype HeaderFilter = HeaderFilter(off: bool, uncles: bool)
  datatype TxFilter = TxFilter(off: bool, src: seq<string>, dst: seq<string>)
  datatype StateFilter = StateFilter(off: bool, addresses: seq<string>, intermediateNodes: bool)
  datatype StorageFilter = StorageFilter(
    off: bool, addresses: seq<string>, storageKeys: seq<string>, intermediateNodes: bool)

  datatype Settings = Settings(
    start: int, end: int,
    headerFilter: HeaderFilter, txFilter: TxFilter, receiptFilter: ReceiptFilter,
    stateFilter: StateFilter, storageFilter: StorageFilter)

  datatype StorageItem = StorageItem(state: TrieNode, node: TrieNode)

  /** A filtered response; a payload out of range gives one without a block number. */
  datatype IPLDs = IPLDs(
    blockNumber: Option<int>,
    header: Option<Bytes>, uncles: seq<Bytes>,
    txs: seq<Tx>, receipts: seq<Receipt>,
    stateNodes: seq<TrieNode>, storageNodes: seq<StorageItem>)

  const EMPTY := IPLDs(None, None, [], [], [], [], [])

  predicate CheckRange(start: int, end: int, actual: int) {
    (end <= 0 || end >= actual) && start <= actual
  }

  /** Source or destination is wanted, or nothing is. */
  predicate CheckTransactionAddrs(f: TxFilter, src: string, dst: string) {
    (f.src == [] && f.dst == []) || src in f.src || dst in f.dst
  }

  /** The topic sets of a receipt match in each of the four slots. */
  predicate TopicsMatch(wanted: seq<seq<string>>, actual: seq<seq<string>>)
    requires |actual| == 4
  {
    forall i :: 0 <= i < 4 && i < |wanted| && wanted[i] != [] ==> Share(actual[i], wanted[i])
  }

  predicate CheckReceipts(f: ReceiptFilter, r: Receipt, wantedTrxs: seq<string>)
    requires |r.topics| == 4
  {
    || (f.topics == [] && f.logAddresses == [] && wantedTrxs == [])
    || r.txHash in wantedTrxs
    || (f.logAddresses == [] && TopicsMatch(f.topics, r.topics))
    || (Share(f.logAddresses, r.logContracts) && TopicsMatch(f.topics, r.topics))
  }

  predicate CheckNodeKeys(wanted: seq<Bytes>, actual: Bytes) {
    wanted == [] || actual in wanted
  }

  function Hashes(env: Env, addresses: seq<string>): seq<Bytes> {
    seq(|addresses|, i requires 0 <= i < |addresses| => env.addressHash(addresses[i]))
  }

  function Keys(env: Env, keys: seq<string>): seq<Bytes> {
    seq(|keys|, i requires 0 <= i < |keys| => env.unhex(keys[i]))
  }

  predicate KeepsState(env: Env, f: StateFilter, n: TrieNode) {
    !f.off && CheckNodeKeys(Hashes(env, f.addresses), n.leafKey) && (n.kind == Leaf || f.intermediateNodes)
  }

  /** The node type is not looked at. */
  predicate KeepsStorage(env: Env, f: StorageFilter, state: TrieNode, n: TrieNode) {
    && !f.off
    && CheckNodeKeys(Hashes(env, f.addresses), state.leafKey)
    && CheckNodeKeys(Keys(env, f.storageKeys), n.leafKey)
  }

  /** The elements of s that satisfy p, in order. */
  function Select<T>(s: seq<T>, p: T -> bool): seq<T> {
    if s == [] then []
    else Select(s[..|s| - 1], p) + (if p(s[|s| - 1]) then [s[|s| - 1]] else [])
  }

  lemma {:induction false} SelectMembers<T>(s: seq<T>, p: T -> bool, x: T)
    ensures x in Select(s, p) <==> x in s && p(x)
  {
    if s != [] {
      SelectMembers(s[..|s| - 1], p, x);
    }
  }

  lemma SelectNext<T>(s: seq<T>, i: nat, p: T -> bool)
    requires i < |s|
    ensures Select(s[..i + 1], p) == Select(s[..i], p) + (if p(s[i]) then [s[i]] else [])
  {
    assert s[..i + 1][..i] == s[..i];
  }

  // ----- specification of the response -----

  function LiveTxs(f: TxFilter, p: ConvertedPayload): seq<Tx> {
    if f.off then [] else Select(p.txs, (tx: Tx) => CheckTransactionAddrs(f, tx.src, tx.dst))
  }

  function TxHashes(txs: seq<Tx>): seq<string> {
    seq(|txs|, i requires 0 <= i < |txs| => txs[i].hash)
  }

  predicate FourTopics(p: ConvertedPayload) {
    forall i :: 0 <= i < |p.receipts| ==> |p.receipts[i].topics| == 4
  }

  function LiveReceipts(f: ReceiptFilter, p: ConvertedPayload, wantedTrxs: seq<string>): seq<Receipt> {
    if f.off then [] else Select(p.receipts, (r: Receipt) => |r.topics| == 4 && CheckReceipts(f, r, wantedTrxs))
  }

  function LiveStates(env: Env, f: StateFilter, p: ConvertedPayload): seq<TrieNode> {
    Select(p.stateNodes, n => KeepsState(env, f, n))
  }

  function StorageBelow(p: ConvertedPayload, state: TrieNode): seq<StorageItem> {
    var nodes := StorageUnder(p, state.path);
    seq(|nodes|, i requires 0 <= i < |nodes| => StorageItem(state, nodes[i]))
  }

  function LiveStorages(env: Env, f: StorageFilter, p: ConvertedPayload, n: nat): seq<StorageItem>
    requires n <= |p.stateNodes|
  {
    if n == 0 then []
    else LiveStorages(env, f, p, n - 1)
         + Select(StorageBelow(p, p.stateNodes[n - 1]), (s: StorageItem) => KeepsStorage(env, f, s.state, s.node))
  }

  function WantedTrxs(s: Settings, p: ConvertedPayload): seq<string> {
    if s.receiptFilter.matchTxs then TxHashes(LiveTxs(s.txFilter, p)) else []
  }

  function LiveResponse(env: Env, s: Settings, p: ConvertedPayload): IPLDs {
    if !CheckRange(s.start, s.end, p.number) then EMPTY
    else IPLDs(
      Some(p.number),
      if s.headerFilter.off then None else Some(p.headerRaw),
      if !s.headerFilter.off && s.headerFilter.uncles then
        seq(|p.uncles|, i requires 0 <= i < |p.uncles| => p.uncles[i].raw) else [],
      LiveTxs(s.txFilter, p),
      LiveReceipts(s.receiptFilter, p, WantedTrxs(s, p)),
      LiveStates(env, s.stateFilter, p),
      LiveStorages(env, s.storageFilter, p, |p.stateNodes|))
  }

  // ----- what that is -----

  /** Select keeps the elements that satisfy p at their places, each as often and in the order it has. */
  ghost predicate Picks<T>(s: seq<T>, p: T -> bool, at: seq<nat>, r: seq<T>) {
    && |at| == |r| && (forall j :: 0 <= j < |at| ==> at[j] < |s| && r[j] == s[at[j]])
    && (forall i, j :: 0 <= i < j < |at| ==> at[i] < at[j])
    && (forall i :: 0 <= i < |s| ==> (i in at <==> p(s[i])))
  }

  lemma {:induction false} SelectPicks<T>(s: seq<T>, p: T -> bool) returns (at: seq<nat>)
    ensures Picks(s, p, at, Select(s, p))
  {
    at := [];
    if s != [] {
      var n := |s| - 1;
      at := SelectPicks(s[..n], p);
      PicksNext(s, p, at, Select(s[..n], p));
      if p(s[n]) { at := at + [n]; }
    }
  }

  lemma PicksNext<T>(s: seq<T>, p: T -> bool, at: seq<nat>, r: seq<T>)
    requires s != [] && Picks(s[..|s| - 1], p, at, r)
    ensures p(s[|s| - 1]) ==> Picks(s, p, at + [|s| - 1], r + [s[|s| - 1]])
    ensures !p(s[|s| - 1]) ==> Picks(s, p, at, r)
  {
    var n := |s| - 1;
    assert forall i :: 0 <= i < n ==> s[..n][i] == s[i];
    assert forall j :: 0 <= j < |at| ==> at[j] < n && r[j] == s[at[j]];
    assert n !in at;
    var more := at + [n];
    assert forall i: nat :: i in more <==> i in at || i == n;
  }

  lemma TxIsKept(f: TxFilter, p: ConvertedPayload, tx: Tx)
    ensures tx in LiveTxs(f, p) <==>
            !f.off && tx in p.txs && ((f.src == [] && f.dst == []) || tx.src in f.src || tx.dst in f.dst)
  {
    SelectMembers(p.txs, (t: Tx) => CheckTransactionAddrs(f, t.src, t.dst), tx);
  }

  /** A receipt is kept with its transaction, if that is asked for, and for its addresses and topics. */
  lemma ReceiptIsKept(s: Settings, p: ConvertedPayload, r: Receipt)
    requires FourTopics(p)
    ensures var f := s.receiptFilter;
            r in LiveReceipts(f, p, WantedTrxs(s, p)) <==>
            && !f.off && r in p.receipts
            && (|| (f.matchTxs && exists tx :: tx in LiveTxs(s.txFilter, p) && tx.hash == r.txHash)
                || (&& (f.logAddresses == [] || exists a :: a in f.logAddresses && a in r.logContracts)
                    && forall n :: 0 <= n < 4 && n < |f.topics| && f.topics[n] != [] ==>
                         exists t :: t in f.topics[n] && t in r.topics[n]))
  {
    var f, trxs := s.receiptFilter, WantedTrxs(s, p);
    SelectMembers(p.receipts, (x: Receipt) => |x.topics| == 4 && CheckReceipts(f, x, trxs), r);
    if r in p.receipts {
      var i :| 0 <= i < |p.receipts| && p.receipts[i] == r;
      HashListed(LiveTxs(s.txFilter, p), r.txHash);
      SharedIs(f.logAddresses, r.logContracts);
      forall n | 0 <= n < 4 && n < |f.topics| { SharedIs(r.topics[n], f.topics[n]); }
    }
  }

  lemma HashListed(txs: seq<Tx>, hash: string)
    ensures hash in TxHashes(txs) <==> exists tx :: tx in txs && tx.hash == hash
  {
    if tx :| tx in txs && tx.hash == hash {
      var i :| 0 <= i < |txs| && txs[i] == tx;
      assert TxHashes(txs)[i] == hash;
    }
  }

  lemma SharedIs(a: seq<string>, b: seq<string>)
    ensures Share(a, b) <==> exists x :: x in a && x in b
  {
  }

  lemma StateIsKept(env: Env, f: StateFilter, p: ConvertedPayload, n: TrieNode)
    ensures n in LiveStates(env, f, p) <==>
            && !f.off && n in p.stateNodes && (n.kind == Leaf || f.intermediateNodes)
            && (f.addresses == [] || exists a :: a in f.addresses && env.addressHash(a) == n.leafKey)
  {
    SelectMembers(p.stateNodes, m => KeepsState(env, f, m), n);
    HashIsListed(env, f.addresses, n.leafKey);
  }

  lemma HashIsListed(env: Env, addresses: seq<string>, key: Bytes)
    ensures key in Hashes(env, addresses) <==> exists a :: a in addresses && env.addressHash(a) == key
  {
    if a :| a in addresses && env.addressHash(a) == key {
      var i :| 0 <= i < |addresses| && addresses[i] == a;
      assert Hashes(env, addresses)[i] == key;
    }
  }

  lemma KeyIsListed(env: Env, keys: seq<string>, key: Bytes)
    ensures key in Keys(env, keys) <==> exists k :: k in keys && env.unhex(k) == key
  {
    if k :| k in keys && env.unhex(k) == key {
      var i :| 0 <= i < |keys| && keys[i] == k;
      assert Keys(env, keys)[i] == key;
    }
  }

  lemma LiveStoragesNext(env: Env, f: StorageFilter, p: ConvertedPayload, n: nat, item: StorageItem)
    requires n < |p.stateNodes|
    ensures item in LiveStorages(env, f, p, n + 1) <==>
            || item in LiveStorages(env, f, p, n)
            || (item in StorageBelow(p, p.stateNodes[n]) && KeepsStorage(env, f, item.state, item.node))
  {
    SelectMembers(StorageBelow(p, p.stateNodes[n]), (s: StorageItem) => KeepsStorage(env, f, s.state, s.node), item);
  }

  lemma {:induction false} InLiveStorages(env: Env, f: StorageFilter, p: ConvertedPayload, n: nat, item: StorageItem)
    requires n <= |p.stateNodes|
    ensures item in LiveStorages(env, f, p, n) <==>
            && KeepsStorage(env, f, item.state, item.node)
            && exists i :: 0 <= i < n && item in StorageBelow(p, p.stateNodes[i])
  {
    if n > 0 {
      InLiveStorages(env, f, p, n - 1, item);
      LiveStoragesNext(env, f, p, n - 1, item);
    }
  }

  /** A storage node is kept for the two keys alone, whatever its type and that of the node above it. */
  lemma StorageIsKept(env: Env, f: StorageFilter, p: ConvertedPayload, item: StorageItem)
    ensures item in LiveStorages(env, f, p, |p.stateNodes|) <==>
            && !f.off && item.state in p.stateNodes
            && item.state.path in p.storageNodes && item.node in p.storageNodes[item.state.path]
            && (f.addresses == [] || exists a :: a in f.addresses && env.addressHash(a) == item.state.leafKey)
            && (f.storageKeys == [] || exists k :: k in f.storageKeys && env.unhex(k) == item.node.leafKey)
  {
    InLiveStorages(env, f, p, |p.stateNodes|, item);
    HashIsListed(env, f.addresses, item.state.leafKey);
    KeyIsListed(env, f.storageKeys, item.node.leafKey);
    ItemBelow(p, item);
  }

  lemma ItemBelow(p: ConvertedPayload, item: StorageItem)
    ensures (exists i :: 0 <= i < |p.stateNodes| && item in StorageBelow(p, p.stateNodes[i])) <==>
            && item.state in p.stateNodes
            && item.state.path in p.storageNodes && item.node in p.storageNodes[item.state.path]
  {
    if item.state in p.stateNodes && item.node in StorageUnder(p, item.state.path) {
      var i :| 0 <= i < |p.stateNodes| && p.stateNodes[i] == item.state;
      var nodes := StorageUnder(p, item.state.path);
      var j :| 0 <= j < |nodes| && nodes[j] == item.node;
      assert StorageBelow(p, p.stateNodes[i])[j] == item;
    }
  }

  // ----- the code -----

  /** filterMatch: counts the slots that match. */
  method FilterMatch(wanted: seq<seq<string>>, actual: seq<seq<string>>) returns (match_: bool)
    requires |actual| == 4
    ensures match_ <==> TopicsMatch(wanted, actual)
  {
    var matches := 0;
    for i := 0 to |actual|
      invariant 0 <= matches <= i
      invariant matches == i <==>
                  forall k :: 0 <= k < i && k < |wanted| && wanted[k] != [] ==> Share(actual[k], wanted[k])
    {
      if i < |wanted| && |wanted[i]| > 0 {
        matches := matches + (if Share(actual[i], wanted[i]) then 1 else 0);
      } else {
        matches := matches + 1;
      }
    }
    match_ := matches == 4;
  }

  method FilterTransactions(f: TxFilter, p: ConvertedPayload) returns (kept: seq<Tx>, hashes: seq<string>)
    ensures kept == LiveTxs(f, p) && hashes == TxHashes(kept)
  {
    kept, hashes := [], [];
    if !f.off {
      ghost var keep := (tx: Tx) => CheckTransactionAddrs(f, tx.src, tx.dst);
      for i := 0 to |p.txs|
        invariant kept == Select(p.txs[..i], keep) && hashes == TxHashes(kept)
      {
        SelectNext(p.txs, i, keep);
        if CheckTransactionAddrs(f, p.txs[i].src, p.txs[i].dst) {
          kept := kept + [p.txs[i]];
          hashes := hashes + [p.txs[i].hash];
        }
      }
      assert p.txs[..|p.txs|] == p.txs;
    }
  }

  method ReceiptPasses(f: ReceiptFilter, r: Receipt, wantedTrxs: seq<string>) returns (keep: bool)
    requires |r.topics| == 4
    ensures keep <==> CheckReceipts(f, r, wantedTrxs)
  {
    if f.topics == [] && f.logAddresses == [] && wantedTrxs == [] {
      return true;
    }
    if r.txHash in wantedTrxs {
      return true;
    }
    var topics := FilterMatch(f.topics, r.topics);
    if f.logAddresses == [] && topics {
      return true;
    }
    for i := 0 to |f.logAddresses|
      invariant !topics || forall a :: 0 <= a < i ==> f.logAddresses[a] !in r.logContracts
    {
      if f.logAddresses[i] in r.logContracts && topics {
        return true;
      }
    }
    return false;
  }

  method FilterReceipts(f: ReceiptFilter, p: ConvertedPayload, wantedTrxs: seq<string>) returns (kept: seq<Receipt>)
    requires FourTopics(p)
    ensures kept == LiveReceipts(f, p, wantedTrxs)
  {
    kept := [];
    if !f.off {
      ghost var wants := (r: Receipt) => |r.topics| == 4 && CheckReceipts(f, r, wantedTrxs);
      for i := 0 to |p.receipts|
        invariant kept == Select(p.receipts[..i], wants)
      {
        SelectNext(p.receipts, i, wants);
        var keep := ReceiptPasses(f, p.receipts[i], wantedTrxs);
        if keep {
          kept := kept + [p.receipts[i]];
        }
      }
      assert p.receipts[..|p.receipts|] == p.receipts;
    }
  }

  method FilterStorageOf(env: Env, f: StorageFilter, p: ConvertedPayload,
                         state: TrieNode)
    returns (kept: seq<StorageItem>)
    requires !f.off && CheckNodeKeys(Hashes(env, f.addresses), state.leafKey)
    ensures kept == Select(StorageBelow(p, state), (s: StorageItem) => KeepsStorage(env, f, s.state, s.node))
  {
    kept := [];
    var nodes := StorageUnder(p, state.path);
    ghost var items := StorageBelow(p, state);
    ghost var keep := (s: StorageItem) => KeepsStorage(env, f, s.state, s.node);
    for i := 0 to |nodes|
      invariant kept == Select(items[..i], keep)
    {
      SelectNext(items, i, keep);
      if CheckNodeKeys(Keys(env, f.storageKeys), nodes[i].leafKey) {
        kept := kept + [StorageItem(state, nodes[i])];
      }
    }
    assert items[..|nodes|] == items;
  }

  method FilterStateAndStorage(env: Env, sf: StateFilter, tf: StorageFilter, p: ConvertedPayload)
    returns (states: seq<TrieNode>, storages: seq<StorageItem>)
    ensures states == LiveStates(env, sf, p)
    ensures storages == LiveStorages(env, tf, p, |p.stateNodes|)
  {
    states, storages := [], [];
    ghost var keep := n => KeepsState(env, sf, n);
    for i := 0 to |p.stateNodes|
      invariant states == Select(p.stateNodes[..i], keep)
      invariant storages == LiveStorages(env, tf, p, i)
    {
      var n := p.stateNodes[i];
      SelectNext(p.stateNodes, i, keep);
      if !sf.off && CheckNodeKeys(Hashes(env, sf.addresses), n.leafKey) {
        if n.kind == Leaf || sf.intermediateNodes {
          states := states + [n];
        }
      }
      if !tf.off && CheckNodeKeys(Hashes(env, tf.addresses), n.leafKey) {
        var below := FilterStorageOf(env, tf, p, n);
        storages := storages + below;
      } else {
        NothingKept(env, tf, StorageBelow(p, n), n);
      }
    }
    assert p.stateNodes[..|p.stateNodes|] == p.stateNodes;
  }

  lemma {:induction false} NothingKept(env: Env, f: StorageFilter, items: seq<StorageItem>, state: TrieNode)
    requires f.off || !CheckNodeKeys(Hashes(env, f.addresses), state.leafKey)
    requires forall i :: 0 <= i < |items| ==> items[i].state == state
    ensures Select(items, (s: StorageItem) => KeepsStorage(env, f, s.state, s.node)) == []
  {
    if items != [] { NothingKept(env, f, items[..|items| - 1], state); }
  }

  method Filter(env: Env, s: Settings, p: ConvertedPayload) returns (response: IPLDs)
    requires FourTopics(p)
    ensures response == LiveResponse(env, s, p)
    ensures !((s.end <= 0 || p.number <= s.end) && s.start <= p.number) ==>
              response == IPLDs(None, None, [], [], [], [], [])
    ensures (s.end <= 0 || p.number <= s.end) && s.start <= p.number ==>
              && response.blockNumber == Some(p.number)
              && response.header == (if s.headerFilter.off then None else Some(p.headerRaw))
              && |response.uncles| == (if !s.headerFilter.off && s.headerFilter.uncles then |p.uncles| else 0)
              && forall i :: 0 <= i < |response.uncles| ==> response.uncles[i] == p.uncles[i].raw
  {
    if !CheckRange(s.start, s.end, p.number) {
      return EMPTY;
    }
    var header := if s.headerFilter.off then None else Some(p.headerRaw);
    var uncles := [];
    if !s.headerFilter.off && s.headerFilter.uncles {
      uncles := seq(|p.uncles|, i requires 0 <= i < |p.uncles| => p.uncles[i].raw);
    }
    var txs, hashes := FilterTransactions(s.txFilter, p);
    var wanted := if s.receiptFilter.matchTxs then hashes else [];
    var receipts := FilterReceipts(s.receiptFilter, p, wanted);
    var states, storages := FilterStateAndStorage(env, s.stateFilter, s.storageFilter, p);
    response := IPLDs(Some(p.number), header, uncles, txs, receipts, states, storages);
  }
}
