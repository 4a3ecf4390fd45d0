/** Logs by criteria: the converter's metadata, the receipt query over it, and the check of each log. */
module Logs {
  import opened Common
  import opened SqlText
  import opened ReceiptQuery
  import opened Payloads
  import opened LiveFilter
  import Schema
  import Store
  import Reindex
  import Indexed
  import Retriever

  /** The EVM gives a log at most four topics. */
  datatype Log = Log(address: string, topics: seq<string>)

  predicate AtMostFour(logs: seq<Log>) {
    forall i :: 0 <= i < |logs| ==> |logs[i].topics| <= 4
  }

  // ----- the converter's metadata -----

  /** The topics at one position, over all logs that have one there. */
  function TopicsAt(logs: seq<Log>, n: nat): seq<string> {
    if logs == [] then []
    else
      var last := logs[|logs| - 1];
      TopicsAt(logs[..|logs| - 1], n) + (if n < |last.topics| then [last.topics[n]] else [])
  }

  /** The inner loop: a log's topics are appended to the sets of their positions. */
  method AddTopics(topicSets: array<seq<string>>, log: Log)
    requires topicSets.Length == 4 && |log.topics| <= 4
    modifies topicSets
    ensures forall n :: 0 <= n < 4 ==>
              topicSets[n] == old(topicSets[n]) + (if n < |log.topics| then [log.topics[n]] else [])
  {
    for i := 0 to |log.topics|
      invariant forall n :: 0 <= n < 4 ==>
                  topicSets[n] == old(topicSets[n]) + (if n < i then [log.topics[n]] else [])
    {
      topicSets[i] := topicSets[i] + [log.topics[i]];
    }
  }

  /** Topic sets by position, and the addresses seen, each once and in no particular order. */
  method ReceiptMetadata(logs: seq<Log>) returns (topicSets: array<seq<string>>, logContracts: seq<string>)
    requires AtMostFour(logs)
    ensures fresh(topicSets) && topicSets.Length == 4
    ensures forall n :: 0 <= n < 4 ==> topicSets[n] == TopicsAt(logs, n)
    ensures forall a :: a in logContracts <==> exists i :: 0 <= i < |logs| && logs[i].address == a
    ensures forall i, j :: 0 <= i < j < |logContracts| ==> logContracts[i] != logContracts[j]
  {
    topicSets := new seq<string>[4](_ => []);
    var mappedContracts: set<string> := {};
    for i := 0 to |logs|
      invariant forall n :: 0 <= n < 4 ==> topicSets[n] == TopicsAt(logs[..i], n)
      invariant forall a :: a in mappedContracts <==> exists k :: 0 <= k < i && logs[k].address == a
    {
      assert logs[..i + 1][..i] == logs[..i];
      AddTopics(topicSets, logs[i]);
      mappedContracts := mappedContracts + {logs[i].address};
    }
    assert logs[..|logs|] == logs;
    logContracts := [];
    var todo := mappedContracts;
    while todo != {}
      invariant todo <= mappedContracts
      invariant forall a :: a in mappedContracts <==> a in todo || a in logContracts
      invariant forall i :: 0 <= i < |logContracts| ==> logContracts[i] !in todo
      invariant forall i, j :: 0 <= i < j < |logContracts| ==> logContracts[i] != logContracts[j]
      decreases todo
    {
      var a :| a in todo;
      logContracts := logContracts + [a];
      todo := todo - {a};
    }
  }

  /** The metadata a receipt with these logs is converted to. */
  ghost predicate Describes(r: Receipt, logs: seq<Log>) {
    && |r.topics| == 4 && (forall n :: 0 <= n < 4 ==> r.topics[n] == TopicsAt(logs, n))
    && forall a :: a in r.logContracts <==> exists i :: 0 <= i < |logs| && logs[i].address == a
  }

  method ConvertReceipt(txHash: string, raw: Schema.Bytes, logs: seq<Log>) returns (r: Receipt)
    requires AtMostFour(logs)
    ensures Describes(r, logs) && r.txHash == txHash && r.raw == raw
  {
    var topicSets, logContracts := ReceiptMetadata(logs);
    r := Receipt(txHash, raw, topicSets[..], logContracts);
  }

  lemma {:induction false} InTopicsAt(logs: seq<Log>, i: nat, n: nat)
    requires i < |logs| && n < |logs[i].topics|
    ensures logs[i].topics[n] in TopicsAt(logs, n)
  {
    if i < |logs| - 1 { InTopicsAt(logs[..|logs| - 1], i, n); }
  }

  lemma {:induction false} TopicsAtHolds(logs: seq<Log>, n: nat, t: string)
    ensures t in TopicsAt(logs, n) <==> exists l :: l in logs && n < |l.topics| && l.topics[n] == t
  {
    if logs != [] {
      var most, last := logs[..|logs| - 1], logs[|logs| - 1];
      TopicsAtHolds(most, n, t);
      assert forall l :: l in logs <==> l in most || l == last;
    }
  }

  // ----- criteria -----

  datatype Criteria = Criteria(
    addresses: seq<string>, topics: seq<seq<string>>,
    blockHash: Option<string>, fromBlock: Option<int>, toBlock: Option<int>)

  /** What the caller asks of a log. */
  predicate Matches(crit: Criteria, log: Log) {
    && (crit.addresses == [] || log.address in crit.addresses)
    && forall n :: 0 <= n < |crit.topics| && crit.topics[n] != [] ==>
         n < |log.topics| && log.topics[n] in crit.topics[n]
  }

  function Slot(crit: Criteria, n: nat): seq<string> {
    if n < |crit.topics| then crit.topics[n] else []
  }

  function FilterOf(crit: Criteria): ReceiptFilter {
    ReceiptFilter(false, false, crit.addresses, [Slot(crit, 0), Slot(crit, 1), Slot(crit, 2), Slot(crit, 3)])
  }

  /** Criteria become a receipt filter with exactly four topic slots; further ones are dropped. */
  method Translate(crit: Criteria) returns (f: ReceiptFilter)
    ensures f == FilterOf(crit)
  {
    var topicStrSets := new seq<string>[4](_ => []);
    for i := 0 to |crit.topics|
      invariant forall n :: 0 <= n < 4 ==> topicStrSets[n] == if n < i then crit.topics[n] else []
    {
      if i > 3 { break; }
      topicStrSets[i] := topicStrSets[i] + crit.topics[i];
    }
    f := ReceiptFilter(false, false, crit.addresses, topicStrSets[..]);
  }

  // ----- the per-log check -----

  /** Each topic the log has is wanted at its position; positions it does not have are not looked at. */
  predicate TopicsOk(wanted: seq<seq<string>>, actual: seq<string>)
    requires |actual| <= |wanted|
  {
    forall n :: 0 <= n < |actual| && wanted[n] != [] ==> actual[n] in wanted[n]
  }

  method WantedLog(wanted: seq<seq<string>>, actual: seq<string>) returns (w: bool)
    requires |actual| <= |wanted|
    ensures w <==> TopicsOk(wanted, actual)
  {
    var matches := 0;
    for i := 0 to |actual|
      invariant 0 <= matches <= i
      invariant matches == i <==> forall n :: 0 <= n < i && wanted[n] != [] ==> actual[n] in wanted[n]
    {
      if |wanted[i]| > 0 {
        matches := matches + (if actual[i] in wanted[i] then 1 else 0);
      } else {
        matches := matches + 1;
      }
    }
    w := matches == |actual|;
  }

  // ----- stored receipts -----

  /** A receipt row joined with its own transaction and header, and the logs its block decodes to. */
  datatype Stored = Stored(row: Joined, logs: seq<Log>)

  /** The row was written from the converter's metadata. */
  ghost predicate FromConverter(s: Stored) {
    && s.row.rctTxId == s.row.txId && s.row.txHeaderId == s.row.headerId
    && AtMostFour(s.logs)
    && |s.row.topics| == 4 && (forall n :: 0 <= n < 4 ==> s.row.topics[n] == TopicColumn(TopicsAt(s.logs, n)))
    && s.row.logContracts.Some?
    && forall a :: a in s.row.logContracts.value <==> exists i :: 0 <= i < |s.logs| && s.logs[i].address == a
  }

  /** And it was, for every receipt of a converted block that was published. */
  lemma PublishedFromConverter(db: Schema.Database, env: Env, p: ConvertedPayload, i: nat, logs: seq<Log>)
    requires Reindex.Effective(env, p) && Indexed.OnlyOwn(db, env, p) && Indexed.Distinct(p) && Paired(p)
    requires i < |p.txs| && AtMostFour(logs) && Describes(p.receipts[i], logs)
    ensures var after, h := Store.Published(db, env, p), Store.HeaderOf(p);
            var k := Schema.ReceiptKey(Schema.TxKey(h, p.txs[i].hash));
            && h in after.rows && Retriever.ReceiptRowOf(after, h, k)
            && FromConverter(Stored(Retriever.OwnRow(after, h, k), logs))
  {
    var h := Store.HeaderOf(p);
    var k := Schema.ReceiptKey(Schema.TxKey(h, p.txs[i].hash));
    Indexed.KeysAfterPublish(db, env, p);
    Indexed.TxRows(db, env, p, k.tx);
    Indexed.ReceiptRows(db, env, p, k);
  }

  /** A log that matches is not lost: its receipt passes the query and the log passes the check. */
  lemma NoLogIsLost(crit: Criteria, s: Stored, i: nat)
    requires FromConverter(s) && i < |s.logs| && Matches(crit, s.logs[i])
    ensures FilterWants(FilterOf(crit), [], s.row)
    ensures TopicsOk(FilterOf(crit).topics, s.logs[i].topics)
  {
    var f, log := FilterOf(crit), s.logs[i];
    if f.logAddresses != [] {
      assert log.address in s.row.logContracts.value;
      var k :| 0 <= k < |s.row.logContracts.value| && s.row.logContracts.value[k] == log.address;
      assert Overlaps(s.row.logContracts, f.logAddresses);
    }
    forall n | Asked(f.topics, n) ensures n < |s.row.topics| && Overlaps(s.row.topics[n], f.topics[n]) {
      assert f.topics[n] == Slot(crit, n) == crit.topics[n];
      InTopicsAt(s.logs, i, n);
      var column := TopicsAt(s.logs, n);
      var k :| 0 <= k < |column| && column[k] == log.topics[n];
      assert Share(column, f.topics[n]);
    }
    forall n | 0 <= n < |log.topics| && f.topics[n] != [] ensures log.topics[n] in f.topics[n] {
      assert f.topics[n] == Slot(crit, n);
    }
  }

  /** A log that is returned does match exactly when its own address is wanted, it has a topic at every
      asked-for position, and nothing is asked for past the fourth. */
  lemma ReturnedLogMatches(crit: Criteria, log: Log)
    requires |log.topics| <= 4 && TopicsOk(FilterOf(crit).topics, log.topics)
    ensures Matches(crit, log) <==>
            && (crit.addresses == [] || log.address in crit.addresses)
            && forall n :: 0 <= n < |crit.topics| && crit.topics[n] != [] ==> n < |log.topics|
  {
    var f := FilterOf(crit);
    forall n | 0 <= n < |crit.topics| && crit.topics[n] != [] && n < |log.topics|
      ensures log.topics[n] in crit.topics[n]
    {
      assert f.topics[n] == Slot(crit, n) == crit.topics[n];
    }
  }

  // ----- retrieving over a range -----

  /** One query: the rows it selects. */
  method RetrieveReceipts(rows: seq<Stored>, f: ReceiptFilter, number: int, hash: Option<string>)
    returns (found: seq<Stored>)
    requires !OnlyLateTopics(f.topics) && forall i :: 0 <= i < |rows| ==> FromConverter(rows[i])
    ensures forall s :: multiset(found)[s] ==
              if s in rows && (number > 0 ==> s.row.number == number) && (hash.Some? ==> s.row.hash == hash.value)
                 && FilterWants(f, [], s.row)
              then multiset(rows)[s] else 0
  {
    var text, args := BuildByBlock(f, number, hash, []);
    found := Select(rows, (s: Stored) => Selects(text, args, s.row));
    forall s ensures multiset(found)[s] == if s in rows && Selects(text, args, s.row) then multiset(rows)[s] else 0 {
      SelectCounts(rows, (s: Stored) => Selects(text, args, s.row), s);
    }
  }

  lemma {:induction false} SelectCounts<T>(xs: seq<T>, p: T -> bool, x: T)
    ensures multiset(Select(xs, p))[x] == if p(x) then multiset(xs)[x] else 0
    ensures x in xs <==> multiset(xs)[x] > 0
  {
    if xs != [] {
      var most, last := xs[..|xs| - 1], xs[|xs| - 1];
      SelectCounts(most, p, x);
      assert xs == most + [last];
      OneMore(most, last, x);
      OneMore(Select(most, p), last, x);
    }
  }

  lemma OneMore<T>(xs: seq<T>, last: T, x: T)
    ensures multiset(xs + [last])[x] == multiset(xs)[x] + if x == last then 1 else 0
    ensures x in xs + [last] <==> x in xs || x == last
  {
  }

  /** How often the loop over heights asks for a block: once for its own height if that is positive, and
      once for every height that is not, since the query then has no height condition. */
  function Hits(start: int, end: int, number: int): nat
    decreases end - start
  {
    if end < start then 0
    else Hits(start, end - 1, number) + (if end > 0 then (if number == end then 1 else 0) else 1)
  }

  lemma {:induction false} HitsCount(start: int, end: int, number: int)
    ensures Hits(start, end, number)
         == (if start <= 0 && start <= end then (if end > 0 then 0 else end) - start + 1 else 0)
            + (if start <= number <= end && number > 0 then 1 else 0)
    decreases end - start
  {
    if start <= end { HitsCount(start, end - 1, number); }
  }

  /** Every block of the range is asked for once and no other at all, exactly when the range is empty or
      starts at one or above. */
  lemma RangeExact(start: int, end: int)
    ensures (forall number: nat :: Hits(start, end, number) == if start <= number <= end then 1 else 0)
       <==> start >= 1 || end < start
  {
    forall number: nat
      ensures start >= 1 || end < start ==> Hits(start, end, number) == if start <= number <= end then 1 else 0
    {
      HitsCount(start, end, number);
    }
    if start <= 0 && start <= end {
      var beyond: nat := if end >= 0 then end + 1 else 0;
      HitsCount(start, end, beyond);
      assert Hits(start, end, beyond) != if start <= beyond <= end then 1 else 0;
    }
  }

  ghost function Found(rows: seq<Stored>, f: ReceiptFilter, start: int, end: int, s: Stored): nat {
    if s in rows && FilterWants(f, [], s.row) then multiset(rows)[s] * Hits(start, end, s.row.number) else 0
  }

  method RetrieveRange(rows: seq<Stored>, f: ReceiptFilter, start: int, end: int) returns (all: seq<Stored>)
    requires !OnlyLateTopics(f.topics) && forall i :: 0 <= i < |rows| ==> FromConverter(rows[i])
    ensures forall s :: multiset(all)[s] == Found(rows, f, start, end, s)
  {
    all := [];
    var i := start;
    while i <= end
      invariant start <= i && (start <= end ==> i <= end + 1) && (end < start ==> i == start)
      invariant forall s :: multiset(all)[s] == Found(rows, f, start, i - 1, s)
      decreases end - i
    {
      var rcts := RetrieveReceipts(rows, f, i, None);
      forall s ensures multiset(all + rcts)[s] == Found(rows, f, start, i, s) {
        OneMoreHeight(rows, f, start, i, s);
        assert multiset(all + rcts)[s] == multiset(all)[s] + multiset(rcts)[s];
      }
      all := all + rcts;
      i := i + 1;
    }
    assert forall s :: end < start ==> Found(rows, f, start, end, s) == Found(rows, f, start, start - 1, s);
  }

  lemma OneMoreHeight(rows: seq<Stored>, f: ReceiptFilter, start: int, i: int, s: Stored)
    requires start <= i
    ensures Found(rows, f, start, i, s) == Found(rows, f, start, i - 1, s)
            + if s in rows && (i > 0 ==> s.row.number == i) && FilterWants(f, [], s.row) then multiset(rows)[s] else 0
  {
    var m, h := multiset(rows)[s], Hits(start, i - 1, s.row.number);
    assert m * (h + 1) == m * h + m;
  }

  /** The logs of one receipt that pass the check, in order. */
  function Passing(wanted: seq<seq<string>>, logs: seq<Log>): seq<Log> {
    if logs == [] then []
    else
      var last := logs[|logs| - 1];
      Passing(wanted, logs[..|logs| - 1])
      + (if |last.topics| <= |wanted| && TopicsOk(wanted, last.topics) then [last] else [])
  }

  /** Those of all receipts. */
  function Kept(wanted: seq<seq<string>>, rcts: seq<Stored>): seq<Log> {
    if rcts == [] then [] else Kept(wanted, rcts[..|rcts| - 1]) + Passing(wanted, rcts[|rcts| - 1].logs)
  }

  method ExtractLogsOfInterest(rcts: seq<Stored>, wanted: seq<seq<string>>) returns (kept: seq<Log>)
    requires |wanted| == 4
    requires forall i :: 0 <= i < |rcts| ==> AtMostFour(rcts[i].logs)
    ensures kept == Kept(wanted, rcts)
  {
    kept := [];
    for i := 0 to |rcts|
      invariant kept == Kept(wanted, rcts[..i])
    {
      ghost var before := kept;
      var own := rcts[i].logs;
      for k := 0 to |own|
        invariant kept == before + Passing(wanted, own[..k])
      {
        assert own[..k + 1][..k] == own[..k];
        var w := WantedLog(wanted, own[k].topics);
        if w { kept := kept + [own[k]]; }
      }
      assert own[..|own|] == own && rcts[..i + 1][..i] == rcts[..i];
    }
    assert rcts[..|rcts|] == rcts;
  }

  lemma {:induction false} PassingMembers(wanted: seq<seq<string>>, logs: seq<Log>, log: Log)
    ensures log in Passing(wanted, logs) <==> log in logs && |log.topics| <= |wanted| && TopicsOk(wanted, log.topics)
  {
    if logs != [] { PassingMembers(wanted, logs[..|logs| - 1], log); }
  }

  lemma {:induction false} KeptMembers(wanted: seq<seq<string>>, rcts: seq<Stored>, log: Log)
    ensures log in Kept(wanted, rcts) <==>
            |log.topics| <= |wanted| && TopicsOk(wanted, log.topics) && Held(rcts, log)
  {
    if rcts != [] {
      var last := |rcts| - 1;
      KeptMembers(wanted, rcts[..last], log);
      PassingMembers(wanted, rcts[last].logs, log);
    }
  }

  /** Some receipt has the log. */
  predicate Held(rcts: seq<Stored>, log: Log) {
    exists i :: 0 <= i < |rcts| && log in rcts[i].logs
  }

  lemma FilterOfIsSql(crit: Criteria)
    ensures !OnlyLateTopics(FilterOf(crit).topics) && |FilterOf(crit).topics| == 4
  {
    var topics := FilterOf(crit).topics;
    if HasTopics(topics) {
      var i :| 0 <= i < |topics| && |topics[i]| > 0;
      assert Asked(topics, i);
    }
  }

  // ----- what is returned -----

  /** Some log of the receipt has a wanted address, if any is given, and for each topic asked for at one
      of the first four positions some log, not always the same one, has a wanted topic there. */
  ghost predicate ReceiptAnswers(crit: Criteria, logs: seq<Log>) {
    && (crit.addresses == [] || exists l :: l in logs && l.address in crit.addresses)
    && forall n :: 0 <= n < 4 && n < |crit.topics| && crit.topics[n] != [] ==> SomeTopic(crit.topics[n], logs, n)
  }

  ghost predicate SomeTopic(wanted: seq<string>, logs: seq<Log>, n: nat) {
    exists l :: l in logs && n < |l.topics| && l.topics[n] in wanted
  }

  /** The log is the receipt's own, and none of its topics is unwanted at its position. */
  ghost predicate Answers(crit: Criteria, s: Stored, log: Log) {
    && ReceiptAnswers(crit, s.logs) && log in s.logs
    && forall n :: 0 <= n < |log.topics| && n < |crit.topics| && crit.topics[n] != [] ==>
         log.topics[n] in crit.topics[n]
  }

  lemma AddressColumn(s: Stored, addresses: seq<string>)
    requires FromConverter(s)
    ensures Overlaps(s.row.logContracts, addresses) <==> exists l :: l in s.logs && l.address in addresses
  {
    SharedIs(s.row.logContracts.value, addresses);
    if l :| l in s.logs && l.address in addresses {
      var i :| 0 <= i < |s.logs| && s.logs[i] == l;
      assert l.address in s.row.logContracts.value;
    }
  }

  lemma ColumnOfTopics(s: Stored, wanted: seq<string>, n: nat)
    requires FromConverter(s) && n < 4
    ensures Overlaps(s.row.topics[n], wanted) <==> SomeTopic(wanted, s.logs, n)
  {
    var column := TopicsAt(s.logs, n);
    SharedIs(column, wanted);
    forall t { TopicsAtHolds(s.logs, n, t); }
    if Overlaps(s.row.topics[n], wanted) {
      var t :| t in column && t in wanted;
    }
    if SomeTopic(wanted, s.logs, n) {
      var l :| l in s.logs && n < |l.topics| && l.topics[n] in wanted;
      assert l.topics[n] in column;
    }
  }

  /** The query over the metadata asks just that of the receipt's logs. */
  lemma QueryAsksLogs(crit: Criteria, s: Stored)
    requires FromConverter(s)
    ensures FilterWants(FilterOf(crit), [], s.row) <==> ReceiptAnswers(crit, s.logs)
  {
    var f := FilterOf(crit);
    AddressColumn(s, crit.addresses);
    forall n: nat | n < 4
      ensures Asked(f.topics, n) <==> n < |crit.topics| && crit.topics[n] != []
      ensures Asked(f.topics, n) ==> (Overlaps(s.row.topics[n], f.topics[n]) <==> SomeTopic(crit.topics[n], s.logs, n))
    {
      assert f.topics[n] == Slot(crit, n);
      ColumnOfTopics(s, f.topics[n], n);
    }
    NoneAskedIs(f.topics);
  }

  lemma CheckAsksLog(crit: Criteria, log: Log)
    requires |log.topics| <= 4
    ensures TopicsOk(FilterOf(crit).topics, log.topics) <==>
            forall n :: 0 <= n < |log.topics| && n < |crit.topics| && crit.topics[n] != [] ==>
              log.topics[n] in crit.topics[n]
  {
    assert forall n :: 0 <= n < 4 ==> FilterOf(crit).topics[n] == Slot(crit, n);
  }

  /** The receipts retrieved are those of the covered blocks that the filter wants. */
  ghost predicate Retrieved(rows: seq<Stored>, crit: Criteria, covered: Joined -> bool, rcts: seq<Stored>) {
    forall s :: s in rcts <==> s in rows && FilterWants(FilterOf(crit), [], s.row) && covered(s.row)
  }

  /** The logs are those that answer the criteria in a covered block, all of them and no others. */
  ghost predicate AllAnswers(rows: seq<Stored>, crit: Criteria, covered: Joined -> bool, logs: seq<Log>) {
    forall log :: log in logs <==> exists s :: s in rows && covered(s.row) && Answers(crit, s, log)
  }

  lemma KeptAnswers(rows: seq<Stored>, crit: Criteria, covered: Joined -> bool, rcts: seq<Stored>)
    requires forall i :: 0 <= i < |rows| ==> FromConverter(rows[i])
    requires Retrieved(rows, crit, covered, rcts)
    ensures AllAnswers(rows, crit, covered, Kept(FilterOf(crit).topics, rcts))
  {
    forall log
      ensures log in Kept(FilterOf(crit).topics, rcts) <==>
              exists s :: s in rows && covered(s.row) && Answers(crit, s, log)
    {
      KeptMembers(FilterOf(crit).topics, rcts, log);
      if log in Kept(FilterOf(crit).topics, rcts) {
        var n :| 0 <= n < |rcts| && log in rcts[n].logs;
        OneAnswers(rows, crit, rcts[n], log);
      }
      if s :| s in rows && covered(s.row) && Answers(crit, s, log) {
        OneAnswers(rows, crit, s, log);
        var n :| 0 <= n < |rcts| && rcts[n] == s;
        assert Held(rcts, log);
      }
    }
  }

  lemma OneAnswers(rows: seq<Stored>, crit: Criteria, s: Stored, log: Log)
    requires forall i :: 0 <= i < |rows| ==> FromConverter(rows[i])
    requires s in rows && log in s.logs
    ensures |log.topics| <= 4
    ensures Answers(crit, s, log) <==>
            FilterWants(FilterOf(crit), [], s.row) && TopicsOk(FilterOf(crit).topics, log.topics)
  {
    var i :| 0 <= i < |rows| && rows[i] == s;
    var k :| 0 <= k < |s.logs| && s.logs[k] == log;
    QueryAsksLogs(crit, s);
    CheckAsksLog(crit, log);
  }

  /** A log that matches the criteria answers them. */
  lemma MatchAnswers(crit: Criteria, s: Stored, log: Log)
    requires log in s.logs && Matches(crit, log)
    ensures Answers(crit, s, log)
  {
  }

  /** A range covers the blocks from start to end, and all blocks if it has a height below one. */
  predicate Covers(start: int, end: int, row: Joined) {
    start <= end && (start <= row.number <= end || start < 1)
  }

  lemma RangeRetrieves(rows: seq<Stored>, crit: Criteria, start: int, end: int, rcts: seq<Stored>)
    requires forall i :: 0 <= i < |rows| ==> rows[i].row.number >= 0
    requires forall s :: multiset(rcts)[s] == Found(rows, FilterOf(crit), start, end, s)
    ensures Retrieved(rows, crit, (row: Joined) => Covers(start, end, row), rcts)
  {
    forall s
      ensures s in rcts <==> s in rows && FilterWants(FilterOf(crit), [], s.row) && Covers(start, end, s.row)
    {
      assert s in rcts <==> multiset(rcts)[s] > 0;
      assert s in rows <==> multiset(rows)[s] > 0;
      HitsCount(start, end, s.row.number);
    }
  }

  /** `first` and `last` are the stored first and last heights, if they can be read. */
  method GetLogs(rows: seq<Stored>, crit: Criteria, first: Option<int>,
                 last: Option<int>)
    returns (r: Result<seq<Log>, string>)
    requires forall i :: 0 <= i < |rows| ==> FromConverter(rows[i]) && rows[i].row.number >= 0
    ensures r.Err? <==>
            crit.blockHash.None? && ((crit.fromBlock.None? && first.None?) || (crit.toBlock.None? && last.None?))
    ensures r.Ok? && crit.blockHash.Some? ==>
              AllAnswers(rows, crit, (row: Joined) => row.hash == crit.blockHash.value, r.value)
    ensures r.Ok? && crit.blockHash.None? ==>
              var start := if crit.fromBlock.Some? then crit.fromBlock.value else first.value;
              var end := if crit.toBlock.Some? then crit.toBlock.value else last.value;
              AllAnswers(rows, crit, (row: Joined) => start <= end && (start <= row.number <= end || start < 1),
                         r.value)
  {
    var filter := Translate(crit);
    FilterOfIsSql(crit);
    var rcts: seq<Stored>;
    if crit.blockHash.Some? {
      rcts := RetrieveReceipts(rows, filter, 0, crit.blockHash);
      HashRetrieves(rows, crit, rcts);
      KeptAnswers(rows, crit, (row: Joined) => row.hash == crit.blockHash.value, rcts);
    } else {
      var start, end;
      if crit.fromBlock.Some? {
        start := crit.fromBlock.value;
      } else {
        if first.None? { return Err("no first block"); }
        start := first.value;
      }
      if crit.toBlock.Some? {
        end := crit.toBlock.value;
      } else {
        if last.None? { return Err("no last block"); }
        end := last.value;
      }
      rcts := RetrieveRange(rows, filter, start, end);
      RangeRetrieves(rows, crit, start, end, rcts);
      KeptAnswers(rows, crit, (row: Joined) => Covers(start, end, row), rcts);
    }
    assert forall i :: 0 <= i < |rcts| ==> rcts[i] in rows;
    var logs := ExtractLogsOfInterest(rcts, filter.topics);
    r := Ok(logs);
  }

  lemma HashRetrieves(rows: seq<Stored>, crit: Criteria, rcts: seq<Stored>)
    requires crit.blockHash.Some?
    requires forall s :: multiset(rcts)[s] ==
               if s in rows && s.row.hash == crit.blockHash.value && FilterWants(FilterOf(crit), [], s.row)
               then multiset(rows)[s] else 0
    ensures Retrieved(rows, crit, (row: Joined) => row.hash == crit.blockHash.value, rcts)
  {
    forall s
      ensures s in rcts <==> s in rows && FilterWants(FilterOf(crit), [], s.row) && s.row.hash == crit.blockHash.value
    {
      assert s in rcts <==> multiset(rcts)[s] > 0;
      assert s in rows <==> multiset(rows)[s] > 0;
    }
  }
}
