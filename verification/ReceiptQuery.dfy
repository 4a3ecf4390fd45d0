/** The receipt queries: a WHERE clause assembled piece by piece as text, and read back by parsing it. */
module ReceiptQuery {
  import opened Common
  import opened SqlText

  datatype ReceiptFilter = ReceiptFilter(
    off: bool, matchTxs: bool, logAddresses: seq<string>, topics: seq<seq<string>>)

  /** The tests that occur in the clause; `p` is the number of a `$p` placeholder. */
  datatype Condition =
    | ReceiptOfTx
    | TxOfHeader
    | HeaderIdIs(p: nat)
    | NumberIs(p: nat)
    | HashIs(p: nat)
    | LogContractsShare(p: nat)
    | TopicsShare(slot: nat, p: nat)
    | TxIdIn(p: nat)

  datatype Arg = Id(n: int) | Text(s: string) | Texts(ss: seq<string>) | Ids(ns: seq<int>)

  /** One row of the cross product of receipt_cids, transaction_cids and header_cids.
      An array column is None when it is NULL. */
  datatype Joined = Joined(
    rctTxId: int, logContracts: Option<seq<string>>, topics: seq<Option<seq<string>>>,
    txId: int, txHeaderId: int,
    headerId: int, number: int, hash: string)

  function Overlap(column: Option<seq<string>>, wanted: seq<string>): Tri {
    if column.None? then Unknown else Lift(Share(column.value, wanted))
  }

  function Bound(args: seq<Arg>, p: nat): Option<Arg> {
    if 1 <= p <= |args| then Some(args[p - 1]) else None
  }

  function Holds(c: Condition, args: seq<Arg>, j: Joined): Tri {
    match c
    case ReceiptOfTx => Lift(j.rctTxId == j.txId)
    case TxOfHeader => Lift(j.txHeaderId == j.headerId)
    case HeaderIdIs(p) => (match Bound(args, p) case Some(Id(n)) => Lift(j.headerId == n) case _ => Unknown)
    case NumberIs(p) => (match Bound(args, p) case Some(Id(n)) => Lift(j.number == n) case _ => Unknown)
    case HashIs(p) => (match Bound(args, p) case Some(Text(s)) => Lift(j.hash == s) case _ => Unknown)
    case LogContractsShare(p) =>
      (match Bound(args, p) case Some(Texts(ss)) => Overlap(j.logContracts, ss) case _ => Unknown)
    case TopicsShare(i, p) =>
      (match Bound(args, p)
       case Some(Texts(ss)) => if i < |j.topics| then Overlap(j.topics[i], ss) else Unknown
       case _ => Unknown)
    case TxIdIn(p) => (match Bound(args, p) case Some(Ids(ns)) => Lift(j.rctTxId in ns) case _ => Unknown)
  }

  function Valuation(args: seq<Arg>, j: Joined): Condition -> Tri {
    c => Holds(c, args, j)
  }

  function Placeholder(c: Condition): seq<int> {
    match c
    case ReceiptOfTx => []
    case TxOfHeader => []
    case HeaderIdIs(p) => [p]
    case NumberIs(p) => [p]
    case HashIs(p) => [p]
    case LogContractsShare(p) => [p]
    case TopicsShare(_, p) => [p]
    case TxIdIn(p) => [p]
  }

  function Placeholders(t: seq<Token<Condition>>): seq<int> {
    if t == [] then []
    else (if t[0].Test? then Placeholder(t[0].a) else []) + Placeholders(t[1..])
  }

  // ----- what the clause is meant to select -----

  predicate HasTopics(topics: seq<seq<string>>) {
    exists i :: 0 <= i < |topics| && |topics[i]| > 0
  }

  /** A slot the query looks at: only the first four are. */
  predicate Asked(topics: seq<seq<string>>, i: int) {
    0 <= i < 4 && i < |topics| && |topics[i]| > 0
  }

  /** Topics are wanted, but only in slots the query does not look at: the text then holds `()`. */
  predicate OnlyLateTopics(topics: seq<seq<string>>) {
    NoneAsked(topics) && exists i :: 4 <= i < |topics| && topics[i] != []
  }

  predicate NoneAsked(topics: seq<seq<string>>) {
    forall i :: 0 <= i < 4 && i < |topics| ==> topics[i] == []
  }

  predicate Overlaps(column: Option<seq<string>>, wanted: seq<string>) {
    column.Some? && Share(column.value, wanted)
  }

  ghost predicate TopicsWanted(topics: seq<seq<string>>, j: Joined) {
    forall i :: Asked(topics, i) ==> i < |j.topics| && Overlaps(j.topics[i], topics[i])
  }

  ghost predicate FilterWants(f: ReceiptFilter, trxIds: seq<int>, j: Joined) {
    var byTx := f.matchTxs && |trxIds| > 0;
    if f.logAddresses == [] && NoneAsked(f.topics) then
      byTx ==> j.rctTxId in trxIds
    else
      || (byTx && j.rctTxId in trxIds)
      || ((f.logAddresses == [] || Overlaps(j.logContracts, f.logAddresses)) && TopicsWanted(f.topics, j))
  }

  // ----- the text of the filter part as a tree -----

  /** Number of asked-for slots among the first i. */
  function Slots(topics: seq<seq<string>>, i: nat): nat
    requires i <= |topics|
  {
    if i == 0 then 0 else Slots(topics, i - 1) + (if Asked(topics, i - 1) then 1 else 0)
  }

  /** From placeholder k on, the asked-for slots among the first i are bound to their topics. */
  ghost predicate SlotsBound(topics: seq<seq<string>>, i: nat, k: nat, args: seq<Arg>)
    requires i <= |topics|
  {
    && k >= 1
    && forall s :: 0 <= s < i && Asked(topics, s) ==> Bound(args, k + Slots(topics, s)) == Some(Texts(topics[s]))
  }

  /** The conjunction over the asked-for slots among the first i, numbered from k. */
  function Chain(topics: seq<seq<string>>, i: nat, k: nat): (e: Option<Expr<Condition>>)
    requires i <= |topics|
    ensures e.Some? ==> IsConjunction(e.value) && IsDisjunction(e.value)
    ensures e.Some? <==> Slots(topics, i) > 0
  {
    if i == 0 then None
    else
      var before := Chain(topics, i - 1, k);
      if Asked(topics, i - 1) then
        var test := Atom(TopicsShare(i - 1, k + Slots(topics, i - 1)));
        Some(if before.Some? then Conj(before.value, test) else test)
      else before
  }

  function ChainText(topics: seq<seq<string>>, i: nat, k: nat): seq<Token<Condition>>
    requires i <= |topics|
  {
    match Chain(topics, i, k) case Some(e) => Print(e) case None => []
  }

  lemma {:induction false} SlotsCountAsked(topics: seq<seq<string>>, i: nat)
    requires i <= |topics|
    ensures Slots(topics, i) > 0 <==> exists s :: 0 <= s < i && Asked(topics, s)
  {
    if i > 0 {
      SlotsCountAsked(topics, i - 1);
      if Slots(topics, i - 1) > 0 {
        var s :| 0 <= s < i - 1 && Asked(topics, s);
      }
    }
  }

  ghost predicate SlotsWanted(topics: seq<seq<string>>, i: nat, j: Joined)
    requires i <= |topics|
  {
    forall s :: 0 <= s < i && Asked(topics, s) ==> s < |j.topics| && Overlaps(j.topics[s], topics[s])
  }

  lemma {:induction false} ChainMeaning(topics: seq<seq<string>>, i: nat, k: nat, args: seq<Arg>, j: Joined)
    requires i <= |topics| && SlotsBound(topics, i, k, args)
    requires Chain(topics, i, k).Some?
    ensures Eval(Chain(topics, i, k).value, Valuation(args, j)) == True <==> SlotsWanted(topics, i, j)
  {
    var val := Valuation(args, j);
    if Slots(topics, i - 1) > 0 {
      ChainMeaning(topics, i - 1, k, args, j);
    } else {
      SlotsCountAsked(topics, i - 1);
    }
    if Asked(topics, i - 1) {
      assert val(TopicsShare(i - 1, k + Slots(topics, i - 1))) == True
        <==> i - 1 < |j.topics| && Overlaps(j.topics[i - 1], topics[i - 1]);
    }
    assert SlotsWanted(topics, i, j) <==>
      SlotsWanted(topics, i - 1, j) &&
      (Asked(topics, i - 1) ==> i - 1 < |j.topics| && Overlaps(j.topics[i - 1], topics[i - 1]));
  }

  lemma {:induction false} PlaceholdersSplit(s: seq<Token<Condition>>, t: seq<Token<Condition>>)
    ensures Placeholders(s + t) == Placeholders(s) + Placeholders(t)
  {
    if s == [] {
      assert s + t == t;
    } else {
      assert (s + t)[1..] == s[1..] + t;
      PlaceholdersSplit(s[1..], t);
    }
  }

  lemma ChainGrows(topics: seq<seq<string>>, i: nat, k: nat)
    requires i < |topics|
    ensures ChainText(topics, i + 1, k) ==
            if !Asked(topics, i) then ChainText(topics, i, k)
            else ChainText(topics, i, k) + (if Chain(topics, i, k).None? then [] else [And])
                 + [Test(TopicsShare(i, k + Slots(topics, i)))]
  {
    assert Print(Atom(TopicsShare(i, k + Slots(topics, i)))) == [Test(TopicsShare(i, k + Slots(topics, i)))];
  }

  /** The first i topic sets were gone through: text and arguments of the asked-for slots are appended. */
  ghost predicate Appended(pre: seq<Token<Condition>>, preArgs: seq<Arg>, topics: seq<seq<string>>, i: nat,
                           text: seq<Token<Condition>>, args: seq<Arg>)
    requires i <= |topics|
  {
    && text == pre + ChainText(topics, i, |preArgs| + 1)
    && preArgs <= args && |args| == |preArgs| + Slots(topics, i)
    && SlotsBound(topics, i, |preArgs| + 1, args)
  }

  lemma TopicAppended(pre: seq<Token<Condition>>, preArgs: seq<Arg>, topics: seq<seq<string>>, i: nat,
                      text: seq<Token<Condition>>, args: seq<Arg>)
    requires i < |topics| && Appended(pre, preArgs, topics, i, text, args)
    ensures !Asked(topics, i) ==> Appended(pre, preArgs, topics, i + 1, text, args)
    ensures Asked(topics, i) ==>
              var test := Test(TopicsShare(i, |args| + 1));
              Appended(pre, preArgs, topics, i + 1, text + (if Slots(topics, i) == 0 then [test] else [And, test]),
                       args + [Texts(topics[i])])
  {
    var k := |preArgs| + 1;
    ChainGrows(topics, i, k);
    if Asked(topics, i) {
      SlotBound(topics, i, k, args);
      var test, chain := Test(TopicsShare(i, |args| + 1)), ChainText(topics, i, k);
      if Slots(topics, i) == 0 {
        assert text + [test] == pre + (chain + [] + [test]);
      } else {
        assert text + [And, test] == pre + (chain + [And] + [test]);
      }
    }
  }

  lemma SlotBound(topics: seq<seq<string>>, i: nat, k: nat, args: seq<Arg>)
    requires i < |topics| && SlotsBound(topics, i, k, args) && |args| + 1 == k + Slots(topics, i)
    ensures SlotsBound(topics, i + 1, k, args + [Texts(topics[i])])
  {
    forall s | 0 <= s < i && Asked(topics, s)
      ensures Bound(args + [Texts(topics[i])], k + Slots(topics, s)) == Some(Texts(topics[s]))
    {
      assert Bound(args, k + Slots(topics, s)) == Some(Texts(topics[s]));
    }
  }

  /** The loop over topic sets: one overlap test per asked-for slot, joined by AND. */
  method AppendTopics(pre: seq<Token<Condition>>, preArgs: seq<Arg>, topics: seq<seq<string>>)
    returns (text: seq<Token<Condition>>, args: seq<Arg>)
    ensures text == pre + ChainText(topics, |topics|, |preArgs| + 1)
    ensures preArgs <= args && |args| == |preArgs| + Slots(topics, |topics|)
    ensures SlotsBound(topics, |topics|, |preArgs| + 1, args)
  {
    text, args := pre, preArgs;
    var id := |preArgs| + 1;
    var first := true;
    for i := 0 to |topics|
      invariant Appended(pre, preArgs, topics, i, text, args)
      invariant first <==> Slots(topics, i) == 0
      invariant id == |args| + 1
    {
      TopicAppended(pre, preArgs, topics, i, text, args);
      if i < 4 && |topics[i]| > 0 {
        if first {
          text := text + [Test(TopicsShare(i, id))];
          first := false;
        } else {
          text := text + [And, Test(TopicsShare(i, id))];
        }
        args := args + [Texts(topics[i])];
        id := id + 1;
      }
    }
  }

  // ----- the whole filter part -----

  /** The address and topic tests; `k` is the first free placeholder. */
  function Tests(f: ReceiptFilter, k: nat): (e: Expr<Condition>)
    requires f.logAddresses != [] || HasTopics(f.topics)
    requires HasTopics(f.topics) ==> Slots(f.topics, |f.topics|) > 0
    ensures IsDisjunction(e)
  {
    if f.logAddresses == [] then Chain(f.topics, |f.topics|, k).value
    else if !HasTopics(f.topics) then Atom(LogContractsShare(k))
    else
      var group := Paren(Chain(f.topics, |f.topics|, k + 1).value);
      var both := Conj(Atom(LogContractsShare(k)), group);
      assert IsPrimary(both.l) && IsConjunction(both.l) && IsPrimary(group) && IsConjunction(both);
      both
  }

  /** `((tests) OR tx_id = ANY($p))`, or `((tests))`. */
  function Grouped(tests: Expr<Condition>, byTx: bool, p: nat): (e: Expr<Condition>)
    requires IsDisjunction(tests)
    ensures IsPrimary(e)
  {
    var wanted := Paren(tests);
    assert IsPrimary(wanted) && IsConjunction(wanted) && IsDisjunction(wanted);
    assert IsPrimary(Atom(TxIdIn(p))) && IsConjunction(Atom(TxIdIn(p)));
    var all := if byTx then Disj(wanted, Atom(TxIdIn(p))) else wanted;
    assert IsDisjunction(all);
    Paren(all)
  }

  /** The clause as a tree; `k` is the first free placeholder. */
  function Clause(scope: Expr<Condition>, f: ReceiptFilter, byTx: bool, k: nat): (e: Expr<Condition>)
    requires IsConjunction(scope)
    requires HasTopics(f.topics) ==> Slots(f.topics, |f.topics|) > 0
    ensures IsConjunction(e)
  {
    if f.logAddresses != [] || HasTopics(f.topics) then Conj(scope, Grouped(Tests(f, k), byTx, TxPlace(f, k)))
    else if byTx then Conj(scope, Atom(TxIdIn(k)))
    else scope
  }

  /** The placeholder of the transaction ids. */
  function TxPlace(f: ReceiptFilter, k: nat): nat {
    k + (if f.logAddresses != [] then 1 else 0) + Slots(f.topics, |f.topics|)
  }

  lemma LateTopics(topics: seq<seq<string>>)
    ensures OnlyLateTopics(topics) <==> HasTopics(topics) && Slots(topics, |topics|) == 0
  {
    SlotsCountAsked(topics, |topics|);
    NoneAskedIs(topics);
    if HasTopics(topics) && NoneAsked(topics) {
      var i :| 0 <= i < |topics| && |topics[i]| > 0;
      assert 4 <= i && topics[i] != [];
    }
  }

  lemma NoneAskedIs(topics: seq<seq<string>>)
    ensures NoneAsked(topics) <==> forall i :: 0 <= i < |topics| ==> !Asked(topics, i)
    ensures !HasTopics(topics) ==> NoneAsked(topics)
  {
    if i :| 0 <= i < 4 && i < |topics| && topics[i] != [] { assert Asked(topics, i); }
  }

  /** The arguments the filter part needs are bound where `Clause` looks for them. */
  ghost predicate FilterBound(f: ReceiptFilter, trxIds: seq<int>, k: nat, args: seq<Arg>) {
    && (f.logAddresses != [] ==> Bound(args, k) == Some(Texts(f.logAddresses)))
    && SlotsBound(f.topics, |f.topics|, k + (if f.logAddresses != [] then 1 else 0), args)
    && (f.matchTxs && |trxIds| > 0 ==> Bound(args, TxPlace(f, k)) == Some(Ids(trxIds)))
  }

  lemma TestsMeaning(f: ReceiptFilter, trxIds: seq<int>, k: nat, args: seq<Arg>, j: Joined)
    requires f.logAddresses != [] || HasTopics(f.topics)
    requires HasTopics(f.topics) ==> Slots(f.topics, |f.topics|) > 0
    requires FilterBound(f, trxIds, k, args)
    ensures Eval(Tests(f, k), Valuation(args, j)) == True
       <==> (f.logAddresses == [] || Overlaps(j.logContracts, f.logAddresses)) && TopicsWanted(f.topics, j)
  {
    var n := |f.topics|;
    if f.logAddresses == [] {
      ChainMeaning(f.topics, n, k, args, j);
    } else {
      LogsMeaning(f, k, args, j);
      if HasTopics(f.topics) {
        ChainMeaning(f.topics, n, k + 1, args, j);
        GroupedConjunct(LogContractsShare(k), Chain(f.topics, n, k + 1).value, Valuation(args, j));
      }
    }
  }

  lemma LogsMeaning(f: ReceiptFilter, k: nat, args: seq<Arg>, j: Joined)
    requires Bound(args, k) == Some(Texts(f.logAddresses))
    ensures Eval(Atom(LogContractsShare(k)), Valuation(args, j)) == True <==> Overlaps(j.logContracts, f.logAddresses)
  {
  }

  lemma GroupedConjunct(c: Condition, e: Expr<Condition>, val: Condition -> Tri)
    ensures Eval(Conj(Atom(c), Paren(e)), val) == True <==> Eval(Atom(c), val) == True && Eval(e, val) == True
  {
    assert Eval(Paren(e), val) == Eval(e, val);
  }

  lemma GroupedMeaning(tests: Expr<Condition>, byTx: bool, p: nat, val: Condition -> Tri)
    requires IsDisjunction(tests)
    ensures Eval(Grouped(tests, byTx, p), val) == True <==> Eval(tests, val) == True || (byTx && val(TxIdIn(p)) == True)
  {
    var wanted := Paren(tests);
    var all := if byTx then Disj(wanted, Atom(TxIdIn(p))) else wanted;
    assert Grouped(tests, byTx, p) == Paren(all);
    assert Eval(wanted, val) == Eval(tests, val) && Eval(Atom(TxIdIn(p)), val) == val(TxIdIn(p));
    assert Eval(all, val) == if byTx then Or3(Eval(wanted, val), val(TxIdIn(p))) else Eval(wanted, val);
    assert Eval(Paren(all), val) == Eval(all, val);
  }

  lemma ClauseMeaning(scope: Expr<Condition>, f: ReceiptFilter, trxIds: seq<int>, k: nat, args: seq<Arg>, j: Joined)
    requires IsConjunction(scope)
    requires HasTopics(f.topics) ==> Slots(f.topics, |f.topics|) > 0
    requires FilterBound(f, trxIds, k, args)
    ensures Eval(Clause(scope, f, f.matchTxs && |trxIds| > 0, k), Valuation(args, j)) == True
       <==> Eval(scope, Valuation(args, j)) == True && FilterWants(f, trxIds, j)
  {
    var byTx := f.matchTxs && |trxIds| > 0;
    assert byTx ==> Valuation(args, j)(TxIdIn(TxPlace(f, k))) == Lift(j.rctTxId in trxIds);
    SlotsCountAsked(f.topics, |f.topics|);
    NoneAskedIs(f.topics);
    if f.logAddresses != [] || HasTopics(f.topics) {
      TestsMeaning(f, trxIds, k, args, j);
      GroupedMeaning(Tests(f, k), byTx, TxPlace(f, k), Valuation(args, j));
    } else {
      assert TxPlace(f, k) == k;
    }
  }

  // ----- the text with an empty group is not SQL -----

  lemma EmptyGroup(rest: seq<Token<Condition>>)
    ensures ParsePrimary([Open, Close] + rest) == None
  {
    var t := [Open, Close] + rest;
    assert t[1..][0] == Close;
    assert ParsePrimary(t[1..]) == None;
    assert ParseConjunction(t[1..]) == None;
  }

  lemma EmptyGroupFails(t: seq<Token<Condition>>)
    requires ParsePrimary(t) == None
    ensures ParseConjunction(t) == None && ParsePrimary([Open] + t) == None
  {
    assert ([Open] + t)[1..] == t;
    assert ParseConjunction(t) == None;
    assert ParseDisjunction(t) == None;
  }

  /** `( () ...` fails to parse wherever the scope ends. */
  lemma BrokenTopics(scope: Expr<Condition>, rest: seq<Token<Condition>>)
    requires IsConjunction(scope)
    ensures Parse(Print(scope) + [And, Open, Open, Close] + rest) == None
  {
    EmptyGroup(rest);
    var empty := [Open, Close] + rest;
    EmptyGroupFails(empty);
    FailsAfterScope(scope, [Open] + empty);
    assert Print(scope) + ([And] + ([Open] + empty)) == Print(scope) + [And, Open, Open, Close] + rest;
  }

  /** `( (log AND () ...` does too. */
  lemma BrokenLogs(scope: Expr<Condition>, logs: Condition, rest: seq<Token<Condition>>)
    requires IsConjunction(scope)
    ensures Parse(Print(scope) + [And, Open, Open, Test(logs), And, Open, Close] + rest) == None
  {
    EmptyGroup(rest);
    var u := [Test(logs), And] + ([Open, Close] + rest);
    assert u[1..][1..] == [Open, Close] + rest;
    assert MoreConjuncts(Atom(logs), u[1..]) == None;
    assert ParsePrimary(u) == Some(Parsed(Atom(logs), u[1..]));
    assert ParseConjunction(u) == None && ParseDisjunction(u) == None;
    assert ([Open] + u)[1..] == u;
    assert ParsePrimary([Open] + u) == None;
    EmptyGroupFails([Open] + u);
    FailsAfterScope(scope, [Open] + ([Open] + u));
    assert Print(scope) + ([And] + ([Open] + ([Open] + u)))
        == Print(scope) + [And, Open, Open, Test(logs), And, Open, Close] + rest;
  }

  lemma FailsAfterScope(scope: Expr<Condition>, t: seq<Token<Condition>>)
    requires IsConjunction(scope) && ParsePrimary(t) == None
    ensures Parse(Print(scope) + ([And] + t)) == None
  {
    ParsesConjunction(scope, [And] + t);
    assert ([And] + t)[1..] == t;
  }

  // ----- building the text -----

  /** What a finished receipt query guarantees: tidy text; a syntax error exactly when topics are
      wanted only beyond the fourth slot; otherwise true of exactly the joined rows in scope that
      the filter wants. */
  ghost predicate Compiled(scope: Expr<Condition>, f: ReceiptFilter, trxIds: seq<int>,
                           text: seq<Token<Condition>>, args: seq<Arg>)
  {
    && Balanced(text)
    && Placeholders(text) == Range(1, |args| + 1)
    && (Parse(text).None? <==> OnlyLateTopics(f.topics))
    && forall j :: Parse(text).Some? ==>
         (Eval(Parse(text).value, Valuation(args, j)) == True
          <==> Eval(scope, Valuation(args, j)) == True && FilterWants(f, trxIds, j))
  }

  function TestsText(f: ReceiptFilter, k: nat): seq<Token<Condition>> {
    if f.logAddresses == [] then ChainText(f.topics, |f.topics|, k)
    else if !HasTopics(f.topics) then [Test(LogContractsShare(k))]
    else [Test(LogContractsShare(k)), And, Open] + ChainText(f.topics, |f.topics|, k + 1) + [Close]
  }

  function GroupText(tests: seq<Token<Condition>>, byTx: bool, p: nat): seq<Token<Condition>> {
    [Open, Open] + tests + [Close] + (if byTx then [Or, Test(TxIdIn(p))] else []) + [Close]
  }

  function ClauseText(pre: seq<Token<Condition>>, f: ReceiptFilter, byTx: bool, k: nat): seq<Token<Condition>> {
    if f.logAddresses != [] || HasTopics(f.topics) then
      pre + [And] + GroupText(TestsText(f, k), byTx, TxPlace(f, k))
    else if byTx then pre + [And] + [Test(TxIdIn(k))]
    else pre
  }

  lemma TestsPrint(f: ReceiptFilter, k: nat)
    requires f.logAddresses != [] || HasTopics(f.topics)
    requires HasTopics(f.topics) ==> Slots(f.topics, |f.topics|) > 0
    ensures Print(Tests(f, k)) == TestsText(f, k)
  {
    if f.logAddresses != [] && HasTopics(f.topics) {
      var group := Paren(Chain(f.topics, |f.topics|, k + 1).value);
      assert Print(Atom(LogContractsShare(k))) == [Test(LogContractsShare(k))];
      assert Print(group) == [Open] + ChainText(f.topics, |f.topics|, k + 1) + [Close];
    }
  }

  lemma GroupPrints(tests: Expr<Condition>, byTx: bool, p: nat)
    requires IsDisjunction(tests)
    ensures Print(Grouped(tests, byTx, p)) == GroupText(Print(tests), byTx, p)
  {
    var wanted := Paren(tests);
    var all := if byTx then Disj(wanted, Atom(TxIdIn(p))) else wanted;
    assert Print(wanted) == [Open] + Print(tests) + [Close];
    if byTx {
      assert Print(all) == Print(wanted) + [Or] + Print(Atom(TxIdIn(p)));
    }
    assert Print(Paren(all)) == [Open] + Print(all) + [Close];
  }

  lemma ClauseTextPrints(scope: Expr<Condition>, f: ReceiptFilter, byTx: bool, k: nat)
    requires IsConjunction(scope)
    requires HasTopics(f.topics) ==> Slots(f.topics, |f.topics|) > 0
    ensures ClauseText(Print(scope), f, byTx, k) == Print(Clause(scope, f, byTx, k))
  {
    if f.logAddresses != [] || HasTopics(f.topics) {
      TestsPrint(f, k);
      GroupPrints(Tests(f, k), byTx, TxPlace(f, k));
    } else if byTx {
      assert Print(Atom(TxIdIn(k))) == [Test(TxIdIn(k))];
    }
  }

  lemma ClauseTextBreaks(scope: Expr<Condition>, f: ReceiptFilter, byTx: bool, k: nat)
    requires IsConjunction(scope)
    requires HasTopics(f.topics) && Slots(f.topics, |f.topics|) == 0
    ensures Parse(ClauseText(Print(scope), f, byTx, k)).None?
  {
    var tx := if byTx then [Or, Test(TxIdIn(TxPlace(f, k)))] else [];
    if f.logAddresses == [] {
      BrokenTopics(scope, tx + [Close]);
      assert Print(scope) + [And, Open, Open, Close] + (tx + [Close]) == ClauseText(Print(scope), f, byTx, k);
    } else {
      var logs := LogContractsShare(k);
      BrokenLogs(scope, logs, [Close] + tx + [Close]);
      assert Print(scope) + [And, Open, Open, Test(logs), And, Open, Close] + ([Close] + tx + [Close])
          == ClauseText(Print(scope), f, byTx, k);
    }
  }

  // ----- placeholders and parentheses of the text -----

  /** The text uses $lo, ..., $(hi-1) once each in this order and returns to the depth it starts at. */
  ghost predicate Tidy(text: seq<Token<Condition>>, lo: nat, hi: nat) {
    && lo <= hi && Placeholders(text) == Range(lo, hi)
    && forall d: nat :: Nesting(text, d) == Some(d)
  }

  lemma TidyJoin(s: seq<Token<Condition>>, t: seq<Token<Condition>>, lo: nat, mid: nat, hi: nat)
    requires Tidy(s, lo, mid) && Tidy(t, mid, hi)
    ensures Tidy(s + t, lo, hi)
  {
    PlaceholdersSplit(s, t);
    assert Range(lo, mid) + Range(mid, hi) == Range(lo, hi);
    forall d: nat ensures Nesting(s + t, d) == Some(d) { NestingSplits(s, t, d); }
  }

  lemma TidyGroup(t: seq<Token<Condition>>, lo: nat, hi: nat)
    requires Tidy(t, lo, hi)
    ensures Tidy([Open] + t + [Close], lo, hi)
  {
    PlaceholdersSplit([Open] + t, [Close]);
    PlaceholdersSplit([Open], t);
    forall d: nat ensures Nesting([Open] + t + [Close], d) == Some(d) {
      NestingSplits([Open] + t, [Close], d);
      NestingSplits([Open], t, d);
    }
  }

  lemma TidyWord(t: Token<Condition>, lo: nat)
    ensures t == And || t == Or ==> Tidy([t], lo, lo)
    ensures t.Test? && Placeholder(t.a) == [] ==> Tidy([t], lo, lo)
    ensures t.Test? && Placeholder(t.a) == [lo] ==> Tidy([t], lo, lo + 1)
  {
    assert Placeholders([t]) == if t.Test? then Placeholder(t.a) else [];
  }

  lemma {:induction false} ChainTidy(topics: seq<seq<string>>, i: nat, k: nat)
    requires i <= |topics|
    ensures Tidy(ChainText(topics, i, k), k, k + Slots(topics, i))
  {
    if i > 0 {
      ChainTidy(topics, i - 1, k);
      ChainGrows(topics, i - 1, k);
      if Asked(topics, i - 1) {
        var n := k + Slots(topics, i - 1);
        TidyTest(ChainText(topics, i - 1, k), TopicsShare(i - 1, n), k, n);
      }
    }
  }

  /** A test joins tidy text, with or without an AND before it. */
  lemma TidyTest(before: seq<Token<Condition>>, c: Condition, k: nat, n: nat)
    requires Tidy(before, k, n) && Placeholder(c) == [n]
    ensures Tidy(before + [] + [Test(c)], k, n + 1) && Tidy(before + [And] + [Test(c)], k, n + 1)
  {
    TidyWord(And, n);
    TidyWord(Test(c), n);
    TidyJoin(before, [And], k, n, n);
    TidyJoin(before + [And], [Test(c)], k, n, n + 1);
    assert before + [] == before;
    TidyJoin(before, [Test(c)], k, n, n + 1);
  }

  lemma TestsTidy(f: ReceiptFilter, k: nat)
    requires f.logAddresses != [] || HasTopics(f.topics)
    ensures Tidy(TestsText(f, k), k, TxPlace(f, k))
  {
    var n := Slots(f.topics, |f.topics|);
    SlotsCountAsked(f.topics, |f.topics|);
    if f.logAddresses == [] {
      ChainTidy(f.topics, |f.topics|, k);
    } else {
      TidyWord(Test(LogContractsShare(k)), k);
      if HasTopics(f.topics) {
        ChainTidy(f.topics, |f.topics|, k + 1);
        TidyConjunct(LogContractsShare(k), ChainText(f.topics, |f.topics|, k + 1), k, k + 1 + n);
      }
    }
  }

  lemma TidyConjunct(c: Condition, chain: seq<Token<Condition>>, k: nat, hi: nat)
    requires Tidy([Test(c)], k, k + 1) && Tidy(chain, k + 1, hi)
    ensures Tidy([Test(c), And, Open] + chain + [Close], k, hi)
  {
    TidyGroup(chain, k + 1, hi);
    TidyWord(And, k + 1);
    TidyJoin([Test(c)], [And], k, k + 1, k + 1);
    TidyJoin([Test(c)] + [And], [Open] + chain + [Close], k, k + 1, hi);
    ConjunctText(c, chain);
  }

  lemma ConjunctText(c: Condition, chain: seq<Token<Condition>>)
    ensures [Test(c)] + [And] + ([Open] + chain + [Close]) == [Test(c), And, Open] + chain + [Close]
  {
  }

  lemma GroupTidy(tests: seq<Token<Condition>>, byTx: bool, k: nat, p: nat)
    requires Tidy(tests, k, p)
    ensures Tidy(GroupText(tests, byTx, p), k, if byTx then p + 1 else p)
  {
    var inner := [Open] + tests + [Close];
    TidyGroup(tests, k, p);
    var tx := Test(TxIdIn(p));
    TidyWord(Or, p);
    TidyWord(tx, p);
    if byTx {
      TidyJoin(inner, [Or], k, p, p);
      TidyJoin(inner + [Or], [tx], k, p, p + 1);
      TidyGroup(inner + [Or] + [tx], k, p + 1);
      assert [Open] + (inner + [Or] + [tx]) + [Close] == GroupText(tests, byTx, p);
    } else {
      TidyGroup(inner, k, p);
      assert [Open] + inner + [Close] == GroupText(tests, byTx, p);
    }
  }

  lemma ClauseTidy(pre: seq<Token<Condition>>, f: ReceiptFilter, byTx: bool, k: nat)
    requires k >= 1 && Tidy(pre, 1, k)
    ensures Tidy(ClauseText(pre, f, byTx, k), 1, TxPlace(f, k) + if byTx then 1 else 0)
  {
    TidyWord(And, k);
    TidyJoin(pre, [And], 1, k, k);
    if f.logAddresses != [] || HasTopics(f.topics) {
      var p := TxPlace(f, k);
      TestsTidy(f, k);
      GroupTidy(TestsText(f, k), byTx, k, p);
      TidyJoin(pre + [And], GroupText(TestsText(f, k), byTx, p), 1, k, if byTx then p + 1 else p);
    } else {
      SlotsCountAsked(f.topics, |f.topics|);
      TidyWord(Test(TxIdIn(k)), k);
      TidyJoin(pre + [And], [Test(TxIdIn(k))], 1, k, k + 1);
    }
  }

  // ----- the methods -----

  lemma SlotsBoundGrows(topics: seq<seq<string>>, k: nat, args: seq<Arg>, more: seq<Arg>)
    requires SlotsBound(topics, |topics|, k, args) && args <= more
    ensures SlotsBound(topics, |topics|, k, more)
  {
    forall s | 0 <= s < |topics| && Asked(topics, s)
      ensures Bound(more, k + Slots(topics, s)) == Some(Texts(topics[s]))
    {
      assert Bound(args, k + Slots(topics, s)) == Some(Texts(topics[s]));
    }
  }

  /** Addresses, then topics, inside the inner parentheses. */
  method AppendTests(pre: seq<Token<Condition>>, preArgs: seq<Arg>, f: ReceiptFilter)
    returns (text: seq<Token<Condition>>, args: seq<Arg>)
    requires f.logAddresses != [] || HasTopics(f.topics)
    ensures text == pre + TestsText(f, |preArgs| + 1)
    ensures preArgs <= args && |args| + 1 == TxPlace(f, |preArgs| + 1)
    ensures f.logAddresses != [] ==> Bound(args, |preArgs| + 1) == Some(Texts(f.logAddresses))
    ensures SlotsBound(f.topics, |f.topics|, |preArgs| + 1 + (if f.logAddresses != [] then 1 else 0), args)
  {
    if |f.logAddresses| > 0 {
      text, args := AppendAddressTests(pre, preArgs, f);
    } else {
      text, args := AppendTopics(pre, preArgs, f.topics);
    }
  }

  method AppendAddressTests(pre: seq<Token<Condition>>, preArgs: seq<Arg>, f: ReceiptFilter)
    returns (text: seq<Token<Condition>>, args: seq<Arg>)
    requires f.logAddresses != []
    ensures text == pre + TestsText(f, |preArgs| + 1)
    ensures preArgs <= args && |args| + 1 == TxPlace(f, |preArgs| + 1)
    ensures Bound(args, |preArgs| + 1) == Some(Texts(f.logAddresses))
    ensures SlotsBound(f.topics, |f.topics|, |preArgs| + 2, args)
  {
    text := pre + [Test(LogContractsShare(|preArgs| + 1))];
    args := preArgs + [Texts(f.logAddresses)];
    ghost var start := args;
    if HasTopics(f.topics) {
      text := text + [And, Open];
      text, args := AppendTopics(text, args, f.topics);
      text := text + [Close];
      assert args[|preArgs|] == start[|preArgs|];
      AddressTextJoins(pre, f, |preArgs| + 1);
    } else {
      SlotsCountAsked(f.topics, |f.topics|);
    }
  }

  lemma AddressTextJoins(pre: seq<Token<Condition>>, f: ReceiptFilter, k: nat)
    requires f.logAddresses != [] && HasTopics(f.topics)
    ensures pre + [Test(LogContractsShare(k))] + [And, Open] + ChainText(f.topics, |f.topics|, k + 1) + [Close]
         == pre + TestsText(f, k)
  {
  }

  /** The parenthesised group: the tests, and the transaction ids as an alternative to them. */
  method AppendGroup(pre: seq<Token<Condition>>, preArgs: seq<Arg>, f: ReceiptFilter, trxIds: seq<int>)
    returns (text: seq<Token<Condition>>, args: seq<Arg>)
    requires f.logAddresses != [] || HasTopics(f.topics)
    ensures text == ClauseText(pre, f, f.matchTxs && |trxIds| > 0, |preArgs| + 1)
    ensures preArgs <= args && FilterBound(f, trxIds, |preArgs| + 1, args)
    ensures |args| + 1 == TxPlace(f, |preArgs| + 1) + if f.matchTxs && |trxIds| > 0 then 1 else 0
  {
    ghost var k := |preArgs| + 1;
    text := pre + [And, Open, Open];
    text, args := AppendTests(text, preArgs, f);
    text := text + [Close];
    GroupJoins(pre, f, k, |args| + 1);
    if f.matchTxs && |trxIds| > 0 {
      text := text + [Or, Test(TxIdIn(|args| + 1))];
      GroupBound(f, trxIds, k, args);
      args := args + [Ids(trxIds)];
    }
    text := text + [Close];
  }

  /** The pieces are the text of the clause. */
  lemma GroupJoins(pre: seq<Token<Condition>>, f: ReceiptFilter, k: nat, p: nat)
    requires (f.logAddresses != [] || HasTopics(f.topics)) && p == TxPlace(f, k)
    ensures pre + [And, Open, Open] + TestsText(f, k) + [Close] + [Close] == ClauseText(pre, f, false, k)
    ensures pre + [And, Open, Open] + TestsText(f, k) + [Close] + [Or, Test(TxIdIn(p))] + [Close]
         == ClauseText(pre, f, true, k)
  {
    var tests := TestsText(f, k);
    assert [Open, Open] + tests + [Close] + [] + [Close] == [Open, Open] + tests + [Close] + [Close];
  }

  lemma GroupBound(f: ReceiptFilter, trxIds: seq<int>, k: nat, args: seq<Arg>)
    requires f.logAddresses != [] ==> Bound(args, k) == Some(Texts(f.logAddresses))
    requires SlotsBound(f.topics, |f.topics|, k + (if f.logAddresses != [] then 1 else 0), args)
    requires |args| + 1 == TxPlace(f, k)
    ensures FilterBound(f, trxIds, k, args + [Ids(trxIds)])
  {
    var more := args + [Ids(trxIds)];
    assert args <= more && Bound(more, |args| + 1) == Some(Ids(trxIds));
    assert f.logAddresses != [] ==> Bound(more, k) == Bound(args, k);
    SlotsBoundGrows(f.topics, k + (if f.logAddresses != [] then 1 else 0), args, more);
  }

  /** The part both retrievers share: everything after the scope. */
  method AppendFilter(pre: seq<Token<Condition>>, preArgs: seq<Arg>, f: ReceiptFilter, trxIds: seq<int>)
    returns (text: seq<Token<Condition>>, args: seq<Arg>)
    ensures text == ClauseText(pre, f, f.matchTxs && |trxIds| > 0, |preArgs| + 1)
    ensures preArgs <= args && FilterBound(f, trxIds, |preArgs| + 1, args)
    ensures |args| + 1 == TxPlace(f, |preArgs| + 1) + if f.matchTxs && |trxIds| > 0 then 1 else 0
  {
    if |f.logAddresses| > 0 || HasTopics(f.topics) {
      text, args := AppendGroup(pre, preArgs, f, trxIds);
    } else {
      text, args := pre, preArgs;
      SlotsCountAsked(f.topics, |f.topics|);
      if f.matchTxs && |trxIds| > 0 {
        text := text + [And, Test(TxIdIn(|args| + 1))];
        args := args + [Ids(trxIds)];
      }
    }
  }

  lemma CompiledFromText(scope: Expr<Condition>, f: ReceiptFilter, trxIds: seq<int>, k: nat,
                         text: seq<Token<Condition>>, args: seq<Arg>)
    requires IsConjunction(scope) && FilterBound(f, trxIds, k, args) && Tidy(Print(scope), 1, k)
    requires |args| + 1 == TxPlace(f, k) + if f.matchTxs && |trxIds| > 0 then 1 else 0
    requires text == ClauseText(Print(scope), f, f.matchTxs && |trxIds| > 0, k)
    ensures Compiled(scope, f, trxIds, text, args)
  {
    var byTx := f.matchTxs && |trxIds| > 0;
    ClauseTidy(Print(scope), f, byTx, k);
    LateTopics(f.topics);
    if OnlyLateTopics(f.topics) {
      ClauseTextBreaks(scope, f, byTx, k);
    } else {
      ClauseTextPrints(scope, f, byTx, k);
      ParseInvertsPrint(Clause(scope, f, byTx, k));
      forall j {
        ClauseMeaning(scope, f, trxIds, k, args, j);
      }
    }
  }

  /** The filter part after a scope gives text that means what the filter wants within the scope. */
  method AppendCompiled(ghost scope: Expr<Condition>, pre: seq<Token<Condition>>, preArgs: seq<Arg>,
                        f: ReceiptFilter, trxIds: seq<int>)
    returns (text: seq<Token<Condition>>, args: seq<Arg>)
    requires IsConjunction(scope) && pre == Print(scope) && Tidy(pre, 1, |preArgs| + 1)
    ensures Compiled(scope, f, trxIds, text, args) && preArgs <= args
  {
    text, args := AppendFilter(pre, preArgs, f, trxIds);
    CompiledFromText(scope, f, trxIds, |preArgs| + 1, text, args);
  }

  /** The database accepts the text and keeps the joined row. */
  predicate Selects(text: seq<Token<Condition>>, args: seq<Arg>, j: Joined) {
    Parse(text).Some? && Eval(Parse(text).value, Valuation(args, j)) == True
  }

  /** Joins every scope starts with. */
  const JOINS: Expr<Condition> := Conj(Atom(ReceiptOfTx), Atom(TxOfHeader))

  lemma ScopeStep(scope: Expr<Condition>, c: Condition, k: nat)
    requires IsConjunction(scope) && Tidy(Print(scope), 1, k) && Placeholder(c) == [k]
    ensures IsConjunction(Conj(scope, Atom(c)))
    ensures Print(Conj(scope, Atom(c))) == Print(scope) + [And, Test(c)]
    ensures Tidy(Print(Conj(scope, Atom(c))), 1, k + 1)
  {
    TidyWord(And, k);
    TidyWord(Test(c), k);
    TidyJoin(Print(scope), [And], 1, k, k);
    TidyJoin(Print(scope) + [And], [Test(c)], 1, k, k + 1);
    assert Print(scope) + [And] + [Test(c)] == Print(scope) + [And, Test(c)];
    assert Print(Atom(c)) == [Test(c)];
  }

  lemma JoinsText()
    ensures IsConjunction(JOINS)
    ensures Print(JOINS) == [Test(ReceiptOfTx), And, Test(TxOfHeader)]
    ensures Tidy(Print(JOINS), 1, 1)
  {
    TidyWord(Test(ReceiptOfTx), 1);
    TidyWord(And, 1);
    TidyWord(Test(TxOfHeader), 1);
    TidyJoin([Test(ReceiptOfTx)], [And], 1, 1, 1);
    TidyJoin([Test(ReceiptOfTx)] + [And], [Test(TxOfHeader)], 1, 1, 1);
    assert Print(Atom(ReceiptOfTx)) == [Test(ReceiptOfTx)];
    assert Print(Atom(TxOfHeader)) == [Test(TxOfHeader)];
    assert [Test(ReceiptOfTx)] + [And] + [Test(TxOfHeader)] == Print(JOINS);
  }

  /** RetrieveRctCIDsByHeaderID: the clause for one header. */
  method BuildByHeaderId(f: ReceiptFilter, headerId: int, trxIds: seq<int>)
    returns (text: seq<Token<Condition>>, args: seq<Arg>)
    ensures Balanced(text) && Placeholders(text) == Range(1, |args| + 1)
    ensures Parse(text).None? <==> OnlyLateTopics(f.topics)
    ensures forall j :: Parse(text).Some? ==>
              (Selects(text, args, j) <==>
               && j.rctTxId == j.txId && j.txHeaderId == j.headerId
               && j.headerId == headerId
               && FilterWants(f, trxIds, j))
  {
    JoinsText();
    ghost var scope := Conj(JOINS, Atom(HeaderIdIs(1)));
    ScopeStep(JOINS, HeaderIdIs(1), 1);
    text := [Test(ReceiptOfTx), And, Test(TxOfHeader)] + [And, Test(HeaderIdIs(1))];
    args := [Id(headerId)];
    text, args := AppendCompiled(scope, text, args, f, trxIds);
    forall j ensures Eval(scope, Valuation(args, j)) == True
                <==> j.rctTxId == j.txId && j.txHeaderId == j.headerId && j.headerId == headerId
    {
      HoldsUpTo(JOINS, HeaderIdIs(1), Valuation(args, j));
      assert Bound(args, 1) == Some(Id(headerId));
    }
  }

  lemma HoldsUpTo(scope: Expr<Condition>, c: Condition, val: Condition -> Tri)
    ensures Eval(Conj(scope, Atom(c)), val) == And3(Eval(scope, val), val(c))
    ensures Eval(JOINS, val) == And3(val(ReceiptOfTx), val(TxOfHeader))
  {
    assert Eval(Atom(c), val) == val(c);
    assert Eval(Atom(ReceiptOfTx), val) == val(ReceiptOfTx);
    assert Eval(Atom(TxOfHeader), val) == val(TxOfHeader);
  }

  function NumberScope(number: int): Expr<Condition> {
    if number > 0 then Conj(JOINS, Atom(NumberIs(1))) else JOINS
  }

  function BlockScope(number: int, hash: Option<string>): Expr<Condition> {
    if hash.Some? then Conj(NumberScope(number), Atom(HashIs(if number > 0 then 2 else 1))) else NumberScope(number)
  }

  function BlockArgs(number: int, hash: Option<string>): seq<Arg> {
    (if number > 0 then [Id(number)] else []) + (if hash.Some? then [Text(hash.value)] else [])
  }

  lemma BlockScopeText(number: int, hash: Option<string>)
    ensures IsConjunction(BlockScope(number, hash))
    ensures Tidy(Print(BlockScope(number, hash)), 1, |BlockArgs(number, hash)| + 1)
    ensures Print(BlockScope(number, hash)) == [Test(ReceiptOfTx), And, Test(TxOfHeader)]
              + (if number > 0 then [And, Test(NumberIs(1))] else [])
              + (if hash.Some? then [And, Test(HashIs(if number > 0 then 2 else 1))] else [])
  {
    JoinsText();
    ScopeStep(JOINS, NumberIs(1), 1);
    var id := if number > 0 then 2 else 1;
    ScopeStep(NumberScope(number), HashIs(id), id);
  }

  lemma BlockScopeMeaning(number: int, hash: Option<string>, args: seq<Arg>, j: Joined)
    requires BlockArgs(number, hash) <= args
    ensures Eval(BlockScope(number, hash), Valuation(args, j)) == True
       <==> && j.rctTxId == j.txId && j.txHeaderId == j.headerId
            && (number > 0 ==> j.number == number) && (hash.Some? ==> j.hash == hash.value)
  {
    var val := Valuation(args, j);
    var id := if number > 0 then 2 else 1;
    HoldsUpTo(JOINS, NumberIs(1), val);
    HoldsUpTo(NumberScope(number), HashIs(id), val);
    assert number > 0 ==> Bound(args, 1) == Some(BlockArgs(number, hash)[0]);
    assert hash.Some? ==> Bound(args, id) == Some(BlockArgs(number, hash)[id - 1]);
  }

  /** RetrieveRctCIDs: the clause for a height and a block hash; the height test is left out
      unless the height is positive. */
  method BuildByBlock(f: ReceiptFilter, number: int, hash: Option<string>, trxIds: seq<int>)
    returns (text: seq<Token<Condition>>, args: seq<Arg>)
    ensures Balanced(text) && Placeholders(text) == Range(1, |args| + 1)
    ensures Parse(text).None? <==> OnlyLateTopics(f.topics)
    ensures forall j :: Parse(text).Some? ==>
              (Selects(text, args, j) <==>
               && j.rctTxId == j.txId && j.txHeaderId == j.headerId
               && (number > 0 ==> j.number == number)
               && (hash.Some? ==> j.hash == hash.value)
               && FilterWants(f, trxIds, j))
  {
    text, args := BuildBlockScope(number, hash);
    BlockScopeText(number, hash);
    text, args := AppendCompiled(BlockScope(number, hash), text, args, f, trxIds);
    BlockSelects(number, hash, f, trxIds, text, args);
  }

  lemma BlockSelects(number: int, hash: Option<string>, f: ReceiptFilter, trxIds: seq<int>,
                     text: seq<Token<Condition>>, args: seq<Arg>)
    requires Compiled(BlockScope(number, hash), f, trxIds, text, args) && BlockArgs(number, hash) <= args
    ensures forall j :: Parse(text).Some? ==>
              (Selects(text, args, j) <==>
               && j.rctTxId == j.txId && j.txHeaderId == j.headerId
               && (number > 0 ==> j.number == number)
               && (hash.Some? ==> j.hash == hash.value)
               && FilterWants(f, trxIds, j))
  {
    forall j ensures Eval(BlockScope(number, hash), Valuation(args, j)) == True
                <==> && j.rctTxId == j.txId && j.txHeaderId == j.headerId
                     && (number > 0 ==> j.number == number) && (hash.Some? ==> j.hash == hash.value)
    {
      BlockScopeMeaning(number, hash, args, j);
    }
  }

  method BuildBlockScope(number: int, hash: Option<string>) returns (text: seq<Token<Condition>>, args: seq<Arg>)
    ensures text == Print(BlockScope(number, hash)) && args == BlockArgs(number, hash)
  {
    text, args := [Test(ReceiptOfTx), And, Test(TxOfHeader)], [];
    var id := 1;
    if number > 0 {
      text := text + [And, Test(NumberIs(id))];
      args := args + [Id(number)];
      id := id + 1;
    }
    if hash.Some? {
      text := text + [And, Test(HashIs(id))];
      args := args + [Text(hash.value)];
    }
    BlockScopeText(number, hash);
  }
}
