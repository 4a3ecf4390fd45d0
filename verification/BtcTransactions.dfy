/** Bitcoin transactions by filter: the join over inputs and outputs against the check in memory. */
module BtcTransactions {
  import opened Common

  datatype TxFilter = TxFilter(
    off: bool, segwit: bool, witnessHashes: seq<string>, indexes: seq<int>,
    pkScriptClasses: seq<Byte>, multiSig: bool, addresses: seq<string>)

  datatype Output = Output(requiredSigs: int, addresses: seq<string>, scriptClass: Byte)

  /** A transaction as converted; only the number of its inputs matters here. */
  datatype Meta = Meta(segwit: bool, witnessHash: string, index: int, inputs: nat, outputs: seq<Output>)

  // ----- the check in memory -----

  predicate TxOk(f: TxFilter, segwit: bool, witnessHash: string, index: int) {
    && (f.segwit ==> segwit)
    && (f.witnessHashes == [] || witnessHash in f.witnessHashes)
    && (f.indexes == [] || index in f.indexes)
  }

  predicate Listed(f: TxFilter, o: Output) {
    exists i :: 0 <= i < |f.addresses| && f.addresses[i] in o.addresses
  }

  /** Each output-level criterion is met by some output, not necessarily the same one. */
  predicate Passes(f: TxFilter, m: Meta) {
    && TxOk(f, m.segwit, m.witnessHash, m.index)
    && (f.multiSig ==> exists k :: 0 <= k < |m.outputs| && m.outputs[k].requiredSigs > 1)
    && (f.addresses == [] || exists k :: 0 <= k < |m.outputs| && Listed(f, m.outputs[k]))
    && (f.pkScriptClasses == [] || SomeClass(m, f.pkScriptClasses))
  }

  /** One of the first n wanted addresses is on some output. */
  predicate SomeListed(f: TxFilter, m: Meta, n: nat)
    requires n <= |f.addresses|
  {
    exists k, i :: 0 <= k < |m.outputs| && 0 <= i < n && f.addresses[i] in m.outputs[k].addresses
  }

  method PassesAddresses(f: TxFilter, m: Meta) returns (passes: bool)
    ensures passes <==> f.addresses == [] || exists k :: 0 <= k < |m.outputs| && Listed(f, m.outputs[k])
  {
    passes := |f.addresses| == 0;
    for a := 0 to |f.addresses|
      invariant passes <==> f.addresses == [] || SomeListed(f, m, a)
    {
      for k := 0 to |m.outputs|
        invariant passes <==>
                    SomeListed(f, m, a) || exists k' :: 0 <= k' < k && f.addresses[a] in m.outputs[k'].addresses
      {
        if f.addresses[a] in m.outputs[k].addresses { passes := true; }
      }
    }
  }

  predicate SomeClass(m: Meta, classes: seq<Byte>) {
    exists k :: 0 <= k < |m.outputs| && m.outputs[k].scriptClass in classes
  }

  method CheckTransaction(m: Meta, f: TxFilter) returns (hit: bool)
    ensures hit <==> Passes(f, m)
  {
    var passesSegwit := !f.segwit || m.segwit;
    var passesMultiSig := !f.multiSig;
    if f.multiSig {
      for k := 0 to |m.outputs|
        invariant passesMultiSig <==> exists k' :: 0 <= k' < k && m.outputs[k'].requiredSigs > 1
      {
        if m.outputs[k].requiredSigs > 1 { passesMultiSig := true; }
      }
    }
    var passesWitness := |f.witnessHashes| == 0;
    for i := 0 to |f.witnessHashes|
      invariant passesWitness <==> f.witnessHashes == [] || m.witnessHash in f.witnessHashes[..i]
    {
      if f.witnessHashes[i] == m.witnessHash { passesWitness := true; }
    }
    var passesAddresses := PassesAddresses(f, m);
    var passesIndex := |f.indexes| == 0;
    for i := 0 to |f.indexes|
      invariant passesIndex <==> f.indexes == [] || m.index in f.indexes[..i]
    {
      if f.indexes[i] == m.index { passesIndex := true; }
    }
    var passesClass := |f.pkScriptClasses| == 0;
    for i := 0 to |f.pkScriptClasses|
      invariant passesClass <==> f.pkScriptClasses == [] || SomeClass(m, f.pkScriptClasses[..i])
    {
      for k := 0 to |m.outputs|
        invariant passesClass <==>
                    SomeClass(m, f.pkScriptClasses[..i])
                    || exists k' :: 0 <= k' < k && m.outputs[k'].scriptClass == f.pkScriptClasses[i]
      {
        if m.outputs[k].scriptClass == f.pkScriptClasses[i] { passesClass := true; }
      }
      assert f.pkScriptClasses[..i + 1] == f.pkScriptClasses[..i] + [f.pkScriptClasses[i]];
    }
    assert f.pkScriptClasses[..|f.pkScriptClasses|] == f.pkScriptClasses;
    hit := passesSegwit && passesMultiSig && passesWitness && passesAddresses && passesIndex && passesClass;
  }

  // ----- the query -----

  datatype TxRow = TxRow(id: int, headerId: int, segwit: bool, witnessHash: string, index: int)
  datatype InputRow = InputRow(txId: int)
  datatype OutputRow = OutputRow(txId: int, output: Output)

  datatype Arg = Id(n: int) | Texts(ss: seq<string>) | Numbers(ns: seq<int>)

  /** The conditions of the WHERE clause, all joined by AND; `p` numbers a `$p` placeholder. */
  datatype Condition =
    | TxOfHeader | InputOfTx | OutputOfTx | HeaderIdIs(p: nat)
    | IsSegwit | NeedsSignatures | WitnessIn(p: nat) | AddressesShare(p: nat) | IndexIn(p: nat) | ClassIn(p: nat)

  function Bound(args: seq<Arg>, p: nat): Option<Arg> {
    if 1 <= p <= |args| then Some(args[p - 1]) else None
  }

  predicate Holds(c: Condition, args: seq<Arg>, h: int, t: TxRow, i: InputRow, o: OutputRow) {
    match c
    case TxOfHeader => t.headerId == h
    case InputOfTx => i.txId == t.id
    case OutputOfTx => o.txId == t.id
    case HeaderIdIs(p) => Bound(args, p) == Some(Id(h))
    case IsSegwit => t.segwit
    case NeedsSignatures => o.output.requiredSigs > 1
    case WitnessIn(p) => (match Bound(args, p) case Some(Texts(ss)) => t.witnessHash in ss case _ => false)
    case AddressesShare(p) =>
      (match Bound(args, p) case Some(Texts(ss)) => Share(ss, o.output.addresses) case _ => false)
    case IndexIn(p) => (match Bound(args, p) case Some(Numbers(ns)) => t.index in ns case _ => false)
    case ClassIn(p) => (match Bound(args, p) case Some(Numbers(ns)) => o.output.scriptClass in ns case _ => false)
  }

  function Place(c: Condition): seq<int> {
    match c
    case HeaderIdIs(p) => [p]
    case WitnessIn(p) => [p]
    case AddressesShare(p) => [p]
    case IndexIn(p) => [p]
    case ClassIn(p) => [p]
    case _ => []
  }

  function Places(cs: seq<Condition>): seq<int> {
    if cs == [] then [] else Places(cs[..|cs| - 1]) + Place(cs[|cs| - 1])
  }

  predicate AllHold(cs: seq<Condition>, args: seq<Arg>, h: int, t: TxRow, i: InputRow, o: OutputRow) {
    forall n :: 0 <= n < |cs| ==> Holds(cs[n], args, h, t, i, o)
  }

  /** The output-level criteria, all on one output. */
  predicate OutputOk(f: TxFilter, o: Output) {
    && (f.multiSig ==> o.requiredSigs > 1)
    && (f.addresses == [] || Listed(f, o))
    && (f.pkScriptClasses == [] || o.scriptClass in f.pkScriptClasses)
  }

  /** What the clause asks for when the first `stage` parts of the filter are in it. */
  predicate Meaning(f: TxFilter, headerId: int, stage: nat, h: int, t: TxRow, i: InputRow, o: OutputRow) {
    && h == headerId && t.headerId == h && i.txId == t.id && o.txId == t.id
    && (stage >= 1 && f.segwit ==> t.segwit)
    && (stage >= 2 && f.multiSig ==> o.output.requiredSigs > 1)
    && (stage >= 3 && f.witnessHashes != [] ==> t.witnessHash in f.witnessHashes)
    && (stage >= 4 && f.addresses != [] ==> Listed(f, o.output))
    && (stage >= 5 && f.indexes != [] ==> t.index in f.indexes)
    && (stage >= 6 && f.pkScriptClasses != [] ==> o.output.scriptClass in f.pkScriptClasses)
  }

  /** The placeholders of a condition are among the first n. */
  predicate Numbered(c: Condition, n: nat) {
    forall k :: 0 <= k < |Place(c)| ==> 1 <= Place(c)[k] <= n
  }

  ghost predicate Says(cs: seq<Condition>, args: seq<Arg>, f: TxFilter, headerId: int, stage: nat) {
    && Places(cs) == Range(1, |args| + 1)
    && (forall n :: 0 <= n < |cs| ==> Numbered(cs[n], |args|))
    && forall h, t, i, o :: AllHold(cs, args, h, t, i, o) <==> Meaning(f, headerId, stage, h, t, i, o)
  }

  lemma StillHolds(c: Condition, args: seq<Arg>, more: seq<Arg>, h: int, t: TxRow, i: InputRow, o: OutputRow)
    requires Numbered(c, |args|)
    ensures Holds(c, args + more, h, t, i, o) == Holds(c, args, h, t, i, o)
  {
    if Place(c) != [] { assert 1 <= Place(c)[0] <= |args|; }
  }

  lemma AllHoldMore(cs: seq<Condition>, args: seq<Arg>, c: Condition, more: seq<Arg>, h: int, t: TxRow,
                    i: InputRow, o: OutputRow)
    requires forall n :: 0 <= n < |cs| ==> Numbered(cs[n], |args|)
    ensures AllHold(cs + [c], args + more, h, t, i, o) <==>
            AllHold(cs, args, h, t, i, o) && Holds(c, args + more, h, t, i, o)
  {
    forall n | 0 <= n < |cs| ensures Holds((cs + [c])[n], args + more, h, t, i, o) == Holds(cs[n], args, h, t, i, o) {
      StillHolds(cs[n], args, more, h, t, i, o);
    }
    assert (cs + [c])[|cs|] == c;
    if AllHold(cs + [c], args + more, h, t, i, o) {
      forall n | 0 <= n < |cs| ensures Holds(cs[n], args, h, t, i, o) {
        assert Holds((cs + [c])[n], args + more, h, t, i, o);
      }
    }
  }

  /** One more condition, with its argument if it has one, brings the clause to the next stage. */
  lemma SaysMore(cs: seq<Condition>, args: seq<Arg>, f: TxFilter, headerId: int, stage: nat, c: Condition,
                 more: seq<Arg>)
    requires Says(cs, args, f, headerId, stage)
    requires |more| <= 1 && Place(c) == Range(|args| + 1, |args| + 1 + |more|)
    requires forall h, t, i, o :: Meaning(f, headerId, stage + 1, h, t, i, o) <==>
               Meaning(f, headerId, stage, h, t, i, o) && Holds(c, args + more, h, t, i, o)
    ensures Says(cs + [c], args + more, f, headerId, stage + 1)
  {
    assert (cs + [c])[..|cs|] == cs;
    forall h, t, i, o
      ensures AllHold(cs + [c], args + more, h, t, i, o) <==> Meaning(f, headerId, stage + 1, h, t, i, o)
    {
      AllHoldMore(cs, args, c, more, h, t, i, o);
    }
  }

  /** A part the filter does not use changes nothing. */
  lemma SaysSame(cs: seq<Condition>, args: seq<Arg>, f: TxFilter, headerId: int, stage: nat)
    requires Says(cs, args, f, headerId, stage)
    requires forall h, t, i, o :: Meaning(f, headerId, stage + 1, h, t, i, o) <==>
               Meaning(f, headerId, stage, h, t, i, o)
    ensures Says(cs, args, f, headerId, stage + 1)
  {
  }

  lemma PlacesAppend(cs: seq<Condition>, c: Condition)
    ensures Places(cs + [c]) == Places(cs) + Place(c)
  {
    assert (cs + [c])[..|cs|] == cs;
  }

  lemma SaysJoins(f: TxFilter, headerId: int)
    ensures Says([TxOfHeader, InputOfTx, OutputOfTx, HeaderIdIs(1)], [Id(headerId)], f, headerId, 0)
  {
    var cs := [TxOfHeader, InputOfTx, OutputOfTx, HeaderIdIs(1)];
    PlacesAppend([], TxOfHeader);
    PlacesAppend([TxOfHeader], InputOfTx);
    PlacesAppend([TxOfHeader, InputOfTx], OutputOfTx);
    PlacesAppend([TxOfHeader, InputOfTx, OutputOfTx], HeaderIdIs(1));
    assert [] + [TxOfHeader] == [TxOfHeader] && [TxOfHeader] + [InputOfTx] == [TxOfHeader, InputOfTx];
    assert [TxOfHeader, InputOfTx] + [OutputOfTx] == [TxOfHeader, InputOfTx, OutputOfTx];
    assert [TxOfHeader, InputOfTx, OutputOfTx] + [HeaderIdIs(1)] == cs;
    forall h, t, i, o ensures AllHold(cs, [Id(headerId)], h, t, i, o) <==> Meaning(f, headerId, 0, h, t, i, o) {
      assert AllHold(cs, [Id(headerId)], h, t, i, o) <==>
        (Holds(cs[0], [Id(headerId)], h, t, i, o) && Holds(cs[1], [Id(headerId)], h, t, i, o)
         && Holds(cs[2], [Id(headerId)], h, t, i, o) && Holds(cs[3], [Id(headerId)], h, t, i, o));
    }
  }

  lemma NextBound(args: seq<Arg>, a: Arg)
    ensures Bound(args + [a], |args| + 1) == Some(a)
  {
  }

  /** RetrieveTxCIDs: the clause, condition by condition. */
  method BuildTxQuery(f: TxFilter, headerId: int) returns (cs: seq<Condition>, args: seq<Arg>)
    ensures Says(cs, args, f, headerId, 6)
  {
    cs, args := [TxOfHeader, InputOfTx, OutputOfTx, HeaderIdIs(1)], [Id(headerId)];
    SaysJoins(f, headerId);
    cs := AppendFlags(cs, args, f, headerId);
    var id := 2;
    cs, args, id := AppendWitnesses(cs, args, f, headerId, id);
    cs, args, id := AppendAddresses(cs, args, f, headerId, id);
    cs, args, id := AppendIndexes(cs, args, f, headerId, id);
    cs, args := AppendClasses(cs, args, f, headerId, id);
  }

  method AppendFlags(cs: seq<Condition>, args: seq<Arg>, f: TxFilter, headerId: int) returns (cs': seq<Condition>)
    requires Says(cs, args, f, headerId, 0)
    ensures Says(cs', args, f, headerId, 2)
  {
    cs' := cs;
    if f.segwit {
      assert args + [] == args;
      SaysMore(cs, args, f, headerId, 0, IsSegwit, []);
      cs' := cs + [IsSegwit];
    } else {
      SaysSame(cs, args, f, headerId, 0);
    }
    if f.multiSig {
      assert args + [] == args;
      SaysMore(cs', args, f, headerId, 1, NeedsSignatures, []);
      cs' := cs' + [NeedsSignatures];
    } else {
      SaysSame(cs', args, f, headerId, 1);
    }
  }

  method AppendClasses(cs: seq<Condition>, args: seq<Arg>, f: TxFilter, headerId: int, id: nat)
    returns (cs': seq<Condition>, args': seq<Arg>)
    requires Says(cs, args, f, headerId, 5) && id == |args| + 1
    ensures Says(cs', args', f, headerId, 6)
  {
    cs', args' := cs, args;
    if |f.pkScriptClasses| > 0 {
      NextBound(args, Numbers(f.pkScriptClasses));
      SaysMore(cs, args, f, headerId, 5, ClassIn(id), [Numbers(f.pkScriptClasses)]);
      cs', args' := cs + [ClassIn(id)], args + [Numbers(f.pkScriptClasses)];
    }
  }

  method AppendWitnesses(cs: seq<Condition>, args: seq<Arg>, f: TxFilter, headerId: int, id: nat)
    returns (cs': seq<Condition>, args': seq<Arg>, id': nat)
    requires Says(cs, args, f, headerId, 2) && id == |args| + 1
    ensures Says(cs', args', f, headerId, 3) && id' == |args'| + 1
  {
    cs', args', id' := cs, args, id;
    if |f.witnessHashes| > 0 {
      NextBound(args, Texts(f.witnessHashes));
      SaysMore(cs, args, f, headerId, 2, WitnessIn(id), [Texts(f.witnessHashes)]);
      cs', args', id' := cs + [WitnessIn(id)], args + [Texts(f.witnessHashes)], id + 1;
    }
  }

  method AppendAddresses(cs: seq<Condition>, args: seq<Arg>, f: TxFilter, headerId: int, id: nat)
    returns (cs': seq<Condition>, args': seq<Arg>, id': nat)
    requires Says(cs, args, f, headerId, 3) && id == |args| + 1
    ensures Says(cs', args', f, headerId, 4) && id' == |args'| + 1
  {
    cs', args', id' := cs, args, id;
    if |f.addresses| > 0 {
      NextBound(args, Texts(f.addresses));
      SaysMore(cs, args, f, headerId, 3, AddressesShare(id), [Texts(f.addresses)]);
      cs', args', id' := cs + [AddressesShare(id)], args + [Texts(f.addresses)], id + 1;
    }
  }

  method AppendIndexes(cs: seq<Condition>, args: seq<Arg>, f: TxFilter, headerId: int, id: nat)
    returns (cs': seq<Condition>, args': seq<Arg>, id': nat)
    requires Says(cs, args, f, headerId, 4) && id == |args| + 1
    ensures Says(cs', args', f, headerId, 5) && id' == |args'| + 1
  {
    cs', args', id' := cs, args, id;
    if |f.indexes| > 0 {
      NextBound(args, Numbers(f.indexes));
      SaysMore(cs, args, f, headerId, 4, IndexIn(id), [Numbers(f.indexes)]);
      cs', args', id' := cs + [IndexIn(id)], args + [Numbers(f.indexes)], id + 1;
    }
  }

  // ----- how often a transaction is selected -----

  function CountIf<T>(xs: seq<T>, p: T -> bool): nat {
    if xs == [] then 0 else CountIf(xs[..|xs| - 1], p) + (if p(xs[|xs| - 1]) then 1 else 0)
  }

  /** Rows of the cross product of headers, inputs and outputs that satisfy the clause with t. */
  function OverOutputs(cs: seq<Condition>, args: seq<Arg>, h: int, t: TxRow, i: InputRow, outs: seq<OutputRow>): nat {
    CountIf(outs, (o: OutputRow) => AllHold(cs, args, h, t, i, o))
  }

  function OverInputs(cs: seq<Condition>, args: seq<Arg>, h: int, t: TxRow, ins: seq<InputRow>,
                      outs: seq<OutputRow>): nat
  {
    if ins == [] then 0
    else OverInputs(cs, args, h, t, ins[..|ins| - 1], outs) + OverOutputs(cs, args, h, t, ins[|ins| - 1], outs)
  }

  function OverHeaders(cs: seq<Condition>, args: seq<Arg>, hs: seq<int>, t: TxRow, ins: seq<InputRow>,
                       outs: seq<OutputRow>): nat
  {
    if hs == [] then 0
    else OverHeaders(cs, args, hs[..|hs| - 1], t, ins, outs) + OverInputs(cs, args, hs[|hs| - 1], t, ins, outs)
  }

  /** The result of the query: each transaction as often as it takes part in a selected row. */
  function Query(cs: seq<Condition>, args: seq<Arg>, hs: seq<int>, txs: seq<TxRow>, ins: seq<InputRow>,
                 outs: seq<OutputRow>): seq<TxRow>
  {
    if txs == [] then []
    else
      var t := txs[|txs| - 1];
      Query(cs, args, hs, txs[..|txs| - 1], ins, outs) + seq(OverHeaders(cs, args, hs, t, ins, outs), _ => t)
  }

  function Mine(t: TxRow): InputRow -> bool { (i: InputRow) => i.txId == t.id }

  function MineAndOk(f: TxFilter,
                     t: TxRow): OutputRow -> bool { (o: OutputRow) => o.txId == t.id && OutputOk(f, o.output) }

  predicate TxRowOk(f: TxFilter, headerId: int, t: TxRow) {
    t.headerId == headerId && TxOk(f, t.segwit, t.witnessHash, t.index)
  }

  lemma {:induction false} CountSame<T>(xs: seq<T>, p: T -> bool, q: T -> bool)
    requires forall x :: p(x) == q(x)
    ensures CountIf(xs, p) == CountIf(xs, q)
  {
    if xs != [] { CountSame(xs[..|xs| - 1], p, q); }
  }

  lemma {:induction false} CountNone<T>(xs: seq<T>, p: T -> bool)
    requires forall x :: !p(x)
    ensures CountIf(xs, p) == 0
  {
    if xs != [] { CountNone(xs[..|xs| - 1], p); }
  }

  lemma OutputsCount(cs: seq<Condition>, args: seq<Arg>, f: TxFilter, headerId: int, h: int, t: TxRow,
                     i: InputRow, outs: seq<OutputRow>)
    requires Says(cs, args, f, headerId, 6)
    ensures OverOutputs(cs, args, h, t, i, outs)
         == if h == headerId && TxRowOk(f, headerId, t) && i.txId == t.id then CountIf(outs, MineAndOk(f, t)) else 0
  {
    var all := (o: OutputRow) => AllHold(cs, args, h, t, i, o);
    if h == headerId && TxRowOk(f, headerId, t) && i.txId == t.id {
      forall o: OutputRow ensures all(o) == MineAndOk(f, t)(o) { assert Meaning(f, headerId, 6, h, t, i, o) == all(o); }
      CountSame(outs, all, MineAndOk(f, t));
    } else {
      forall o: OutputRow ensures !all(o) { assert Meaning(f, headerId, 6, h, t, i, o) == all(o); }
      CountNone(outs, all);
    }
  }

  lemma {:induction false} InputsCount(cs: seq<Condition>, args: seq<Arg>, f: TxFilter, headerId: int, h: int,
                                       t: TxRow, ins: seq<InputRow>, outs: seq<OutputRow>)
    requires Says(cs, args, f, headerId, 6)
    ensures OverInputs(cs, args, h, t, ins, outs)
         == if h == headerId && TxRowOk(f, headerId, t)
            then CountIf(ins, Mine(t)) * CountIf(outs, MineAndOk(f, t)) else 0
  {
    if ins != [] {
      var last := |ins| - 1;
      InputsCount(cs, args, f, headerId, h, t, ins[..last], outs);
      OutputsCount(cs, args, f, headerId, h, t, ins[last], outs);
      var a, b := CountIf(ins[..last], Mine(t)), CountIf(outs, MineAndOk(f, t));
      assert (a + 1) * b == a * b + b;
    }
  }

  /** Header ids are unique. */
  predicate Unique(hs: seq<int>) { forall i, j :: 0 <= i < j < |hs| ==> hs[i] != hs[j] }

  lemma {:induction false} HeadersCount(cs: seq<Condition>, args: seq<Arg>, f: TxFilter, headerId: int,
                                        hs: seq<int>, t: TxRow, ins: seq<InputRow>, outs: seq<OutputRow>)
    requires Says(cs, args, f, headerId, 6) && Unique(hs)
    ensures OverHeaders(cs, args, hs, t, ins, outs)
         == if headerId in hs && TxRowOk(f, headerId, t)
            then CountIf(ins, Mine(t)) * CountIf(outs, MineAndOk(f, t)) else 0
  {
    if hs != [] {
      var last := |hs| - 1;
      HeadersCount(cs, args, f, headerId, hs[..last], t, ins, outs);
      InputsCount(cs, args, f, headerId, hs[last], t, ins, outs);
    }
  }

  /** A stored transaction appears once for every pair of one of its inputs and one of its outputs that
      alone meets all output-level criteria, provided it meets the others. */
  lemma {:induction false} Multiplicity(cs: seq<Condition>, args: seq<Arg>, f: TxFilter, headerId: int,
                     hs: seq<int>, txs: seq<TxRow>, ins: seq<InputRow>, outs: seq<OutputRow>, t: TxRow)
    requires Says(cs, args, f, headerId, 6) && Unique(hs)
    requires forall i, j :: 0 <= i < j < |txs| ==> txs[i].id != txs[j].id
    ensures multiset(Query(cs, args, hs, txs, ins, outs))[t]
         == if t in txs && headerId in hs && TxRowOk(f, headerId, t)
            then CountIf(ins, Mine(t)) * CountIf(outs, MineAndOk(f, t)) else 0
  {
    if txs != [] {
      var last := |txs| - 1;
      Multiplicity(cs, args, f, headerId, hs, txs[..last], ins, outs, t);
      HeadersCount(cs, args, f, headerId, hs, txs[last], ins, outs);
      Repeated(txs[last], OverHeaders(cs, args, hs, txs[last], ins, outs), t);
      assert txs == txs[..last] + [txs[last]];
    }
  }

  lemma {:induction false} Repeated<T>(x: T, n: nat, y: T)
    ensures multiset(seq(n, _ => x))[y] == if x == y then n else 0
  {
    if n > 0 {
      Repeated(x, n - 1, y);
      assert seq(n, _ => x) == seq(n - 1, _ => x) + [x];
    }
  }

  // ----- against the check in memory -----

  function Good(f: TxFilter): Output -> bool { (o: Output) => OutputOk(f, o) }

  /** The outputs of the rows that refer to a transaction, in order. */
  function OutputsOf(outs: seq<OutputRow>, id: int): seq<Output> {
    if outs == [] then []
    else
      var last := outs[|outs| - 1];
      OutputsOf(outs[..|outs| - 1], id) + (if last.txId == id then [last.output] else [])
  }

  /** The rows of a converted transaction: a row for each input, and one for each output, in order. */
  ghost predicate StoredAs(m: Meta, t: TxRow, ins: seq<InputRow>, outs: seq<OutputRow>) {
    && t.segwit == m.segwit && t.witnessHash == m.witnessHash && t.index == m.index
    && CountIf(ins, Mine(t)) == m.inputs
    && OutputsOf(outs, t.id) == m.outputs
  }

  lemma {:induction false} OutputsCounted(f: TxFilter, t: TxRow, outs: seq<OutputRow>)
    ensures CountIf(outs, MineAndOk(f, t)) == CountIf(OutputsOf(outs, t.id), Good(f))
  {
    if outs != [] {
      var most, last := outs[..|outs| - 1], outs[|outs| - 1];
      OutputsCounted(f, t, most);
      var before := OutputsOf(most, t.id);
      if last.txId == t.id {
        assert (before + [last.output])[..|before|] == before;
      } else {
        assert OutputsOf(outs, t.id) == before;
      }
    }
  }

  /** Appearances of a converted transaction in the query result. */
  function Appears(f: TxFilter, m: Meta): nat {
    if TxOk(f, m.segwit, m.witnessHash, m.index) then m.inputs * CountIf(m.outputs, Good(f)) else 0
  }

  lemma AppearsInQuery(cs: seq<Condition>, args: seq<Arg>, f: TxFilter, headerId: int,
                       hs: seq<int>, txs: seq<TxRow>, ins: seq<InputRow>, outs: seq<OutputRow>, t: TxRow, m: Meta)
    requires Says(cs, args, f, headerId, 6) && Unique(hs) && headerId in hs && t in txs && t.headerId == headerId
    requires forall i, j :: 0 <= i < j < |txs| ==> txs[i].id != txs[j].id
    requires StoredAs(m, t, ins, outs)
    ensures multiset(Query(cs, args, hs, txs, ins, outs))[t] == Appears(f, m)
  {
    Multiplicity(cs, args, f, headerId, hs, txs, ins, outs, t);
    OutputsCounted(f, t, outs);
  }

  lemma {:induction false} CountSome<T>(xs: seq<T>, p: T -> bool)
    ensures CountIf(xs, p) > 0 <==> exists k :: 0 <= k < |xs| && p(xs[k])
  {
    if xs != [] {
      var last := |xs| - 1;
      CountSome(xs[..last], p);
      assert forall k :: 0 <= k < last ==> xs[..last][k] == xs[k];
    }
  }

  /** Whatever the query returns passes the check. */
  lemma SelectedPasses(f: TxFilter, m: Meta)
    requires Appears(f, m) > 0
    ensures Passes(f, m)
  {
    CountSome(m.outputs, Good(f));
    var k :| 0 <= k < |m.outputs| && OutputOk(f, m.outputs[k]);
    assert f.addresses != [] ==> Listed(f, m.outputs[k]);
  }

  /** The list leaves out some script class. */
  predicate Restricts(f: TxFilter) {
    f.pkScriptClasses != [] && exists c :: 0 <= c < 256 && c !in f.pkScriptClasses
  }

  /** At most one criterion looks at outputs. */
  predicate OneOutputCriterion(f: TxFilter) {
    && !(f.multiSig && f.addresses != [])
    && !(f.multiSig && Restricts(f))
    && !(f.addresses != [] && Restricts(f))
  }

  lemma PassingSelected(f: TxFilter, m: Meta)
    requires OneOutputCriterion(f) && Passes(f, m) && m.inputs > 0 && m.outputs != []
    ensures Appears(f, m) > 0
  {
    CountSome(m.outputs, Good(f));
    var k: int;
    if f.multiSig {
      k :| 0 <= k < |m.outputs| && m.outputs[k].requiredSigs > 1;
    } else if f.addresses != [] {
      k :| 0 <= k < |m.outputs| && Listed(f, m.outputs[k]);
    } else if f.pkScriptClasses != [] {
      k :| 0 <= k < |m.outputs| && m.outputs[k].scriptClass in f.pkScriptClasses;
    } else {
      k := 0;
    }
    assert OutputOk(f, m.outputs[k]);
    assert CountIf(m.outputs, Good(f)) > 0;
  }

  /** A transaction with two outputs of which each misses a criterion the other meets. */
  function SplitTx(f: TxFilter): Meta {
    var address := if f.addresses != [] then [f.addresses[0]] else [];
    var listed := if f.pkScriptClasses != [] then f.pkScriptClasses[0] else 0;
    var a := if f.multiSig then Output(2, if Restricts(f) then address else [], Other(f))
             else Output(0, address, Other(f));
    Meta(true, if f.witnessHashes != [] then f.witnessHashes[0] else "", if f.indexes != [] then f.indexes[0] else 0, 1,
         [a, Output(0, if f.multiSig then address else [], listed)])
  }

  /** A class that is not listed if the list leaves one out. */
  function Other(f: TxFilter): (c: Byte)
    ensures Restricts(f) ==> c !in f.pkScriptClasses
    ensures !Restricts(f) && f.pkScriptClasses != [] ==> c in f.pkScriptClasses
  {
    if Restricts(f) then LeastUnlisted(f, 0) else 0
  }

  function LeastUnlisted(f: TxFilter, from: nat): (c: Byte)
    requires exists c :: from <= c < 256 && c !in f.pkScriptClasses
    ensures c !in f.pkScriptClasses
    decreases 256 - from
  {
    if from !in f.pkScriptClasses then from else LeastUnlisted(f, from + 1)
  }

  lemma SplitTxParts(f: TxFilter)
    requires !OneOutputCriterion(f)
    ensures Passes(f, SplitTx(f)) && Appears(f, SplitTx(f)) == 0
  {
    var m := SplitTx(f);
    var a, b := m.outputs[0], m.outputs[1];
    assert f.addresses != [] ==> Listed(f, Output(0, [f.addresses[0]], 0)) by {
      if f.addresses != [] { assert f.addresses[0] in [f.addresses[0]]; }
    }
    assert !OutputOk(f, a) && !OutputOk(f, b);
    CountSome(m.outputs, Good(f));
  }

  /** Query and check agree on every transaction with inputs and outputs exactly when at most one
      criterion looks at outputs. */
  lemma RoutesAgreeOnTransactions(f: TxFilter)
    ensures (forall m: Meta :: m.inputs > 0 && m.outputs != [] ==> (Appears(f, m) > 0 <==> Passes(f, m)))
       <==> OneOutputCriterion(f)
  {
    forall m: Meta | m.inputs > 0 && m.outputs != [] && OneOutputCriterion(f)
      ensures Appears(f, m) > 0 <==> Passes(f, m)
    {
      if Appears(f, m) > 0 { SelectedPasses(f, m); }
      if Passes(f, m) { PassingSelected(f, m); }
    }
    if !OneOutputCriterion(f) {
      SplitTxParts(f);
      var m := SplitTx(f);
      assert m.inputs > 0 && m.outputs != [];
    }
  }
}
