/** Decoding Merkle-Patricia trie nodes (Yellow Paper Appendix D) and resolving paths through them. */
module TrieWalk {
  import opened Common
  import opened CompactKey
  import opened TriePath

  type Hash = seq<Byte>

  /** A decoded RLP item. */
  datatype Item = Bytes(bytes: seq<Byte>) | List(items: seq<Item>)

  /** What a chain-specific leaf decoder makes of a value. */
  datatype Content<V> = IpldNode(node: V) | OtherValue | Undecodable

  /** A leaf whose decoder failed is still handed out, without elements. */
  datatype Node<V> =
    | Extension(nibbles: seq<Nibble>, link: Hash)
    | Leaf(nibbles: seq<Nibble>, content: Content<V>)
    | Branch(children: seq<Option<Hash>>)

  datatype Failure =
    | BadKey(error: CompactError) | PairNotBytes(position: nat) | NotBytes(position: nat) | UnrecognizedObject
    | UnknownNodeType | NotEnoughNibbles | InvalidPathElement | NoSuchLink | IncorrectPath | NotAnIpldNode | NoElements

  /** The failures that are not returned as errors: the first byte of an empty key, a pair whose parts are
      not byte strings, and the elements of a leaf whose decoder failed. */
  predicate Panics(e: Failure) {
    e == BadKey(NoFirstByte) || e.PairNotBytes? || e == NoElements
  }

  // ----- decoding -----

  /** A child of a branch: nothing, or a hash. */
  predicate IsChild(item: Item) {
    item.Bytes? && (|item.bytes| == 0 || |item.bytes| == 32)
  }

  function ChildOf(item: Item): Option<Hash>
    requires IsChild(item)
  {
    if |item.bytes| == 0 then None else Some(item.bytes)
  }

  /** What is wrong with an item that is no child. */
  function Fault(item: Item, position: nat): Failure {
    if item.List? then NotBytes(position) else UnrecognizedObject
  }

  /** All items are children and are returned in order, or the first that is none is reported. */
  ghost predicate Parsed(items: seq<Item>, r: Result<seq<Option<Hash>>, Failure>) {
    match r
    case Ok(links) =>
      |links| == |items| && forall i :: 0 <= i < |items| ==> IsChild(items[i]) && links[i] == ChildOf(items[i])
    case Err(e) =>
      exists i :: FirstFault(items, i) && e == Fault(items[i], i)
  }

  predicate FirstFault(items: seq<Item>, i: int) {
    0 <= i < |items| && !IsChild(items[i]) && forall j :: 0 <= j < i ==> IsChild(items[j])
  }

  lemma ParsedOnce(items: seq<Item>, r: Result<seq<Option<Hash>>, Failure>, q: Result<seq<Option<Hash>>, Failure>)
    requires Parsed(items, r) && Parsed(items, q)
    ensures r == q
  {
    if r.Err? && q.Err? {
      var i :| FirstFault(items, i) && r.error == Fault(items[i], i);
      var j :| FirstFault(items, j) && q.error == Fault(items[j], j);
      assert i == j;
    } else if r.Ok? && q.Ok? {
      assert r.value == q.value;
    }
  }

  function BranchLinks(items: seq<Item>): (r: Result<seq<Option<Hash>>, Failure>)
    ensures Parsed(items, r)
  {
    if items == [] then Ok([])
    else
      var last := |items| - 1;
      var before := BranchLinks(items[..last]);
      if before.Err? then
        FaultStays(items, before);
        before
      else if !IsChild(items[last]) then
        assert FirstFault(items, last);
        Err(Fault(items[last], last))
      else Ok(before.value + [ChildOf(items[last])])
  }

  lemma FaultStays(items: seq<Item>, r: Result<seq<Option<Hash>>, Failure>)
    requires items != [] && Parsed(items[..|items| - 1], r) && r.Err?
    ensures Parsed(items, r)
  {
    var most := items[..|items| - 1];
    var i :| FirstFault(most, i) && r.error == Fault(most[i], i);
    assert FirstFault(items, i) && r.error == Fault(items[i], i);
  }

  /** Accepts exactly items that are all empty or 32 bytes, and reports the first that is neither. */
  method ParseTrieNodeBranch(items: seq<Item>) returns (r: Result<seq<Option<Hash>>, Failure>)
    ensures Parsed(items, r) && r == BranchLinks(items)
  {
    var out: seq<Option<Hash>> := [];
    for i := 0 to |items|
      invariant Parsed(items[..i], Ok(out))
    {
      assert forall j :: 0 <= j < i ==> items[..i][j] == items[j];
      match items[i]
      case List(_) =>
        assert FirstFault(items, i);
        r := Err(NotBytes(i));
        ParsedOnce(items, r, BranchLinks(items));
        return;
      case Bytes(b) =>
        if |b| == 0 {
          out := out + [None];
        } else if |b| == 32 {
          out := out + [Some(b)];
        } else {
          assert FirstFault(items, i);
          r := Err(UnrecognizedObject);
          ParsedOnce(items, r, BranchLinks(items));
          return;
        }
    }
    assert items[..|items|] == items;
    r := Ok(out);
    ParsedOnce(items, r, BranchLinks(items));
  }

  function DecodeTrieNode<V>(items: seq<Item>, leafDecoder: seq<Byte> -> Content<V>): Result<Node<V>, Failure> {
    if |items| == 2 then
      if items[0].List? then Err(PairNotBytes(0))
      else if items[1].List? then Err(PairNotBytes(1))
      else match DecodeCompactKey(items[0].bytes)
        case Err(e) => Err(BadKey(e))
        case Ok(key) =>
          if key.0 then Ok(Leaf(key.1, leafDecoder(items[1].bytes))) else Ok(Extension(key.1, items[1].bytes))
    else if |items| == 17 then
      match BranchLinks(items)
      case Err(e) => Err(e)
      case Ok(children) => Ok(Branch(children))
    else Err(UnknownNodeType)
  }

  /** Exactly which items decode, and to what: a pair of byte strings whose first byte is below 64, by its
      bit of value 32 a leaf or an extension; or seventeen items that are empty or hashes. It panics on a
      pair with a list in it or an empty key. */
  lemma DecodesExactly<V>(items: seq<Item>, leafDecoder: seq<Byte> -> Content<V>)
    ensures var r := DecodeTrieNode(items, leafDecoder);
            var pair := |items| == 2 && items[0].Bytes? && items[1].Bytes? && items[0].bytes != [];
            && (r.Ok? <==>
                || (pair && items[0].bytes[0] < 64)
                || (|items| == 17 && forall i :: 0 <= i < 17 ==> items[i].Bytes? && |items[i].bytes| in {0, 32}))
            && (r.Ok? && |items| == 2 ==>
                  && (r.value.Leaf? <==> items[0].bytes[0] >= 32)
                  && (r.value.Leaf? ==> r.value.content == leafDecoder(items[1].bytes))
                  && (r.value.Extension? <==> items[0].bytes[0] < 32)
                  && (r.value.Extension? ==> r.value.link == items[1].bytes))
            && (r.Ok? && |items| == 17 ==>
                  && r.value.Branch? && |r.value.children| == 17
                  && forall i :: 0 <= i < 17 ==>
                       r.value.children[i] == if items[i].bytes == [] then None else Some(items[i].bytes))
            && (r.Err? && Panics(r.error) <==> |items| == 2 && !pair)
  {
    if |items| == 17 {
      var b := BranchLinks(items);
      assert Parsed(items, b);
      if b.Err? {
        var i :| FirstFault(items, i) && b.error == Fault(items[i], i);
      }
    }
  }

  // ----- resolving -----

  function HexIndex(s: string): (i: int)
    ensures -1 <= i < 16
  {
    if |s| != 1 then -1
    else if '0' <= s[0] <= '9' then s[0] as int - '0' as int
    else if 'a' <= s[0] <= 'f' then s[0] as int - 'a' as int + 10
    else -1
  }

  function HexDigit(n: Nibble): char {
    if n < 10 then '0' + n as char else 'a' + (n - 10) as char
  }

  lemma HexDigitIndex(n: Nibble)
    ensures HexIndex([HexDigit(n)]) == n && HexDigit(n) as int < 0x80
  {
  }

  lemma HexIndexDigit(c: char)
    requires HexIndex([c]) != -1
    ensures HexDigit(HexIndex([c])) == c && c as int < 0x80
  {
  }

  function Hex(ns: seq<Nibble>): (s: string)
    ensures |s| == |ns|
  {
    seq(|ns|, i requires 0 <= i < |ns| => HexDigit(ns[i]))
  }

  /** The digits are the sixteen lower-case ones. */
  lemma HexDigits()
    ensures Hex([0, 1, 2, 3, 4, 5, 6, 7, 8, 9, 10, 11, 12, 13, 14, 15]) == "0123456789abcdef"
  {
  }

  predicate AllHex(s: string) {
    forall i :: 0 <= i < |s| ==> HexIndex([s[i]]) != -1
  }

  /** What extensions and leaves do with the start of a path: compare it to their nibbles. */
  function MatchNibbles(p: seq<string>, nibbles: seq<Nibble>): Result<seq<string>, Failure> {
    var (idx, rest) := Shift(p, |nibbles|);
    if Len(idx) < |nibbles| then Err(NotEnoughNibbles)
    else if !AllHex(idx) then Err(InvalidPathElement)
    else if exists i :: 0 <= i < |nibbles| && (i >= |idx| || idx[i] != HexDigit(nibbles[i])) then Err(NoSuchLink)
    else Ok(rest)
  }

  /** Where a step leads: across a link, or into the content of a leaf, with the path that is left. */
  datatype Step<V> = Across(link: Hash, rest: seq<string>) | Into(node: V, rest: seq<string>)

  function Resolve<V>(t: Node<V>, p: seq<string>): Result<Step<V>, Failure> {
    match t
    case Extension(nibbles, link) =>
      (match MatchNibbles(p, nibbles)
       case Err(e) => Err(e)
       case Ok(rest) => Ok(Across(link, rest)))
    case Leaf(nibbles, content) =>
      if content.Undecodable? then Err(NoElements)
      else
        var left := if |nibbles| != 0 then MatchNibbles(p, nibbles) else Ok(p);
        if left.Err? then Err(left.error)
        else if content.IpldNode? then Ok(Into(content.node, left.value))
        else Err(NotAnIpldNode)
    case Branch(children) =>
      var (idx, rest) := Shift(p, 1);
      var hidx := HexIndex(idx);
      if hidx == -1 then Err(IncorrectPath)
      else if hidx < |children| && children[hidx].Some? then Ok(Across(children[hidx].value, rest))
      else Err(NoSuchLink)
  }

  lemma {:induction false} HexIsAscii(ns: seq<Nibble>)
    ensures Ascii(Hex(ns)) && AllHex(Hex(ns)) && Len(Hex(ns)) == |ns|
  {
    forall i | 0 <= i < |ns| ensures Hex(ns)[i] as int < 0x80 && HexIndex([Hex(ns)[i]]) != -1 { HexDigitIndex(ns[i]); }
    AsciiLen(Hex(ns));
  }

  /** A prefix of the right length in bytes is exactly what is taken. */
  lemma {:induction false} TakenPrefix(s: string, i: nat, k: nat)
    requires k <= |s| && Len(s[..k]) == i && forall j :: 0 <= j < k ==> Len(s[..j]) < i
    ensures Taken(s, i) == k
  {
    if s == [] {
    } else if k == |s| {
      var most := s[..|s| - 1];
      var j := Taken(most, i);
      assert s[..j] == most[..j];
      assert Len(s[..j]) < i;
    } else {
      var most := s[..|s| - 1];
      assert s[..k] == most[..k];
      forall j | 0 <= j < k ensures Len(most[..j]) < i { assert most[..j] == s[..j]; }
      TakenPrefix(most, i, k);
    }
  }

  lemma PrefixIsTaken(s: string, ns: seq<Nibble>)
    requires Hex(ns) <= s
    ensures Taken(s, |ns|) == |ns| && Len(s[..|ns|]) == |ns|
  {
    HexIsAscii(ns);
    forall j | 0 <= j <= |ns| ensures Len(s[..j]) == j {
      assert s[..j] == Hex(ns)[..j];
      AsciiLen(s[..j]);
    }
    TakenPrefix(s, |ns|, |ns|);
  }

  lemma PrefixMatches(p: seq<string>, ns: seq<Nibble>)
    requires Hex(ns) <= Flatten(p)
    ensures MatchNibbles(p, ns) == Ok(DropChars(p, |ns|))
  {
    PrefixIsTaken(Flatten(p), ns);
    HexIsAscii(ns);
    assert Flatten(p)[..|ns|] == Hex(ns);
  }

  lemma MatchIsPrefix(p: seq<string>, ns: seq<Nibble>)
    requires MatchNibbles(p, ns).Ok?
    ensures Hex(ns) <= Flatten(p)
  {
    var k := Taken(Flatten(p), |ns|);
    var idx := Flatten(p)[..k];
    forall i | 0 <= i < |idx| ensures idx[i] as int < 0x80 { HexIndexDigit(idx[i]); }
    AsciiLen(idx);
    assert forall i :: 0 <= i < |ns| ==> Flatten(p)[i] == Hex(ns)[i];
  }

  /** Nibbles match exactly the paths that start with their hex digits; those are then taken off. */
  lemma MatchExact(p: seq<string>, ns: seq<Nibble>)
    ensures MatchNibbles(p, ns).Ok? <==> Hex(ns) <= Flatten(p)
    ensures MatchNibbles(p, ns).Ok? ==> MatchNibbles(p, ns).value == DropChars(p, |ns|)
  {
    if Hex(ns) <= Flatten(p) { PrefixMatches(p, ns); }
    if MatchNibbles(p, ns).Ok? { MatchIsPrefix(p, ns); }
  }
}
