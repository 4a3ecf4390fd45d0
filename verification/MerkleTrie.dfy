/** Merkle-Patricia tries as maps, and what walking their stored nodes finds. */
module MerkleTrie {
  import opened Common
  import opened CompactKey
  import opened TriePath
  import opened TrieWalk

  /** A trie over nibbles. Branches have sixteen children and an empty value slot. */
  datatype Trie =
    | Nothing
    | LeafAt(key: seq<Nibble>, value: seq<Byte>)
    | ExtensionAt(key: seq<Nibble>, child: Trie)
    | BranchAt(children: seq<Trie>)

  ghost predicate WellFormed(t: Trie) {
    match t
    case Nothing => true
    case LeafAt(_, _) => true
    case ExtensionAt(key, child) => key != [] && child != Nothing && WellFormed(child)
    case BranchAt(children) => |children| == 16 && forall i :: 0 <= i < 16 ==> WellFormed(children[i])
  }

  /** The value a key is mapped to. */
  function Lookup(t: Trie, k: seq<Nibble>): Option<seq<Byte>> {
    match t
    case Nothing => None
    case LeafAt(key, value) => if k == key then Some(value) else None
    case ExtensionAt(key, child) => if key <= k then Lookup(child, k[|key|..]) else None
    case BranchAt(children) => if k != [] && k[0] < |children| then Lookup(children[k[0]], k[1..]) else None
  }

  // ----- the stored form -----

  function Encode(hash: seq<Item> -> Hash, t: Trie): seq<Item> {
    match t
    case Nothing => []
    case LeafAt(key, value) => [Bytes(HexPrefix(key, true)), Bytes(value)]
    case ExtensionAt(key, child) => [Bytes(HexPrefix(key, false)), Bytes(hash(Encode(hash, child)))]
    case BranchAt(children) =>
      seq(|children|, i requires 0 <= i < |children| =>
        if children[i] == Nothing then Bytes([]) else Bytes(hash(Encode(hash, children[i])))) + [Bytes([])]
  }

  function Root(hash: seq<Item> -> Hash, t: Trie): Hash { hash(Encode(hash, t)) }

  /** Every node of the trie is in the store under its hash. */
  ghost predicate Stored(store: map<Hash, seq<Item>>, hash: seq<Item> -> Hash, t: Trie) {
    t != Nothing ==>
      && Root(hash, t) in store && store[Root(hash, t)] == Encode(hash, t)
      && (t.ExtensionAt? ==> Stored(store, hash, t.child))
      && (t.BranchAt? ==> forall i :: 0 <= i < |t.children| ==> Stored(store, hash, t.children[i]))
  }

  ghost predicate Hashes32(hash: seq<Item> -> Hash) { forall x :: |hash(x)| == 32 }

  function ChildLink(hash: seq<Item> -> Hash, t: Trie): Option<Hash> {
    if t == Nothing then None else Some(Root(hash, t))
  }

  function Links(hash: seq<Item> -> Hash, children: seq<Trie>): seq<Option<Hash>> {
    seq(|children|, i requires 0 <= i < |children| => ChildLink(hash, children[i])) + [None]
  }

  lemma LinksDecode(items: seq<Item>, links: seq<Option<Hash>>)
    requires |items| == |links|
    requires forall i :: 0 <= i < |items| ==> IsChild(items[i]) && links[i] == ChildOf(items[i])
    ensures BranchLinks(items) == Ok(links)
  {
    ParsedOnce(items, BranchLinks(items), Ok(links));
  }

  /** Stored nodes decode to what they encode. */
  lemma DecodesToNode<V>(hash: seq<Item> -> Hash, dec: seq<Byte> -> Content<V>, t: Trie)
    requires WellFormed(t) && t != Nothing && Hashes32(hash)
    ensures t.LeafAt? ==> DecodeTrieNode(Encode(hash, t), dec) == Ok(Leaf(t.key, dec(t.value)))
    ensures t.ExtensionAt? ==> DecodeTrieNode(Encode(hash, t), dec) == Ok(Extension(t.key, Root(hash, t.child)))
    ensures t.BranchAt? ==>
              DecodeTrieNode(Encode(hash, t), dec) == Ok(Branch(Links(hash, t.children)))
  {
    match t
    case LeafAt(key, _) => DecodeInvertsEncode(key, true);
    case ExtensionAt(key, _) => DecodeInvertsEncode(key, false);
    case BranchAt(children) =>
      LinksDecode(Encode(hash, t), Links(hash, children));
  }

  // ----- walking -----

  /** How a walk ends: inside a leaf's node with the path that is left, with an error, or in a panic. */
  datatype Walked<V> = Found(node: V, rest: seq<string>) | Missed | Crashed

  function Failed<V>(e: Failure): Walked<V> {
    if Panics(e) then Crashed else Missed
  }

  /** Resolve over and over, loading the node behind each link. Only an extension without nibbles would
      not shorten the path; the walk is given up there. */
  function Walk<V>(store: map<Hash, seq<Item>>, dec: seq<Byte> -> Content<V>, h: Hash, p: seq<string>): Walked<V>
    decreases |Flatten(p)|
  {
    if h !in store then Missed
    else
      var node := DecodeTrieNode(store[h], dec);
      if node.Err? then Failed(node.error)
      else match Resolve(node.value, p)
        case Err(e) => Failed(e)
        case Ok(Into(v, rest)) => Found(v, rest)
        case Ok(Across(link, rest)) => if |Flatten(rest)| < |Flatten(p)| then Walk(store, dec, link, rest) else Missed
  }

  /** The same on the trie itself and the characters of the path. */
  datatype Descent<V> = Reached(node: V, rest: string) | Lost | Fell

  function Descend<V>(dec: seq<Byte> -> Content<V>, t: Trie, s: string): Descent<V> {
    match t
    case Nothing => Lost
    case LeafAt(key, value) =>
      if dec(value).Undecodable? then Fell
      else if Hex(key) <= s && dec(value).IpldNode? then Reached(dec(value).node, s[|key|..])
      else Lost
    case ExtensionAt(key, child) => if Hex(key) <= s then Descend(dec, child, s[|key|..]) else Lost
    case BranchAt(children) =>
      if s != "" && 0 <= HexIndex([s[0]]) < |children| then Descend(dec, children[HexIndex([s[0]])], s[1..]) else Lost
  }

  ghost predicate SameOutcome<V>(w: Walked<V>, d: Descent<V>, p: seq<string>) {
    match d
    case Lost => w == Missed
    case Fell => w == Crashed
    case Reached(node, s) => w.Found? && w.node == node && Flatten(w.rest) == s && (NoneEmpty(p) ==> NoneEmpty(w.rest))
  }

  lemma {:induction false} TakenOne(s: string)
    requires s != ""
    ensures Taken(s, 1) == 1
  {
    if |s| == 1 {
      assert s[..0] == "";
    } else {
      TakenOne(s[..|s| - 1]);
      assert s[..1] == [s[0]];
      assert Len([s[0]]) == Len([]) + Width(s[0]);
    }
  }

  /** What a branch does with the first character. */
  lemma BranchStep(p: seq<string>)
    ensures Flatten(p) == "" ==> HexIndex(Shift(p, 1).0) == -1
    ensures Flatten(p) != "" ==> Shift(p, 1).0 == [Flatten(p)[0]]
    ensures Flatten(p) != "" && HexIndex([Flatten(p)[0]]) != -1 ==> Shift(p, 1).1 == DropChars(p, 1)
  {
    var s := Flatten(p);
    if s != "" {
      TakenOne(s);
      assert s[..1] == [s[0]];
      if HexIndex([s[0]]) != -1 {
        HexIndexDigit(s[0]);
        AsciiLen([s[0]]);
      }
    }
  }

  /** What is left of the path after a leaf's key. */
  lemma LeafRest(p: seq<string>, key: seq<Nibble>)
    ensures var left := if |key| != 0 then MatchNibbles(p, key) else Ok(p);
            if Hex(key) <= Flatten(p) then
              && left.Ok? && Flatten(left.value) == Flatten(p)[|key|..]
              && (NoneEmpty(p) ==> NoneEmpty(left.value))
            else left.Err? && !Panics(left.error)
  {
    MatchExact(p, key);
    if |key| == 0 {
      assert Hex(key) == "";
    } else if Hex(key) <= Flatten(p) {
      DropCharsSpells(p, |key|);
    }
  }

  lemma LeafOutcome<V>(store: map<Hash, seq<Item>>, hash: seq<Item> -> Hash, dec: seq<Byte> -> Content<V>,
                       t: Trie, p: seq<string>)
    requires Stored(store, hash, t) && WellFormed(t) && Hashes32(hash) && t.LeafAt?
    ensures SameOutcome(Walk(store, dec, Root(hash, t), p), Descend(dec, t, Flatten(p)), p)
  {
    DecodesToNode(hash, dec, t);
    LeafRest(p, t.key);
    var node: Node<V> := Leaf(t.key, dec(t.value));
    assert DecodeTrieNode(store[Root(hash, t)], dec) == Ok(node);
    if dec(t.value).Undecodable? { assert Resolve(node, p) == Err(NoElements); }
  }

  /** Walking the stored nodes does what descending the trie does, for every path. */
  lemma {:induction false} WalkDescends<V>(store: map<Hash, seq<Item>>, hash: seq<Item> -> Hash,
                                           dec: seq<Byte> -> Content<V>, t: Trie, p: seq<string>)
    requires Stored(store, hash, t) && WellFormed(t) && Hashes32(hash) && t != Nothing
    ensures SameOutcome(Walk(store, dec, Root(hash, t), p), Descend(dec, t, Flatten(p)), p)
    decreases t
  {
    match t
    case LeafAt(_, _) => LeafOutcome(store, hash, dec, t, p);
    case ExtensionAt(key, child) =>
      DecodesToNode(hash, dec, t);
      MatchExact(p, key);
      if Hex(key) <= Flatten(p) {
        var rest := DropChars(p, |key|);
        DropCharsSpells(p, |key|);
        WalkDescends(store, hash, dec, child, rest);
      }
    case BranchAt(children) => BranchOutcome(store, hash, dec, t, p);
  }

  lemma {:induction false} BranchOutcome<V>(store: map<Hash, seq<Item>>, hash: seq<Item> -> Hash,
                                            dec: seq<Byte> -> Content<V>, t: Trie, p: seq<string>)
    requires Stored(store, hash, t) && WellFormed(t) && Hashes32(hash) && t.BranchAt?
    ensures SameOutcome(Walk(store, dec, Root(hash, t), p), Descend(dec, t, Flatten(p)), p)
    decreases t, 0
  {
    DecodesToNode(hash, dec, t);
    BranchStep(p);
    var s := Flatten(p);
    if s != "" && HexIndex([s[0]]) != -1 {
      var child := t.children[HexIndex([s[0]])];
      DropCharsSpells(p, 1);
      var links := Links(hash, t.children);
      assert links[HexIndex([s[0]])] == ChildLink(hash, child);
      assert Descend(dec, t, s) == Descend(dec, child, s[1..]);
      if child != Nothing {
        assert Resolve(Node<V>.Branch(links), p) == Ok(Across(Root(hash, child), DropChars(p, 1)));
        assert Walk(store, dec, Root(hash, t), p) == Walk(store, dec, Root(hash, child), DropChars(p, 1));
        WalkDescends(store, hash, dec, child, DropChars(p, 1));
      }
    }
  }

  // ----- finding a key -----

  lemma HexPrefixes(key: seq<Nibble>, k: seq<Nibble>)
    ensures Hex(key) <= Hex(k) <==> key <= k
    ensures key <= k ==> Hex(k)[|key|..] == Hex(k[|key|..])
    ensures Hex(key) == Hex(k) <==> key == k
  {
    forall i | 0 <= i < |key| && i < |k| ensures Hex(key)[i] == Hex(k)[i] <==> key[i] == k[i] {
      HexDigitIndex(key[i]);
      HexDigitIndex(k[i]);
    }
    if Hex(key) <= Hex(k) {
      assert forall i :: 0 <= i < |key| ==> key[i] == k[i];
    }
    if key <= k {
      assert forall i :: 0 <= i < |key| ==> Hex(key)[i] == Hex(k)[i];
    }
  }

  lemma {:induction false} DescendFinds<V>(dec: seq<Byte> -> Content<V>, t: Trie, k: seq<Nibble>, v: V)
    requires WellFormed(t)
    ensures Descend(dec, t, Hex(k)) == Reached(v, "") <==> Lookup(t, k).Some? && dec(Lookup(t, k).value) == IpldNode(v)
  {
    match t
    case Nothing =>
    case LeafAt(key, _) => HexPrefixes(key, k);
    case ExtensionAt(key, child) =>
      HexPrefixes(key, k);
      if key <= k { DescendFinds(dec, child, k[|key|..], v); }
    case BranchAt(children) =>
      if k != [] {
        HexDigitIndex(k[0]);
        assert Hex(k)[1..] == Hex(k[1..]);
        DescendFinds(dec, children[k[0]], k[1..], v);
      }
  }

  /** However the hex digits of a key are split into path elements, the walk ends at the node of a leaf
      with nothing of the path left exactly when the trie maps the key to that leaf. */
  lemma WalkFinds<V>(store: map<Hash, seq<Item>>, hash: seq<Item> -> Hash, dec: seq<Byte> -> Content<V>,
                     t: Trie, k: seq<Nibble>, p: seq<string>, v: V)
    requires Stored(store, hash, t) && WellFormed(t) && Hashes32(hash) && t != Nothing
    requires NoneEmpty(p) && Flatten(p) == Hex(k)
    ensures Walk(store, dec, Root(hash, t), p) == Found(v, [])
       <==> Lookup(t, k).Some? && dec(Lookup(t, k).value) == IpldNode(v)
  {
    WalkDescends(store, hash, dec, t, p);
    DescendFinds(dec, t, k, v);
    var w := Walk(store, dec, Root(hash, t), p);
    assert w.Found? && Flatten(w.rest) == "" && NoneEmpty(w.rest) ==> w.rest == [];
  }

  // ----- crashing -----

  /** The leaf a path leads to through extensions and branches, whatever the path holds from there on. */
  function LeafOn(t: Trie, s: string): Option<seq<Byte>> {
    match t
    case Nothing => None
    case LeafAt(_, value) => Some(value)
    case ExtensionAt(key, child) => if Hex(key) <= s then LeafOn(child, s[|key|..]) else None
    case BranchAt(children) =>
      if s != "" && 0 <= HexIndex([s[0]]) < |children| then LeafOn(children[HexIndex([s[0]])], s[1..]) else None
  }

  lemma {:induction false} FallsAtLeaf<V>(dec: seq<Byte> -> Content<V>, t: Trie, s: string)
    ensures Descend(dec, t, s) == Fell <==> LeafOn(t, s).Some? && dec(LeafOn(t, s).value).Undecodable?
  {
    match t
    case Nothing =>
    case LeafAt(_, _) =>
    case ExtensionAt(key, child) => if Hex(key) <= s { FallsAtLeaf(dec, child, s[|key|..]); }
    case BranchAt(children) =>
      if s != "" && 0 <= HexIndex([s[0]]) < |children| { FallsAtLeaf(dec, children[HexIndex([s[0]])], s[1..]); }
  }

  /** For every path: the walk panics exactly when the path leads to a leaf whose value does not decode,
      even if the rest of the path does not match that leaf's key. */
  lemma WalkCrashes<V>(store: map<Hash, seq<Item>>, hash: seq<Item> -> Hash, dec: seq<Byte> -> Content<V>,
                       t: Trie, p: seq<string>)
    requires Stored(store, hash, t) && WellFormed(t) && Hashes32(hash) && t != Nothing
    ensures Walk(store, dec, Root(hash, t), p) == Crashed
       <==> LeafOn(t, Flatten(p)).Some? && dec(LeafOn(t, Flatten(p)).value).Undecodable?
  {
    WalkDescends(store, hash, dec, t, p);
    FallsAtLeaf(dec, t, Flatten(p));
  }
}
