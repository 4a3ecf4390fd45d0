/** The Bitcoin transaction tree: nodes built layer by layer, and paths resolved through them. */
module BtcMerkle {
  import opened Common

  type Hash = seq<Byte>

  /** A node links to its two children by hash. */
  datatype TxTrie = TxTrie(left: Hash, right: Hash)

  /** The 64 bytes of a node: both child hashes copied into place. */
  method RawData(t: TxTrie) returns (out: array<Byte>)
    requires |t.left| == 32 && |t.right| == 32
    ensures fresh(out) && out[..] == t.left + t.right
    ensures forall sha :: NodeHash(sha, t) == sha(out[..])
  {
    out := new Byte[64](_ => 0);
    for i := 0 to 32
      invariant out[..i] == t.left[..i]
    {
      out[i] := t.left[i];
    }
    for i := 0 to 32
      invariant out[..32] == t.left && out[32..32 + i] == t.right[..i]
    {
      out[32 + i] := t.right[i];
    }
    assert out[..] == out[..32] + out[32..64];
  }

  function NodeHash(sha: Hash -> Hash, t: TxTrie): Hash {
    sha(t.left + t.right)
  }

  datatype ResolveError = ZeroLengthPath | NoSuchLink

  function Resolve(t: TxTrie, path: seq<string>): Result<(Hash, seq<string>), ResolveError> {
    if path == [] then Err(ZeroLengthPath)
    else if path[0] == "0" then Ok((t.left, path[1..]))
    else if path[0] == "1" then Ok((t.right, path[1..]))
    else Err(NoSuchLink)
  }

  // ----- the tree, seen from the root -----

  /** Size of the d-th layer above n transactions. */
  function Size(n: nat, d: nat): nat {
    if d == 0 then n else (Size(n, d - 1) + 1) / 2
  }

  /** The value at a place of a layer; a place past the end of the layer repeats its last element. */
  function Value(sha: Hash -> Hash, txs: seq<Hash>, d: nat, i: nat): Hash
    requires |txs| > 0
  {
    SizePositive(|txs|, d);
    var j := if i < Size(|txs|, d) then i else Size(|txs|, d) - 1;
    if d == 0 then txs[j] else sha(Value(sha, txs, d - 1, 2 * j) + Value(sha, txs, d - 1, 2 * j + 1))
  }

  lemma {:induction false} SizePositive(n: nat, d: nat)
    requires n > 0
    ensures Size(n, d) > 0
  {
    if d > 0 { SizePositive(n, d - 1); }
  }

  function NodeAt(sha: Hash -> Hash, txs: seq<Hash>, d: nat, i: nat): TxTrie
    requires |txs| > 0 && d > 0
  {
    TxTrie(Value(sha, txs, d - 1, 2 * i), Value(sha, txs, d - 1, 2 * i + 1))
  }

  lemma {:induction false} NodeHashes(sha: Hash -> Hash, txs: seq<Hash>, d: nat, i: nat)
    requires |txs| > 0 && d > 0 && i < Size(|txs|, d)
    ensures NodeHash(sha, NodeAt(sha, txs, d, i)) == Value(sha, txs, d, i)
  {
  }

  function LayerNodes(sha: Hash -> Hash, txs: seq<Hash>, d: nat): seq<TxTrie>
    requires |txs| > 0 && d > 0
  {
    seq(Size(|txs|, d), i requires 0 <= i => NodeAt(sha, txs, d, i))
  }

  /** The nodes of the layers 1 to d. */
  function AllNodes(sha: Hash -> Hash, txs: seq<Hash>, d: nat): seq<TxTrie>
    requires |txs| > 0
  {
    if d == 0 then [] else AllNodes(sha, txs, d - 1) + LayerNodes(sha, txs, d)
  }

  /** Layers above n transactions. */
  function Depth(n: nat): nat {
    if n <= 1 then 0 else 1 + Depth((n + 1) / 2)
  }

  function Pow2(d: nat): (p: nat)
    ensures p > 0
  {
    if d == 0 then 1 else 2 * Pow2(d - 1)
  }

  lemma {:induction false} DepthIsLog(n: nat)
    requires n >= 1
    ensures n <= Pow2(Depth(n))
    ensures n >= 2 ==> Depth(n) >= 1 && Pow2(Depth(n) - 1) < n
  {
    if n > 1 {
      DepthIsLog((n + 1) / 2);
    }
  }

  lemma {:induction false} SizeShifts(n: nat, d: nat)
    ensures Size(n, d + 1) == Size((n + 1) / 2, d)
  {
    if d > 0 { SizeShifts(n, d - 1); }
  }

  /** The layer at the depth has one element, those below it have more. */
  lemma {:induction false} SizeAtDepth(n: nat, d: nat)
    requires n >= 1
    ensures Size(n, d) <= 1 <==> d >= Depth(n)
  {
    if d == 0 {
    } else if n == 1 {
      SizeAtDepth(1, d - 1);
      SizePositive(1, d - 1);
    } else {
      SizeShifts(n, d - 1);
      SizeAtDepth((n + 1) / 2, d - 1);
    }
  }

  /** Each layer that needs padding costs one extra node, and there is at most one per layer. */
  lemma {:induction false} NodeCount(sha: Hash -> Hash, txs: seq<Hash>, d: nat)
    requires |txs| > 0
    ensures |txs| <= |AllNodes(sha, txs, d)| + Size(|txs|, d) <= |txs| + d
  {
    if d > 0 { NodeCount(sha, txs, d - 1); }
  }

  // ----- the code -----

  method BuildLayer(sha: Hash -> Hash, layer: seq<Hash>, ghost txs: seq<Hash>, ghost d: nat)
    returns (nodes: seq<TxTrie>, next: seq<Hash>)
    requires |txs| > 0 && |layer| == 2 * Size(|txs|, d + 1)
    requires forall i :: 0 <= i < |layer| ==> layer[i] == Value(sha, txs, d, i)
    ensures nodes == LayerNodes(sha, txs, d + 1)
    ensures |next| == Size(|txs|, d + 1) && forall i :: 0 <= i < |next| ==> next[i] == Value(sha, txs, d + 1, i)
  {
    nodes, next := [], [];
    for i := 0 to |layer| / 2
      invariant |nodes| == i && |next| == i
      invariant forall k :: 0 <= k < i ==> nodes[k] == NodeAt(sha, txs, d + 1, k)
      invariant forall k :: 0 <= k < i ==> next[k] == Value(sha, txs, d + 1, k)
    {
      var left := layer[i * 2];
      var right := layer[i * 2 + 1];
      var t := TxTrie(left, right);
      NodeHashes(sha, txs, d + 1, i);
      nodes := nodes + [t];
      next := next + [NodeHash(sha, t)];
    }
  }

  /** The nodes come out bottom layer first, so the last is the root of the whole tree. */
  method MkMerkleTree(sha: Hash -> Hash, txs: seq<Hash>) returns (out: seq<TxTrie>)
    ensures |txs| <= 1 ==> out == []
    ensures |txs| >= 2 ==>
              && out == AllNodes(sha, txs, Depth(|txs|))
              && |txs| - 1 <= |out| <= |txs| - 1 + Depth(|txs|)
              && NodeHash(sha, out[|out| - 1]) == Value(sha, txs, Depth(|txs|), 0)
  {
    var layer := txs;
    out := [];
    ghost var d := 0;
    while |layer| > 1
      invariant |txs| == 0 ==> layer == [] && out == [] && d == 0
      invariant |txs| > 0 ==>
                  && d <= Depth(|txs|) && |layer| == Size(|txs|, d) && out == AllNodes(sha, txs, d)
                  && forall i :: 0 <= i < |layer| ==> layer[i] == Value(sha, txs, d, i)
      decreases |layer|
    {
      SizeAtDepth(|txs|, d);
      if |layer| % 2 != 0 {
        layer := layer + [layer[|layer| - 1]];
      }
      var nodes, next := BuildLayer(sha, layer, txs, d);
      out := out + nodes;
      layer := next;
      d := d + 1;
    }
    if |txs| > 0 {
      SizeAtDepth(|txs|, d);
      SizePositive(|txs|, d);
      assert d == Depth(|txs|);
      NodeCount(sha, txs, d);
      if |txs| > 1 { LastIsRoot(sha, txs); }
    }
  }

  // ----- following a path -----

  /** A node among the emitted ones that has the given hash. */
  function Find(sha: Hash -> Hash, out: seq<TxTrie>, h: Hash): Option<TxTrie> {
    if out == [] then None
    else if NodeHash(sha, out[0]) == h then Some(out[0])
    else Find(sha, out[1..], h)
  }

  /** Resolve over and over, fetching the node behind each link, until the path is used up. */
  function Follow(sha: Hash -> Hash, out: seq<TxTrie>, h: Hash, path: seq<string>): Option<Hash>
    decreases |path|
  {
    if path == [] then Some(h)
    else
      var t := Find(sha, out, h);
      if t.None? then None
      else match Resolve(t.value, path)
        case Err(_) => None
        case Ok(step) => if |step.1| < |path| then Follow(sha, out, step.0, step.1) else None
  }

  /** No two different emitted nodes have the same hash. */
  ghost predicate CollisionFree(sha: Hash -> Hash, out: seq<TxTrie>) {
    forall i, j :: 0 <= i < |out| && 0 <= j < |out| && NodeHash(sha, out[i]) == NodeHash(sha, out[j]) ==>
      out[i] == out[j]
  }

  lemma {:induction false} FindEmitted(sha: Hash -> Hash, out: seq<TxTrie>, k: nat)
    requires CollisionFree(sha, out) && k < |out|
    ensures Find(sha, out, NodeHash(sha, out[k])) == Some(out[k])
  {
    if NodeHash(sha, out[0]) != NodeHash(sha, out[k]) {
      FindEmitted(sha, out[1..], k - 1);
    }
  }

  lemma {:induction false} Emitted(sha: Hash -> Hash, txs: seq<Hash>, d: nat, i: nat, top: nat) returns (k: nat)
    requires |txs| > 0 && 0 < d <= top && i < Size(|txs|, d)
    ensures k < |AllNodes(sha, txs, top)| && AllNodes(sha, txs, top)[k] == NodeAt(sha, txs, d, i)
  {
    if d == top {
      k := |AllNodes(sha, txs, top - 1)| + i;
    } else {
      k := Emitted(sha, txs, d, i, top - 1);
    }
  }

  /** Where the ancestor of transaction i stands in layer d. */
  function Place(i: nat, d: nat): nat {
    if d == 0 then i else Place(i, d - 1) / 2
  }

  /** Number i in d binary digits, highest first. */
  function Spelling(i: nat, d: nat): seq<string> {
    if d == 0 then [] else [if Place(i, d - 1) % 2 == 0 then "0" else "1"] + Spelling(i, d - 1)
  }

  /** The number that digits spell, read from the left. */
  function Read(digits: seq<string>): nat {
    if digits == [] then 0
    else (if digits[0] == "0" then 0 else Pow2(|digits| - 1)) + Read(digits[1..])
  }

  lemma HalvesAddUp(c: nat, p: nat)
    ensures c * p == (c / 2) * (2 * p) + (if c % 2 == 0 then 0 else p)
  {
    var h := c / 2;
    if c % 2 == 0 { assert c == 2 * h; } else { assert c == 2 * h + 1; }
  }

  lemma {:induction false} SpellingReads(i: nat, d: nat)
    ensures |Spelling(i, d)| == d && Read(Spelling(i, d)) + Place(i, d) * Pow2(d) == i
  {
    if d > 0 {
      SpellingReads(i, d - 1);
      assert Spelling(i, d)[1..] == Spelling(i, d - 1);
      HalvesAddUp(Place(i, d - 1), Pow2(d - 1));
    }
  }

  lemma {:induction false} PlaceInLayer(n: nat, i: nat, d: nat)
    requires i < n
    ensures Place(i, d) < Size(n, d)
  {
    if d > 0 { PlaceInLayer(n, i, d - 1); }
  }

  lemma FollowStep(sha: Hash -> Hash, out: seq<TxTrie>, k: nat, i: nat, d: nat)
    requires CollisionFree(sha, out) && k < |out| && d > 0
    ensures Follow(sha, out, NodeHash(sha, out[k]), Spelling(i, d))
         == Follow(sha, out, if Place(i, d - 1) % 2 == 0 then out[k].left else out[k].right, Spelling(i, d - 1))
  {
    FindEmitted(sha, out, k);
    assert Spelling(i, d)[1..] == Spelling(i, d - 1);
    assert "0" != "1";
  }

  /** The child the next digit names is the value at the place of i one layer down. */
  lemma ChildOnPath(sha: Hash -> Hash, txs: seq<Hash>, i: nat, d: nat)
    requires i < |txs| && d > 0
    ensures var t := NodeAt(sha, txs, d, Place(i, d));
            (if Place(i, d - 1) % 2 == 0 then t.left else t.right) == Value(sha, txs, d - 1, Place(i, d - 1))
  {
    var j, c := Place(i, d), Place(i, d - 1);
    assert c == 2 * j + c % 2;
  }

  /** One digit leads one layer down. */
  lemma {:induction false} OneLayerDown(sha: Hash -> Hash, txs: seq<Hash>, i: nat, d: nat, top: nat)
    requires i < |txs| && 0 < d <= top && CollisionFree(sha, AllNodes(sha, txs, top))
    ensures Follow(sha, AllNodes(sha, txs, top), Value(sha, txs, d, Place(i, d)), Spelling(i, d))
         == Follow(sha, AllNodes(sha, txs, top), Value(sha, txs, d - 1, Place(i, d - 1)), Spelling(i, d - 1))
  {
    PlaceInLayer(|txs|, i, d);
    var k := Emitted(sha, txs, d, Place(i, d), top);
    NodeHashes(sha, txs, d, Place(i, d));
    FollowStep(sha, AllNodes(sha, txs, top), k, i, d);
    ChildOnPath(sha, txs, i, d);
  }

  /** From the place of i in layer d, the last d digits of i lead to transaction i. */
  lemma {:induction false} FollowFrom(sha: Hash -> Hash, txs: seq<Hash>, i: nat, d: nat, top: nat)
    requires i < |txs| && d <= top && CollisionFree(sha, AllNodes(sha, txs, top))
    ensures Follow(sha, AllNodes(sha, txs, top), Value(sha, txs, d, Place(i, d)), Spelling(i, d)) == Some(txs[i])
  {
    if d > 0 {
      FollowFrom(sha, txs, i, d - 1, top);
      OneLayerDown(sha, txs, i, d, top);
    }
  }

  lemma {:induction false} LastIsRoot(sha: Hash -> Hash, txs: seq<Hash>)
    requires |txs| >= 2
    ensures var out := AllNodes(sha, txs, Depth(|txs|));
            out != [] && NodeHash(sha, out[|out| - 1]) == Value(sha, txs, Depth(|txs|), 0)
    ensures Size(|txs|, Depth(|txs|)) == 1
  {
    var d := Depth(|txs|);
    SizeAtDepth(|txs|, d);
    SizePositive(|txs|, d);
    assert LayerNodes(sha, txs, d) == [NodeAt(sha, txs, d, 0)];
    NodeHashes(sha, txs, d, 0);
  }

  /** The spelling names i itself. */
  lemma {:induction false} SpellingIsBinary(n: nat, i: nat)
    requires i < n
    ensures |Spelling(i, Depth(n))| == Depth(n) && Read(Spelling(i, Depth(n))) == i
  {
    SpellingReads(i, Depth(n));
    PlaceInLayer(n, i, Depth(n));
    SizeAtDepth(n, Depth(n));
  }

  /** From the last emitted node the spelling of i in depth-many digits leads to transaction i. */
  lemma {:induction false} PathLeadsToTransaction(sha: Hash -> Hash, txs: seq<Hash>, out: seq<TxTrie>, i: nat)
    requires |txs| >= 2 && i < |txs| && out == AllNodes(sha, txs, Depth(|txs|)) && CollisionFree(sha, out)
    ensures out != [] && Follow(sha, out, NodeHash(sha, out[|out| - 1]), Spelling(i, Depth(|txs|))) == Some(txs[i])
  {
    LastIsRoot(sha, txs);
    PlaceInLayer(|txs|, i, Depth(|txs|));
    FollowFrom(sha, txs, i, Depth(|txs|), Depth(|txs|));
  }
}
