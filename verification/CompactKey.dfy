/** Hex-prefix encoding (Yellow Paper Appendix C) and its decoder. */
module CompactKey {
  import opened Common

  type Nibble = n: int | 0 <= n < 16

  /** Yellow Paper Appendix C. */
  function HexPrefix(x: seq<Nibble>, leaf: bool): (b: seq<Byte>)
    ensures b != []
  {
    var f := if leaf then 2 else 0;
    if |x| % 2 == 0 then [16 * f] + Packed(x) else [16 * (f + 1) + x[0]] + Packed(x[1..])
  }

  function Join(hi: int, lo: int): Byte
    requires 0 <= hi < 16 && 0 <= lo < 16
  {
    16 * hi + lo
  }

  /** Two nibbles to a byte. */
  function Packed(x: seq<Nibble>): seq<Byte>
    requires |x| % 2 == 0
  {
    if x == [] then [] else [Join(x[0], x[1])] + Packed(x[2..])
  }

  function Expanded(k: seq<Byte>): (r: seq<Nibble>)
    ensures |r| == 2 * |k|
  {
    if k == [] then [] else Expanded(k[..|k| - 1]) + [k[|k| - 1] / 16, k[|k| - 1] % 16]
  }

  method NibbleToByte(k: seq<Byte>) returns (out: seq<Nibble>)
    ensures out == Expanded(k)
  {
    out := [];
    for i := 0 to |k|
      invariant out == Expanded(k[..i])
    {
      assert k[..i + 1][..i] == k[..i];
      out := out + [k[i] / 16];
      out := out + [k[i] % 16];
    }
    assert k[..|k|] == k;
  }

  datatype CompactError = NoFirstByte | UnknownPrefix

  /** The kind of node and the nibbles of its key. An empty key makes the code panic. */
  function DecodeCompactKey(first: seq<Byte>): Result<(bool, seq<Nibble>), CompactError> {
    if first == [] then Err(NoFirstByte)
    else match first[0] / 16
      case 0 => Ok((false, Expanded(first)[2..]))
      case 1 => Ok((false, Expanded(first)[1..]))
      case 2 => Ok((true, Expanded(first)[2..]))
      case 3 => Ok((true, Expanded(first)[1..]))
      case _ => Err(UnknownPrefix)
  }

  lemma {:induction false} ExpandedFront(b: Byte, k: seq<Byte>)
    ensures Expanded([b] + k) == [b / 16, b % 16] + Expanded(k)
  {
    if k == [] {
      assert [b] + k == [b];
      assert Expanded([b]) == Expanded([]) + [b / 16, b % 16];
    } else {
      var last := |k| - 1;
      ExpandedFront(b, k[..last]);
      assert ([b] + k)[..last + 1] == [b] + k[..last];
    }
  }

  lemma {:induction false} ExpandedPacked(x: seq<Nibble>)
    requires |x| % 2 == 0
    ensures Expanded(Packed(x)) == x
  {
    if x != [] {
      ExpandedPacked(x[2..]);
      ExpandedFront(Join(x[0], x[1]), Packed(x[2..]));
      assert x == [x[0], x[1]] + x[2..];
    }
  }

  lemma {:induction false} PackedExpanded(k: seq<Byte>)
    ensures Packed(Expanded(k)) == k
  {
    if k != [] {
      PackedExpanded(k[1..]);
      assert k == [k[0]] + k[1..];
      ExpandedFront(k[0], k[1..]);
      assert Expanded(k)[2..] == Expanded(k[1..]);
    }
  }

  lemma EncodedExpands(x: seq<Nibble>, leaf: bool)
    ensures var b := HexPrefix(x, leaf);
            if |x| % 2 == 0 then b[0] / 16 == (if leaf then 2 else 0) && Expanded(b)[2..] == x
            else b[0] / 16 == (if leaf then 3 else 1) && Expanded(b)[1..] == x
  {
    var b := HexPrefix(x, leaf);
    if |x| % 2 == 0 {
      ExpandedFront(b[0], Packed(x));
      ExpandedPacked(x);
    } else {
      ExpandedFront(b[0], Packed(x[1..]));
      ExpandedPacked(x[1..]);
      assert x == [x[0]] + x[1..];
    }
  }

  /** Decoding inverts the encoding, for every key and both kinds. */
  lemma DecodeInvertsEncode(x: seq<Nibble>, leaf: bool)
    ensures DecodeCompactKey(HexPrefix(x, leaf)) == Ok((leaf, x))
  {
    EncodedExpands(x, leaf);
  }

  /** Bytes that decode are the encoding of what they decode to exactly when the padding nibble of an
      even-length key is zero, the one nibble the decoder does not look at. */
  lemma EncodeInvertsDecode(b: seq<Byte>)
    requires DecodeCompactKey(b).Ok?
    ensures var d := DecodeCompactKey(b).value;
            HexPrefix(d.1, d.0) == b <==> (b[0] / 16 % 2 == 0 ==> b[0] % 16 == 0)
  {
    assert b == [b[0]] + b[1..];
    ExpandedFront(b[0], b[1..]);
    var x := DecodeCompactKey(b).value.1;
    if b[0] / 16 % 2 == 0 {
      assert x == Expanded(b[1..]);
      EncodedEven(b[1..], b[0] / 16 == 2);
      assert ([b[0] - b[0] % 16] + b[1..])[0] == b[0] - b[0] % 16;
    } else {
      assert x == [b[0] % 16] + Expanded(b[1..]);
      EncodedOdd(b[0] % 16, b[1..], b[0] / 16 == 3);
    }
  }

  lemma EncodedEven(k: seq<Byte>, leaf: bool)
    ensures HexPrefix(Expanded(k), leaf) == [if leaf then 32 else 0] + k
  {
    PackedExpanded(k);
  }

  lemma EncodedOdd(n: Nibble, k: seq<Byte>, leaf: bool)
    ensures HexPrefix([n] + Expanded(k), leaf) == [(if leaf then 48 else 16) + n] + k
  {
    PackedExpanded(k);
    assert ([n] + Expanded(k))[1..] == Expanded(k);
  }
}
