/** Taking a number of characters off a path given as a list of elements. Go counts the length of a
    string in bytes and walks over it in characters, so both are kept apart here. */
module TriePath {
  import opened Common

  // ----- taking characters off a path -----

  /** Bytes of a character in UTF-8; Go's len counts these. */
  function Width(c: char): (w: nat)
    ensures 1 <= w <= 4
  {
    var code := c as int;
    if code < 0x80 then 1 else if code < 0x800 then 2 else if code < 0x1_0000 then 3 else 4
  }

  function Len(s: string): nat {
    if s == [] then 0 else Len(s[..|s| - 1]) + Width(s[|s| - 1])
  }

  /** How many characters it takes to reach i bytes, or all of them. */
  function Taken(s: string, i: nat): (k: nat)
    ensures k <= |s|
  {
    if s == [] then 0
    else
      var k := Taken(s[..|s| - 1], i);
      if Len(s[..k]) < i then |s| else k
  }

  /** The path without its first k characters and without empty elements. */
  function DropChars(p: seq<string>, k: nat): seq<string> {
    if p == [] then []
    else if k >= |p[0]| then DropChars(p[1..], k - |p[0]|)
    else [p[0][k..]] + DropChars(p[1..], 0)
  }

  function Shift(p: seq<string>, i: nat): (string, seq<string>) {
    var k := Taken(Flatten(p), i);
    (Flatten(p)[..k], if Len(Flatten(p)[..k]) == i then DropChars(p, k) else [])
  }

  predicate NoneEmpty(p: seq<string>) {
    forall i :: 0 <= i < |p| ==> p[i] != ""
  }

  lemma {:induction false} DropCharsSpells(p: seq<string>, k: nat)
    requires k <= |Flatten(p)|
    ensures Flatten(DropChars(p, k)) == Flatten(p)[k..] && NoneEmpty(DropChars(p, k))
  {
    if p != [] {
      if k >= |p[0]| {
        DropCharsSpells(p[1..], k - |p[0]|);
      } else {
        DropCharsSpells(p[1..], 0);
        var rest := DropChars(p[1..], 0);
        assert ([p[0][k..]] + rest)[1..] == rest;
        assert Flatten(p[1..])[0..] == Flatten(p[1..]);
      }
    }
  }

  predicate Ascii(s: string) { forall i :: 0 <= i < |s| ==> s[i] as int < 0x80 }

  lemma {:induction false} AsciiLen(s: string)
    requires Ascii(s)
    ensures Len(s) == |s|
  {
    if s != [] { AsciiLen(s[..|s| - 1]); }
  }

  lemma {:induction false} AsciiTaken(s: string, i: nat)
    requires Ascii(s)
    ensures Taken(s, i) == if i < |s| then i else |s|
  {
    if s != [] {
      AsciiTaken(s[..|s| - 1], i);
      AsciiLen(s[..Taken(s[..|s| - 1], i)]);
    }
  }

  /** On ASCII paths: the first min(i, total) characters, and the remaining ones without empty elements;
      when there are fewer than i, nothing remains. */
  lemma ShiftAscii(p: seq<string>, i: nat)
    requires Ascii(Flatten(p))
    ensures var (out, rest) := Shift(p, i);
            var k := if i < |Flatten(p)| then i else |Flatten(p)|;
            out == Flatten(p)[..k] && Flatten(rest) == Flatten(p)[k..] && NoneEmpty(rest)
  {
    var k := Taken(Flatten(p), i);
    AsciiTaken(Flatten(p), i);
    AsciiLen(Flatten(p)[..k]);
    DropCharsSpells(p, k);
  }

  // ----- the loop -----

  lemma {:induction false} TakenAppend(s: string, c: char, i: nat)
    ensures Taken(s + [c], i) == if Len(s[..Taken(s, i)]) < i then |s| + 1 else Taken(s, i)
  {
    assert (s + [c])[..|s|] == s;
    assert (s + [c])[..Taken(s, i)] == s[..Taken(s, i)];
  }

  /** What has been taken is short of i bytes only if it is everything. */
  lemma {:induction false} TakenAll(s: string, i: nat)
    ensures Len(s[..Taken(s, i)]) < i ==> Taken(s, i) == |s|
  {
    if s != [] {
      var most := s[..|s| - 1];
      TakenAll(most, i);
      assert s[..Taken(most, i)] == most[..Taken(most, i)];
    }
  }

  /** The characters of an element went to `out` until that held i bytes, then to `re`. */
  ghost predicate Divided(before: string, pe: string, i: nat, out: string, re: string) {
    && out + re == before + pe && |out| >= |before|
    && (if Len(before) >= i then out == before else out == (before + pe)[..Taken(before + pe, i)])
  }

  lemma DividedOn(before: string, pe: string, c: char, i: nat, out: string, re: string)
    requires Divided(before, pe, i, out, re)
    requires re != "" ==> Len(out) >= i
    ensures if Len(out) < i then Divided(before, pe + [c], i, out + [c], re)
            else Divided(before, pe + [c], i, out, re + [c])
  {
    TakenAppend(before + pe, c, i);
    assert before + (pe + [c]) == (before + pe) + [c];
    if Len(out) < i {
      assert out == before + pe;
    } else {
      assert (before + pe + [c])[..|out|] == out;
    }
  }

  method ShiftElement(pe: string, before: string, i: nat) returns (out: string, re: string)
    requires Len(before) < i ==> before == before[..Taken(before, i)]
    ensures Divided(before, pe, i, out, re)
  {
    out, re := before, "";
    assert before + pe[..0] == before;
    for n := 0 to |pe|
      invariant Divided(before, pe[..n], i, out, re)
      invariant re != "" ==> Len(out) >= i
    {
      var c := pe[n];
      assert pe[..n + 1] == pe[..n] + [c];
      DividedOn(before, pe[..n], c, i, out, re);
      if Len(out) < i {
        out := out + [c];
      } else {
        re := re + [c];
      }
    }
    assert pe[..|pe|] == pe;
  }

  lemma {:induction false} DropCharsAppend(p: seq<string>, e: string, k: nat)
    requires k <= |Flatten(p)| + |e|
    ensures DropChars(p + [e], k)
         == (if k < |Flatten(p)| then DropChars(p, k) + (if e == "" then [] else [e])
             else if k - |Flatten(p)| == |e| then [] else [e[k - |Flatten(p)|..]])
  {
    if p == [] {
      assert p + [e] == [e];
      assert DropChars([], k) == [];
    } else {
      assert (p + [e])[1..] == p[1..] + [e];
      if k >= |p[0]| {
        DropCharsAppend(p[1..], e, k - |p[0]|);
      } else {
        DropCharsAppend(p[1..], e, 0);
        if |Flatten(p[1..])| == 0 { DropCharsAllGone(p[1..]); }
        assert e[0..] == e;
      }
    }
  }

  /** Nothing but empty elements. */
  lemma {:induction false} DropCharsAllGone(p: seq<string>)
    requires |Flatten(p)| == 0
    ensures DropChars(p, 0) == []
  {
    if p != [] { DropCharsAllGone(p[1..]); }
  }

  /** The state of the loop after some elements. */
  ghost predicate Shifted(p: seq<string>, i: nat, out: string, rest: seq<string>) {
    && out == Flatten(p)[..Taken(Flatten(p), i)]
    && rest == if Len(out) == i then DropChars(p, |out|) else []
  }

  /** Further elements go to the rest once i bytes are taken. */
  lemma ShiftedOn(p: seq<string>, pe: string, i: nat, out: string, rest: seq<string>)
    requires Shifted(p, i, out, rest) && Len(out) >= i
    ensures Shifted(p + [pe], i, out, if Len(out) == i && pe != "" then rest + [pe] else rest)
  {
    var all := Flatten(p);
    FlattenAppend(p, pe);
    TakenStays(all, pe, i);
    assert (all + pe)[..|out|] == out;
    DropCharsAppend(p, pe, |out|);
    if |out| == |all| {
      DropCharsDone(p, |out|);
      assert pe[0..] == pe;
    }
  }

  lemma {:induction false} TakenStays(s: string, more: string, i: nat)
    requires Len(s[..Taken(s, i)]) >= i
    ensures Taken(s + more, i) == Taken(s, i)
  {
    if more == "" {
      assert s + more == s;
    } else {
      var last := |more| - 1;
      TakenStays(s, more[..last], i);
      assert s + more == (s + more[..last]) + [more[last]];
      TakenAppend(s + more[..last], more[last], i);
      assert (s + more[..last])[..Taken(s, i)] == s[..Taken(s, i)];
    }
  }

  lemma {:induction false} DropCharsDone(p: seq<string>, k: nat)
    requires k >= |Flatten(p)|
    ensures DropChars(p, k) == []
  {
    if p != [] {
      DropCharsDone(p[1..], k - |p[0]|);
    }
  }

  /** The element in which the i bytes are reached, or not yet. */
  lemma ShiftedAcross(p: seq<string>, pe: string, i: nat, out: string, rest: seq<string>, out': string, re: string)
    requires Shifted(p, i, out, rest) && Len(out) < i
    requires out' + re == out + pe && out' == (out + pe)[..Taken(out + pe, i)]
    requires |out'| >= |out|
    ensures Shifted(p + [pe], i, out', if Len(out') == i && re != "" then rest + [re] else rest)
  {
    var all := Flatten(p);
    TakenAll(all, i);
    assert out == all;
    FlattenAppend(p, pe);
    DropCharsAppend(p, pe, |out'|);
    assert re == (out + pe)[|out'|..] == pe[|out'| - |out|..];
  }

  lemma ShiftedNext(p: seq<string>, pe: string, i: nat, before: string, rest: seq<string>, out: string, re: string)
    requires Shifted(p, i, before, rest) && Divided(before, pe, i, out, re)
    ensures Shifted(p + [pe], i, out, if Len(out) == i && re != "" then rest + [re] else rest)
  {
    if Len(before) >= i {
      assert re == pe by { assert (out + re)[|out|..] == re && (out + pe)[|out|..] == pe; }
      ShiftedOn(p, pe, i, before, rest);
    } else {
      ShiftedAcross(p, pe, i, before, rest, out, re);
    }
  }

  method ShiftFromPath(p: seq<string>, i: nat) returns (out: string, rest: seq<string>)
    ensures (out, rest) == Shift(p, i)
  {
    out, rest := "", [];
    for n := 0 to |p|
      invariant Shifted(p[..n], i, out, rest)
    {
      assert p[..n + 1] == p[..n] + [p[n]];
      ghost var before := out;
      var re;
      if Len(out) < i { ShiftedShort(p[..n], i, out, rest); }
      out, re := ShiftElement(p[n], out, i);
      ShiftedNext(p[..n], p[n], i, before, rest, out, re);
      if Len(out) == i && re != "" {
        rest := rest + [re];
      }
    }
    assert p[..|p|] == p;
  }

  lemma ShiftedShort(p: seq<string>, i: nat, out: string, rest: seq<string>)
    requires Shifted(p, i, out, rest) && Len(out) < i
    ensures out == out[..Taken(out, i)]
  {
    TakenAll(Flatten(p), i);
  }
}
