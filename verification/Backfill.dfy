/** Repeated backfill passes over the headers of a chain without forks. */
module Backfill {
  import opened Common
  import opened Heights
  import opened GapSearch
  import opened Pool

  /** One block per height, named by `canon`, and at most one row for it. */
  ghost predicate ForkFree(t: set<HeaderRow>, canon: int -> string) {
    && (forall r :: r in t ==> r.hash == canon(r.number) && r.timesValidated >= 0)
    && (forall r, q :: r in t && q in t && r.number == q.number ==> r == q)
  }

  /** How often the block at a height was indexed; an absent one never was. */
  ghost function Times(t: set<HeaderRow>, h: int): int {
    if At(t, h) then (var r :| r in t && r.number == h; r.timesValidated) else 0
  }

  lemma TimesOf(t: set<HeaderRow>, canon: int -> string, r: HeaderRow)
    requires ForkFree(t, canon) && r in t
    ensures At(t, r.number) && Times(t, r.number) == r.timesValidated
  {
  }

  /** The header upsert. */
  ghost function Index(t: set<HeaderRow>, canon: int -> string, h: nat): set<HeaderRow> {
    (set r | r in t && !(r.number == h && r.hash == canon(h)))
    + {HeaderRow(h, canon(h), if exists r :: r in t && r.number == h && r.hash == canon(h) then Times(t, h) + 1 else 1)}
  }

  lemma IndexOnce(t: set<HeaderRow>, canon: int -> string, h: nat)
    requires ForkFree(t, canon)
    ensures ForkFree(Index(t, canon, h), canon)
    ensures forall x :: At(Index(t, canon, h), x) <==> At(t, x) || x == h
    ensures forall x :: Times(Index(t, canon, h), x) == Times(t, x) + if x == h then 1 else 0
  {
    var t' := Index(t, canon, h);
    var row :| row in t' && row.number == h && row.hash == canon(h)
      && row.timesValidated == (if exists r :: r in t && r.number == h && r.hash == canon(h)
         then Times(t, h) + 1 else 1);
    assert At(t, h) <==> exists r :: r in t && r.number == h && r.hash == canon(h);
    if At(t, h) {
      var r :| r in t && r.number == h;
      TimesOf(t, canon, r);
    }
    assert ForkFree(t', canon);
    TimesOf(t', canon, row);
    forall x ensures (At(t', x) <==> At(t, x) || x == h) && Times(t', x) == Times(t, x) + if x == h then 1 else 0 {
      if x != h {
        if At(t, x) {
          var r :| r in t && r.number == x;
          assert r in t';
          TimesOf(t, canon, r);
          TimesOf(t', canon, r);
        }
        if At(t', x) {
          var r :| r in t' && r.number == x;
          assert r in t;
        }
      }
    }
  }

  ghost function IndexAll(t: set<HeaderRow>, canon: int -> string, visits: seq<int>): set<HeaderRow>
    requires forall i :: 0 <= i < |visits| ==> visits[i] >= 0
  {
    if visits == [] then t else Index(IndexAll(t, canon, visits[..|visits| - 1]), canon, visits[|visits| - 1])
  }

  lemma {:induction false} IndexMany(t: set<HeaderRow>, canon: int -> string, visits: seq<int>)
    requires ForkFree(t, canon) && forall i :: 0 <= i < |visits| ==> visits[i] >= 0
    ensures ForkFree(IndexAll(t, canon, visits), canon)
    ensures forall x :: At(IndexAll(t, canon, visits), x) <==> At(t, x) || x in visits
    ensures forall x :: Times(IndexAll(t, canon, visits), x) == Times(t, x) + multiset(visits)[x]
  {
    if visits != [] {
      var most, h := visits[..|visits| - 1], visits[|visits| - 1];
      IndexMany(t, canon, most);
      IndexOnce(IndexAll(t, canon, most), canon, h);
      assert visits == most + [h];
    }
  }

  // ----- one pass -----

  /** A pass visits each height as often as it is due, in any order. */
  ghost predicate Pass(t: set<HeaderRow>, canon: int -> string, level: int, visits: seq<int>, t': set<HeaderRow>) {
    && t != {} && (forall h :: multiset(visits)[h] == Due(t, level, h))
    && (forall i :: 0 <= i < |visits| ==> visits[i] >= 0)
    && t' == IndexAll(t, canon, visits)
  }

  /** The search, the bins and the pool together make a pass, whatever the interleaving. */
  method BinsToFill(t: set<HeaderRow>, level: int, batchSize: nat) returns (r: Result<seq<seq<int>>, string>)
    requires Bigint(t) && 0 < batchSize < W
    ensures r.Err? <==> t == {}
    ensures r.Ok? && batchSize < 0x8000_0000_0000_0000 ==>
              NonEmpty(r.value) && forall h :: multiset(Flatten(r.value))[h] == Due(t, level, h)
  {
    var gaps := RetrieveGapsInData(t, level);
    if gaps.Err? { return Err(gaps.error); }
    var bins := BinsOf(gaps.value, batchSize);
    if batchSize < 0x8000_0000_0000_0000 { SmallBatchesFit(gaps.value, batchSize); }
    r := Ok(bins);
  }

  lemma PoolMakesPass(t: set<HeaderRow>, canon: int -> string, level: int, bins: seq<seq<int>>, n: nat, run: seq<Label>)
    requires t != {} && forall h :: multiset(Flatten(bins))[h] == Due(t, level, h)
    requires After(n, run).Some? && !After(n, run).value.active && After(n, run).value.bins == bins
    ensures var visits := Visited(After(n, run).value.visits);
            && (forall i :: 0 <= i < |visits| ==> visits[i] >= 0)
            && Pass(t, canon, level, visits, IndexAll(t, canon, visits))
  {
    PassComplete(n, run);
    var visits := Visited(After(n, run).value.visits);
    forall i | 0 <= i < |visits| ensures visits[i] >= 0 {
      assert multiset(visits)[visits[i]] > 0;
      assert Due(t, level, visits[i]) > 0;
    }
  }

  /** Without forks a height is due at most once. */
  lemma DueAtMostOnce(t: set<HeaderRow>, canon: int -> string, level: int, h: int)
    requires t != {} && ForkFree(t, canon)
    ensures Due(t, level, h) ==
         if 0 <= h <= Last(t) && (!At(t, h) || (|Low(t, level)| != 1 && Times(t, h) < level))
         then 1 else 0
  {
    if At(t, h) {
      var r :| r in t && r.number == h;
      TimesOf(t, canon, r);
      var rows := RowsAt(Low(t, level), h);
      if r.timesValidated < level {
        assert rows == {r};
      } else {
        assert rows == {};
      }
    }
  }

  /** Every height was indexed as often as it was due, and no height up to the last is absent any more. */
  ghost predicate Advanced(t: set<HeaderRow>, canon: int -> string, level: int, t': set<HeaderRow>)
    requires t != {}
  {
    && ForkFree(t', canon) && t' != {} && Last(t') == Last(t)
    && (forall h :: Times(t', h) == Times(t, h) + Due(t, level, h))
    && (forall h :: 0 <= h <= Last(t) ==> At(t', h))
  }

  lemma PassEffect(t: set<HeaderRow>, canon: int -> string, level: int, visits: seq<int>, t': set<HeaderRow>)
    requires ForkFree(t, canon) && Pass(t, canon, level, visits, t')
    ensures Advanced(t, canon, level, t')
  {
    IndexMany(t, canon, visits);
    assert At(t', Last(t));
    forall h ensures h in visits <==> Due(t, level, h) > 0 {
      assert h in visits <==> multiset(visits)[h] > 0;
    }
  }

  // ----- the deficit -----

  ghost function Lack(t: set<HeaderRow>, level: int, h: int): int {
    if Times(t, h) < level then level - Times(t, h) else 0
  }

  /** Validations missing at the heights below n. */
  ghost function Deficit(t: set<HeaderRow>, level: int, n: nat): int {
    if n == 0 then 0 else Deficit(t, level, n - 1) + Lack(t, level, n - 1)
  }

  ghost function Visits(t: set<HeaderRow>, level: int, n: nat): nat
    requires t != {}
  {
    if n == 0 then 0 else Visits(t, level, n - 1) + Due(t, level, n - 1)
  }

  ghost predicate HasGaps(t: set<HeaderRow>, level: int)
    requires t != {}
  {
    exists h :: Due(t, level, h) > 0
  }

  lemma {:induction false} DeficitFalls(t: set<HeaderRow>, canon: int -> string, level: int, t': set<HeaderRow>, n: nat)
    requires level >= 1 && t != {} && ForkFree(t, canon) && Advanced(t, canon, level, t')
    ensures Deficit(t', level, n) == Deficit(t, level, n) - Visits(t, level, n)
  {
    if n > 0 {
      DeficitFalls(t, canon, level, t', n - 1);
      DueAtMostOnce(t, canon, level, n - 1);
    }
  }

  lemma {:induction false} SomeVisit(t: set<HeaderRow>, level: int, h: nat, n: nat)
    requires t != {} && h < n
    ensures Visits(t, level, n) >= Due(t, level, h)
  {
    if h < n - 1 { SomeVisit(t, level, h, n - 1); }
  }

  lemma SomeDue(t: set<HeaderRow>, level: int) returns (h: nat)
    requires t != {} && HasGaps(t, level)
    ensures Due(t, level, h) > 0 && h <= Last(t)
  {
    var x :| Due(t, level, x) > 0;
    h := x;
  }

  /** A pass with gaps strictly lowers the deficit. */
  lemma PassLowersDeficit(t: set<HeaderRow>, canon: int -> string, level: int, visits: seq<int>, t': set<HeaderRow>)
    requires level >= 1 && ForkFree(t, canon) && Pass(t, canon, level, visits, t') && HasGaps(t, level)
    ensures t' != {} && Last(t') == Last(t) >= 0
    ensures Deficit(t', level, Last(t) + 1) < Deficit(t, level, Last(t) + 1)
  {
    PassEffect(t, canon, level, visits, t');
    var h := SomeDue(t, level);
    DeficitFalls(t, canon, level, t', Last(t) + 1);
    SomeVisit(t, level, h, Last(t) + 1);
  }

  // ----- after enough passes -----

  /** The search comes back empty exactly when every height is there and at most one row is low. */
  lemma NoGapsMeans(t: set<HeaderRow>, canon: int -> string, level: int)
    requires t != {} && ForkFree(t, canon)
    ensures !HasGaps(t, level) <==> (forall h :: 0 <= h <= Last(t) ==> At(t, h)) && |Low(t, level)| <= 1
  {
    forall h ensures Due(t, level, h) <= 1 { DueAtMostOnce(t, canon, level, h); }
    if |Low(t, level)| > 1 {
      var r :| r in Low(t, level);
      TimesOf(t, canon, r);
      DueAtMostOnce(t, canon, level, r.number);
      assert HasGaps(t, level);
    }
    if !HasGaps(t, level) {
      forall h | 0 <= h <= Last(t) ensures At(t, h) { DueAtMostOnce(t, canon, level, h); }
    }
    if (forall h :: 0 <= h <= Last(t) ==> At(t, h)) && |Low(t, level)| <= 1 {
      assert forall h :: Due(t, level, h) == 0;
    }
  }

  /** After k passes every height but x was indexed k times, and x at most once less. */
  ghost predicate CaughtUp(t: set<HeaderRow>, level: int, k: nat, x: int)
    requires t != {}
  {
    && (k >= 1 ==> forall h :: 0 <= h <= Last(t) ==> At(t, h))
    && forall h :: 0 <= h <= Last(t) ==>
         Times(t, h) >= level || Times(t, h) >= k || (h == x && Times(t, h) >= k - 1)
  }

  /** One element at most: the low heights of a table that has caught up to the level. */
  lemma CaughtUpToLevel(t: set<HeaderRow>, canon: int -> string, level: int, x: int)
    requires t != {} && ForkFree(t, canon) && level >= 1 && CaughtUp(t, level, level, x)
    ensures !HasGaps(t, level)
  {
    var low := Low(t, level);
    forall r | r in low ensures r.number == x { TimesOf(t, canon, r); }
    if low != {} {
      var r :| r in low;
      assert forall q :: q in low ==> q == r;
      assert low == {r};
    }
    NoGapsMeans(t, canon, level);
  }

  lemma PassCatchesUp(t: set<HeaderRow>, canon: int -> string, level: int, t': set<HeaderRow>, k: nat, x: int)
    returns (x': int)
    requires level >= 1 && t != {} && ForkFree(t, canon) && Advanced(t, canon, level, t')
    requires HasGaps(t, level) && CaughtUp(t, level, k, x)
    ensures CaughtUp(t', level, k + 1, x')
  {
    x' := x;
    if |Low(t, level)| == 1 {
      var low :| low in Low(t, level);
      x' := low.number;
      OnlyLow(t, canon, level, low);
      if k >= 1 { NoGapsMeans(t, canon, level); }
    }
    forall h | 0 <= h <= Last(t)
      ensures Times(t', h) >= level || Times(t', h) >= k + 1 || (h == x' && Times(t', h) >= k)
    {
      DueAtMostOnce(t, canon, level, h);
      TimesNatural(t, canon, h);
    }
  }

  lemma TimesNatural(t: set<HeaderRow>, canon: int -> string, h: int)
    requires ForkFree(t, canon)
    ensures Times(t, h) >= 0
  {
  }

  lemma OnlyLow(t: set<HeaderRow>, canon: int -> string, level: int, low: HeaderRow)
    requires ForkFree(t, canon) && low in Low(t, level) && |Low(t, level)| == 1
    ensures forall h :: At(t, h) && h != low.number ==> Times(t, h) >= level
  {
    assert |Low(t, level) - {low}| == 0;
    forall h | At(t, h) && h != low.number ensures Times(t, h) >= level {
      var r :| r in t && r.number == h;
      TimesOf(t, canon, r);
      assert r !in Low(t, level) - {low};
    }
  }

  /** Tables before, between and after consecutive passes. */
  ghost predicate Passes(ts: seq<set<HeaderRow>>, vs: seq<seq<int>>, canon: int -> string, level: int) {
    && |ts| == |vs| + 1
    && forall k :: 0 <= k < |vs| ==> Pass(ts[k], canon, level, vs[k], ts[k + 1])
  }

  /** Either the gaps are gone, or the table has caught up with the number of passes. */
  ghost predicate OnTrack(t: set<HeaderRow>, canon: int -> string, level: int, k: nat, x: int) {
    t != {} && ForkFree(t, canon) && (!HasGaps(t, level) || CaughtUp(t, level, k, x))
  }

  lemma StaysOnTrack(t: set<HeaderRow>, canon: int -> string, level: int, visits: seq<int>, t': set<HeaderRow>,
                     k: nat, x: int)
    returns (x': int)
    requires level >= 1 && OnTrack(t, canon, level, k, x) && Pass(t, canon, level, visits, t')
    ensures OnTrack(t', canon, level, k + 1, x') && Last(t') == Last(t)
  {
    x' := x;
    if HasGaps(t, level) {
      PassEffect(t, canon, level, visits, t');
      x' := PassCatchesUp(t, canon, level, t', k, x);
    }
  }

  lemma {:induction false} AfterPasses(ts: seq<set<HeaderRow>>, vs: seq<seq<int>>, canon: int -> string,
                                       level: int, k: nat)
    returns (x: int)
    requires level >= 1 && Passes(ts, vs, canon, level) && k <= |vs| && ts[0] != {} && ForkFree(ts[0], canon)
    ensures OnTrack(ts[k], canon, level, k, x) && Last(ts[k]) == Last(ts[0])
  {
    if k == 0 {
      x := -1;
    } else {
      x := AfterPasses(ts, vs, canon, level, k - 1);
      x := StaysOnTrack(ts[k - 1], canon, level, vs[k - 1], ts[k], k - 1, x);
    }
  }

  /** After `level` passes nothing is left to fill: every height up to the last block is present, and
      at most one row is below the level. */
  lemma LevelPassesSuffice(ts: seq<set<HeaderRow>>, vs: seq<seq<int>>, canon: int -> string, level: int)
    requires level >= 1 && Passes(ts, vs, canon, level) && |vs| == level && ts[0] != {} && ForkFree(ts[0], canon)
    ensures var t := ts[level];
            && t != {} && Last(t) == Last(ts[0]) && !HasGaps(t, level)
            && (forall h :: 0 <= h <= Last(t) ==> At(t, h))
            && (forall r, q :: r in t && q in t && r.timesValidated < level && q.timesValidated < level ==> r == q)
  {
    var x := AfterPasses(ts, vs, canon, level, level);
    if HasGaps(ts[level], level) { CaughtUpToLevel(ts[level], canon, level, x); }
    NoGapsMeans(ts[level], canon, level);
    var t := ts[level];
    forall r, q | r in t && q in t && r.timesValidated < level && q.timesValidated < level ensures r == q {
      AtMostOne(Low(t, level), r, q);
    }
  }

  lemma AtMostOne(rows: set<HeaderRow>, r: HeaderRow, q: HeaderRow)
    requires |rows| <= 1 && r in rows && q in rows
    ensures r == q
  {
    assert |rows - {r}| == 0;
  }
}
