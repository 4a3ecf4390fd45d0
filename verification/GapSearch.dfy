/** The search for heights that are missing or not validated often enough, and the bins made of them. */
module GapSearch {
  import opened Common
  import opened Heights

  /** A row of header_cids; number and hash together are unique. */
  datatype HeaderRow = HeaderRow(number: nat, hash: string, timesValidated: int)

  predicate Bigint(t: set<HeaderRow>) {
    forall r :: r in t ==> r.number < 0x8000_0000_0000_0000
  }

  // ----- the query, clause by clause -----

  function Matches(t: set<HeaderRow>, on: HeaderRow -> bool): set<HeaderRow> {
    set x | x in t && on(x)
  }

  /** LEFT JOIN t ON ...: the matching rows, or a single NULL row. */
  function LeftJoin(t: set<HeaderRow>, on: HeaderRow -> bool): set<Option<HeaderRow>> {
    if Matches(t, on) == {} then {None} else set x | x in Matches(t, on) :: Some(x)
  }

  datatype JoinRow = JoinRow(row: HeaderRow, r: Option<HeaderRow>, fr: Option<HeaderRow>)

  function Next(a: HeaderRow): HeaderRow -> bool { (x: HeaderRow) => a.number == x.number - 1 }

  function Above(a: HeaderRow): HeaderRow -> bool { (x: HeaderRow) => a.number < x.number }

  function From(t: set<HeaderRow>): set<JoinRow> {
    set a, r, fr | a in t && r in LeftJoin(t, Next(a)) && fr in LeftJoin(t, Above(a)) :: JoinRow(a, r, fr)
  }

  function Where(t: set<HeaderRow>): set<JoinRow> {
    set j | j in From(t) && j.r.None? && j.fr.Some?
  }

  /** The heights min() ranges over in the group of a block number; r is NULL in every group. */
  function Group(t: set<HeaderRow>, n: int): set<int> {
    set j | j in Where(t) && j.row.number == n :: j.fr.value.number
  }

  function Least(s: set<int>): (m: int)
    requires s != {}
    ensures m in s && forall x :: x in s ==> m <= x
  {
    LeastExists(s);
    var m :| m in s && forall x :: x in s ==> m <= x;
    m
  }

  lemma {:induction false} LeastExists(s: set<int>)
    requires s != {}
    ensures exists m :: m in s && forall x :: x in s ==> m <= x
    decreases s
  {
    assert (forall y :: y !in s) ==> s == {};
    var y :| y in s;
    if s - {y} != {} {
      LeastExists(s - {y});
      var m :| m in s - {y} && forall x :: x in s - {y} ==> m <= x;
      var best := if m <= y then m else y;
      assert forall x :: x in s ==> x == y || x in s - {y};
      assert best in s && forall x :: x in s ==> best <= x;
    } else {
      assert forall x :: x in s ==> x == y || x in s - {y};
    }
  }

  function GapQuery(t: set<HeaderRow>): set<Gap> {
    set j | j in Where(t) && Group(t, j.row.number) != {} :: Gap(j.row.number + 1, Least(Group(t, j.row.number)) - 1)
  }

  // ----- what it finds -----

  predicate At(t: set<HeaderRow>, h: int) {
    exists r :: r in t && r.number == h
  }

  lemma InWhere(t: set<HeaderRow>, a: HeaderRow, b: HeaderRow)
    ensures JoinRow(a, None, Some(b)) in Where(t) <==>
            a in t && b in t && a.number < b.number && !At(t, a.number + 1)
  {
    if a in t {
      assert Matches(t, Next(a)) == {} <==> !At(t, a.number + 1) by {
        if At(t, a.number + 1) {
          var x :| x in t && x.number == a.number + 1;
          assert x in Matches(t, Next(a));
        }
      }
      assert Some(b) in LeftJoin(t, Above(a)) <==> b in Matches(t, Above(a));
    }
    if JoinRow(a, None, Some(b)) in Where(t) {
      assert JoinRow(a, None, Some(b)) in From(t);
    }
  }

  lemma InGroup(t: set<HeaderRow>, n: int, m: int)
    ensures m in Group(t, n) <==> At(t, n) && !At(t, n + 1) && n < m && At(t, m)
  {
    if At(t, n) && !At(t, n + 1) && n < m && At(t, m) {
      var a :| a in t && a.number == n;
      var b :| b in t && b.number == m;
      InWhere(t, a, b);
      assert JoinRow(a, None, Some(b)).fr.value.number == m;
    }
    if m in Group(t, n) {
      var j :| j in Where(t) && j.row.number == n && j.fr.value.number == m;
      InWhere(t, j.row, j.fr.value);
    }
  }

  lemma FoundIsHole(t: set<HeaderRow>, n: int)
    requires Group(t, n) != {}
    ensures IsHole(t, Gap(n + 1, Least(Group(t, n)) - 1))
  {
    var m := Least(Group(t, n));
    InGroup(t, n, m);
    forall h | n + 1 <= h <= m - 1 ensures !At(t, h) { InGroup(t, n, h); }
    assert m != n + 1;
  }

  lemma HoleIsFound(t: set<HeaderRow>, g: Gap)
    requires IsHole(t, g)
    ensures Group(t, g.start - 1) != {} && Least(Group(t, g.start - 1)) == g.stop + 1
  {
    var n, m := g.start - 1, g.stop + 1;
    InGroup(t, n, m);
    forall x | x in Group(t, n) ensures m <= x {
      InGroup(t, n, x);
      assert !(g.start <= x <= g.stop);
    }
  }

  /** The query returns exactly the maximal runs of absent heights between two present ones. */
  lemma GapQueryMeaning(t: set<HeaderRow>, g: Gap)
    ensures g in GapQuery(t) <==> IsHole(t, g)
  {
    if g in GapQuery(t) {
      var j :| j in Where(t) && Group(t, j.row.number) != {}
        && g == Gap(j.row.number + 1, Least(Group(t, j.row.number)) - 1);
      FoundIsHole(t, j.row.number);
    }
    if IsHole(t, g) {
      HoleIsFound(t, g);
    }
  }

  ghost predicate IsHole(t: set<HeaderRow>, g: Gap) {
    && g.start <= g.stop && At(t, g.start - 1) && At(t, g.stop + 1)
    && forall h :: g.start <= h <= g.stop ==> !At(t, h)
  }

  // ----- counting heights in gap lists -----

  predicate Covers(g: Gap, h: int) { g.start <= h <= g.stop }

  lemma {:induction false} RangeCount(lo: int, hi: int, h: int)
    ensures multiset(Range(lo, hi))[h] == if lo <= h < hi then 1 else 0
    decreases hi - lo
  {
    if lo < hi {
      RangeCount(lo, hi - 1, h);
      assert Range(lo, hi) == Range(lo, hi - 1) + [hi - 1];
    }
  }

  lemma {:induction false} GapHeightsConcat(a: seq<Gap>, b: seq<Gap>)
    ensures GapHeights(a + b) == GapHeights(a) + GapHeights(b)
  {
    if b == [] {
      assert a + b == a;
    } else {
      var last := |b| - 1;
      GapHeightsConcat(a, b[..last]);
      assert (a + b)[..|a + b| - 1] == a + b[..last];
      assert (a + b)[|a + b| - 1] == b[last];
      ThreeConcat(GapHeights(a), GapHeights(b[..last]), Range(b[last].start, b[last].stop + 1));
    }
  }

  lemma ThreeConcat(x: seq<int>, y: seq<int>, z: seq<int>)
    ensures (x + y) + z == x + (y + z)
  {
  }

  predicate SomeCovers(gaps: seq<Gap>, h: int) {
    exists i :: 0 <= i < |gaps| && Covers(gaps[i], h)
  }

  ghost predicate Holes(t: set<HeaderRow>, gaps: seq<Gap>) {
    && (forall i :: 0 <= i < |gaps| ==> IsHole(t, gaps[i]))
    && (forall i, j :: 0 <= i < j < |gaps| ==> gaps[i] != gaps[j])
  }

  /** No height lies in two of the gaps. */
  predicate Apart(gaps: seq<Gap>, h: int) {
    forall i, j :: 0 <= i < j < |gaps| ==> !(Covers(gaps[i], h) && Covers(gaps[j], h))
  }

  lemma LastCount(gaps: seq<Gap>, h: int)
    requires gaps != []
    ensures multiset(GapHeights(gaps))[h]
         == multiset(GapHeights(gaps[..|gaps| - 1]))[h] + if Covers(gaps[|gaps| - 1], h) then 1 else 0
  {
    var g := gaps[|gaps| - 1];
    RangeCount(g.start, g.stop + 1, h);
    ConcatCount(GapHeights(gaps[..|gaps| - 1]), Range(g.start, g.stop + 1), h);
  }

  lemma ConcatCount(x: seq<int>, y: seq<int>, h: int)
    ensures multiset(x + y)[h] == multiset(x)[h] + multiset(y)[h]
  {
  }

  lemma {:induction false} ApartCount(gaps: seq<Gap>, h: int)
    requires Apart(gaps, h)
    ensures multiset(GapHeights(gaps))[h] == if SomeCovers(gaps, h) then 1 else 0
  {
    if gaps != [] {
      var most := gaps[..|gaps| - 1];
      assert forall i :: 0 <= i < |most| ==> most[i] == gaps[i];
      ApartCount(most, h);
      LastCount(gaps, h);
    }
  }

  lemma HolesAreApart(t: set<HeaderRow>, gaps: seq<Gap>, h: int)
    requires Holes(t, gaps)
    ensures Apart(gaps, h)
  {
    forall i, j | 0 <= i < j < |gaps| ensures !(Covers(gaps[i], h) && Covers(gaps[j], h)) {
      if Covers(gaps[i], h) && Covers(gaps[j], h) { HolesApart(t, gaps[i], gaps[j], h); }
    }
  }

  lemma HolesApart(t: set<HeaderRow>, a: Gap, b: Gap, h: int)
    requires IsHole(t, a) && IsHole(t, b) && Covers(a, h) && Covers(b, h)
    ensures a == b
  {
    assert !(b.start <= a.start - 1 <= b.stop) && !(a.start <= b.start - 1 <= a.stop);
    assert !(b.start <= a.stop + 1 <= b.stop) && !(a.start <= b.stop + 1 <= a.stop);
  }

  /** Between two present heights every absent one lies in a hole. */
  lemma HoleAround(t: set<HeaderRow>, lo: int, h: int, hi: int) returns (g: Gap)
    requires lo < h < hi && At(t, lo) && At(t, hi) && !At(t, h)
    ensures IsHole(t, g) && Covers(g, h)
  {
    var a := h;
    while At(t, a - 1) == false
      invariant lo < a <= h && forall x :: a <= x <= h ==> !At(t, x)
      decreases a - lo
    {
      a := a - 1;
    }
    var b := h;
    while At(t, b + 1) == false
      invariant h <= b < hi && forall x :: a <= x <= b ==> !At(t, x)
      decreases hi - b
    {
      b := b + 1;
    }
    g := Gap(a, b);
  }

  // ----- the parts of the search -----

  function Numbers(t: set<HeaderRow>): set<int> { set r | r in t :: r.number }

  function First(t: set<HeaderRow>): (m: int)
    requires t != {}
    ensures At(t, m) && forall h :: At(t, h) ==> m <= h
  {
    var x :| x in t;
    assert x.number in Numbers(t);
    assert forall h :: At(t, h) <==> h in Numbers(t);
    Least(Numbers(t))
  }

  ghost function Last(t: set<HeaderRow>): (m: int)
    requires t != {}
    ensures At(t, m) && forall h :: At(t, h) ==> h <= m
  {
    var x: HeaderRow :| x in t;
    assert x.number in Numbers(t);
    var negated: set<int> := set h | h in Numbers(t) :: -h;
    assert 0 - x.number in negated;
    var m := -Least(negated);
    assert forall h :: At(t, h) ==> h in Numbers(t) && -h in negated;
    m
  }

  /** The elements of a set, each once, in no particular order. */
  method Listed<T>(s: set<T>) returns (xs: seq<T>)
    ensures forall i :: 0 <= i < |xs| ==> xs[i] in s
    ensures forall i, j :: 0 <= i < j < |xs| ==> xs[i] != xs[j]
    ensures forall x :: x in s ==> x in xs
  {
    xs := [];
    var rest := s;
    while rest != {}
      invariant rest <= s
      invariant forall i :: 0 <= i < |xs| ==> xs[i] in s && xs[i] !in rest
      invariant forall i, j :: 0 <= i < j < |xs| ==> xs[i] != xs[j]
      invariant forall x :: x in s ==> x in xs || x in rest
      decreases rest
    {
      var x :| x in rest;
      xs, rest := xs + [x], rest - {x};
    }
  }

  function Low(t: set<HeaderRow>, level: int): set<HeaderRow> {
    set r | r in t && r.timesValidated < level
  }

  function RowsAt(t: set<HeaderRow>, h: int): set<HeaderRow> {
    set r | r in t && r.number == h
  }

  /** Each row is either in the list, by its height, or still in `rest`. */
  ghost predicate Counted(low: set<HeaderRow>, heights: seq<int>, rest: set<HeaderRow>) {
    forall h :: multiset(heights)[h] + |RowsAt(rest, h)| == |RowsAt(low, h)|
  }

  lemma CountMoves(low: set<HeaderRow>, heights: seq<int>, rest: set<HeaderRow>, r: HeaderRow)
    requires Counted(low, heights, rest) && r in rest
    ensures Counted(low, heights + [r.number], rest - {r})
  {
    forall h ensures multiset(heights + [r.number])[h] + |RowsAt(rest - {r}, h)| == |RowsAt(low, h)| {
      if h == r.number {
        assert RowsAt(rest - {r}, h) == RowsAt(rest, h) - {r};
      } else {
        assert RowsAt(rest - {r}, h) == RowsAt(rest, h);
      }
    }
  }

  lemma AllCounted(low: set<HeaderRow>, heights: seq<int>)
    requires Counted(low, heights, {})
    ensures forall h :: multiset(heights)[h] == |RowsAt(low, h)|
  {
    forall h ensures multiset(heights)[h] == |RowsAt(low, h)| {
      assert RowsAt({}, h) == {};
      assert multiset(heights)[h] + |RowsAt({}, h)| == |RowsAt(low, h)|;
    }
  }

  /** SELECT block_number ... WHERE times_validated < level ORDER BY block_number. */
  method LowHeights(t: set<HeaderRow>, level: int) returns (heights: seq<int>)
    ensures Ascending(heights) && |heights| == |Low(t, level)|
    ensures forall h :: multiset(heights)[h] == |RowsAt(Low(t, level), h)|
    ensures forall i :: 0 <= i < |heights| ==> At(t, heights[i])
    ensures forall h :: multiset(heights)[h] == |set r | r in t && r.number == h && r.timesValidated < level|
  {
    heights := [];
    var low := Low(t, level);
    var rest := low;
    while rest != {}
      invariant rest <= low && |heights| + |rest| == |low|
      invariant Ascending(heights)
      invariant forall i, r :: 0 <= i < |heights| && r in rest ==> heights[i] <= r.number
      invariant Counted(low, heights, rest)
      invariant forall i :: 0 <= i < |heights| ==> At(t, heights[i])
      decreases rest
    {
      var r := Lowest(rest);
      CountMoves(low, heights, rest, r);
      heights, rest := heights + [r.number], rest - {r};
    }
    AllCounted(low, heights);
    forall h { LowAt(t, level, h); }
  }

  lemma LowAt(t: set<HeaderRow>, level: int, h: int)
    ensures RowsAt(Low(t, level), h) == set r | r in t && r.number == h && r.timesValidated < level
  {
  }

  /** A row of least height. */
  method Lowest(rows: set<HeaderRow>) returns (r: HeaderRow)
    requires rows != {}
    ensures r in rows && forall x :: x in rows ==> r.number <= x.number
  {
    var n := First(rows);
    r :| r in rows && r.number == n;
    assert forall x :: x in rows ==> At(rows, x.number);
  }

  // ----- the whole search -----

  /** How often a pass over the gaps visits a height. */
  ghost function Due(t: set<HeaderRow>, level: int, h: int): nat
    requires t != {}
  {
    if h < 0 || h > Last(t) then 0
    else if !At(t, h) then 1
    else if |Low(t, level)| == 1 then 0
    else |RowsAt(Low(t, level), h)|
  }

  /** Up to the last block an absent height is due once; a present one once for every row of it that was
      validated less often than the level asks, unless there is just one such row in the whole table. */
  lemma DueIs(t: set<HeaderRow>, level: int, h: int)
    requires t != {}
    ensures var low := set r | r in t && r.timesValidated < level;
            var present := exists r :: r in t && r.number == h;
            var reached := h >= 0 && exists r :: r in t && h <= r.number;
            Due(t, level, h) ==
              if !reached then 0 else if !present then 1 else if |low| == 1 then 0
              else |set r | r in t && r.number == h && r.timesValidated < level|
  {
    LowAt(t, level, h);
    assert Low(t, level) == set r | r in t && r.timesValidated < level;
    var last :| last in t && last.number == Last(t);
    assert forall r :: r in t ==> At(t, r.number);
  }

  predicate Sound(gaps: seq<Gap>) {
    forall i :: 0 <= i < |gaps| ==>
      0 <= gaps[i].start < 0x8000_0000_0000_0000 && 0 <= gaps[i].stop < 0x8000_0000_0000_0000
  }

  /** Visits are counted exactly: each absent height once, each present height once for every row
      below the level, and nothing is validated again when a single row is below it. */
  method RetrieveGapsInData(t: set<HeaderRow>, level: int) returns (r: Result<seq<Gap>, string>)
    requires Bigint(t)
    ensures r.Err? <==> t == {}
    ensures r.Ok? ==> Sound(r.value) && forall h :: multiset(GapHeights(r.value))[h] == Due(t, level, h)
  {
    if t == {} { return Err("no rows in result set"); }
    var startingBlock := First(t);
    assert startingBlock >= 0;
    var initialGap: seq<Gap> := [];
    if startingBlock != 0 { initialGap := [Gap(0, startingBlock - 1)]; }
    var emptyGaps := Listed(GapQuery(t));
    var heights := LowHeights(t, level);
    assert forall i :: 0 <= i < |heights| ==> 0 <= heights[i] < 0x8000_0000_0000_0000;
    AscendingDoesNotWrap(heights);
    var validationGaps := MissingHeightsToGaps(heights);
    r := Ok(initialGap + emptyGaps + validationGaps);
    SearchSound(t, initialGap, emptyGaps, validationGaps, heights);
    forall h ensures multiset(GapHeights(r.value))[h] == Due(t, level, h) {
      SearchCounts(t, level, initialGap, emptyGaps, validationGaps, heights, h);
    }
  }

  lemma InitialCounts(startingBlock: nat, initialGap: seq<Gap>, h: int)
    requires initialGap == if startingBlock != 0 then [Gap(0, startingBlock - 1)] else []
    ensures multiset(GapHeights(initialGap))[h] == if 0 <= h < startingBlock then 1 else 0
  {
    RangeCount(0, startingBlock, h);
    if startingBlock != 0 {
      GapHeightsAppend([], Gap(0, startingBlock - 1));
      assert [] + [Gap(0, startingBlock - 1)] == initialGap;
    }
  }

  lemma HolesFound(t: set<HeaderRow>, emptyGaps: seq<Gap>, h: int)
    requires t != {}
    requires forall i :: 0 <= i < |emptyGaps| ==> emptyGaps[i] in GapQuery(t)
    requires forall i, j :: 0 <= i < j < |emptyGaps| ==> emptyGaps[i] != emptyGaps[j]
    requires forall g :: g in GapQuery(t) ==> g in emptyGaps
    ensures multiset(GapHeights(emptyGaps))[h] == if First(t) <= h <= Last(t) && !At(t, h) then 1 else 0
  {
    forall i | 0 <= i < |emptyGaps| ensures IsHole(t, emptyGaps[i]) { GapQueryMeaning(t, emptyGaps[i]); }
    HolesAreApart(t, emptyGaps, h);
    ApartCount(emptyGaps, h);
    CoveredWhenAbsent(t, emptyGaps, h);
  }

  lemma CoveredWhenAbsent(t: set<HeaderRow>, gaps: seq<Gap>, h: int)
    requires t != {} && Holes(t, gaps) && forall g :: g in GapQuery(t) ==> g in gaps
    ensures SomeCovers(gaps, h) <==> First(t) <= h <= Last(t) && !At(t, h)
  {
    if First(t) <= h <= Last(t) && !At(t, h) {
      var g := HoleAround(t, First(t), h, Last(t));
      GapQueryMeaning(t, g);
      CoveredBy(gaps, g, h);
    }
    if SomeCovers(gaps, h) {
      var i :| 0 <= i < |gaps| && Covers(gaps[i], h);
      HoleInside(t, gaps[i], h);
    }
  }

  lemma HoleInside(t: set<HeaderRow>, g: Gap, h: int)
    requires t != {} && IsHole(t, g) && Covers(g, h)
    ensures First(t) <= h <= Last(t) && !At(t, h)
  {
  }

  lemma CoveredBy(gaps: seq<Gap>, g: Gap, h: int)
    requires g in gaps && Covers(g, h)
    ensures SomeCovers(gaps, h)
  {
    var i :| 0 <= i < |gaps| && gaps[i] == g;
  }

  lemma SearchCounts(t: set<HeaderRow>, level: int,
                     initialGap: seq<Gap>, emptyGaps: seq<Gap>, validationGaps: seq<Gap>, heights: seq<int>, h: int)
    requires t != {}
    requires initialGap == if First(t) != 0 then [Gap(0, First(t) - 1)] else []
    requires forall i :: 0 <= i < |emptyGaps| ==> emptyGaps[i] in GapQuery(t)
    requires forall i, j :: 0 <= i < j < |emptyGaps| ==> emptyGaps[i] != emptyGaps[j]
    requires forall g :: g in GapQuery(t) ==> g in emptyGaps
    requires |heights| == |Low(t, level)| && multiset(heights)[h] == |RowsAt(Low(t, level), h)|
    requires if |heights| == 1 then validationGaps == [] else GapHeights(validationGaps) == heights
    ensures multiset(GapHeights(initialGap + emptyGaps + validationGaps))[h] == Due(t, level, h)
  {
    InitialCounts(First(t), initialGap, h);
    HolesFound(t, emptyGaps, h);
    GapHeightsConcat(initialGap, emptyGaps);
    GapHeightsConcat(initialGap + emptyGaps, validationGaps);
    assert !At(t, h) ==> RowsAt(Low(t, level), h) == {};
    assert (h < 0 || h > Last(t)) ==> !At(t, h);
  }

  lemma SearchSound(t: set<HeaderRow>, initialGap: seq<Gap>, emptyGaps: seq<Gap>, validationGaps: seq<Gap>,
                    heights: seq<int>)
    requires t != {} && Bigint(t)
    requires initialGap == if First(t) != 0 then [Gap(0, First(t) - 1)] else []
    requires forall i :: 0 <= i < |emptyGaps| ==> emptyGaps[i] in GapQuery(t)
    requires forall i :: 0 <= i < |heights| ==> 0 <= heights[i] < 0x8000_0000_0000_0000
    requires Maximal(validationGaps)
    requires validationGaps == [] || GapHeights(validationGaps) == heights
    ensures Sound(initialGap + emptyGaps + validationGaps)
  {
    forall i | 0 <= i < |emptyGaps|
      ensures 0 <= emptyGaps[i].start <= emptyGaps[i].stop < 0x8000_0000_0000_0000
    {
      GapQueryMeaning(t, emptyGaps[i]);
    }
    forall i | 0 <= i < |validationGaps|
      ensures 0 <= validationGaps[i].start <= validationGaps[i].stop < 0x8000_0000_0000_0000
    {
      EndsListed(validationGaps, i);
    }
  }

  lemma {:induction false} EndsListed(gaps: seq<Gap>, i: nat)
    requires i < |gaps| && gaps[i].start <= gaps[i].stop
    ensures gaps[i].start in GapHeights(gaps) && gaps[i].stop in GapHeights(gaps)
  {
    if i == |gaps| - 1 {
      var r := Range(gaps[i].start, gaps[i].stop + 1);
      assert r[0] == gaps[i].start && r[|r| - 1] == gaps[i].stop;
    } else {
      EndsListed(gaps[..|gaps| - 1], i);
    }
  }

  /** A height up to the last block that the search should find. */
  ghost predicate Wanted(t: set<HeaderRow>, level: int, h: int)
    requires t != {}
  {
    0 <= h <= Last(t) && (!At(t, h) || RowsAt(Low(t, level), h) != {})
  }

  /** The gaps cover exactly the wanted heights unless a single row is below the level. */
  lemma SearchExact(t: set<HeaderRow>, level: int, gaps: seq<Gap>)
    requires t != {} && forall h :: multiset(GapHeights(gaps))[h] == Due(t, level, h)
    ensures (forall h :: h in GapHeights(gaps) <==> Wanted(t, level, h)) <==> |Low(t, level)| != 1
  {
    forall h ensures h in GapHeights(gaps) <==> Due(t, level, h) > 0 {
      assert h in GapHeights(gaps) <==> multiset(GapHeights(gaps))[h] > 0;
    }
    if |Low(t, level)| == 1 {
      var r :| r in Low(t, level);
      assert r in RowsAt(Low(t, level), r.number) && At(t, r.number);
      assert Wanted(t, level, r.number) && Due(t, level, r.number) == 0;
    }
  }

  // ----- bins -----

  /** Every gap can be binned without leaving the type. */
  predicate AllFit(gaps: seq<Gap>, batchSize: nat)
    requires Sound(gaps) && batchSize > 0
  {
    forall i :: 0 <= i < |gaps| && gaps[i].start <= gaps[i].stop ==> Fits(gaps[i].start, gaps[i].stop, batchSize)
  }

  /** Which is the case for every batch size below 2^63. */
  lemma SmallBatchesFit(gaps: seq<Gap>, batchSize: nat)
    requires Sound(gaps) && 0 < batchSize < 0x8000_0000_0000_0000
    ensures AllFit(gaps, batchSize)
  {
    forall i | 0 <= i < |gaps| && gaps[i].start <= gaps[i].stop ensures Fits(gaps[i].start, gaps[i].stop, batchSize) {
      RoomAboveFits(gaps[i].start, gaps[i].stop, batchSize);
    }
  }

  /** The bins of the first n gaps: all their heights if all fit, and fewer if one does not. */
  ghost predicate BinnedUpTo(gaps: seq<Gap>, n: nat, batchSize: nat, bins: seq<seq<int>>)
    requires n <= |gaps| && Sound(gaps) && batchSize > 0
  {
    if AllFit(gaps[..n], batchSize) then
      Flatten(bins) == GapHeights(gaps[..n]) && forall i :: 0 <= i < |bins| ==> 1 <= |bins[i]| <= batchSize
    else |Flatten(bins)| < |GapHeights(gaps[..n])|
  }

  lemma BinnedNext(gaps: seq<Gap>, n: nat, batchSize: nat, bins: seq<seq<int>>, more: seq<seq<int>>)
    requires n < |gaps| && Sound(gaps) && 0 < batchSize < W && BinnedUpTo(gaps, n, batchSize, bins)
    requires if gaps[n].stop < gaps[n].start then more == []
             else BinsOutcome(more, gaps[n].start, gaps[n].stop, batchSize)
    ensures BinnedUpTo(gaps, n + 1, batchSize, bins + more)
  {
    var g := gaps[n];
    OneGapBinned(g, batchSize, more);
    FlattenConcat(bins, more);
    assert gaps[..n + 1] == gaps[..n] + [g];
    GapHeightsAppend(gaps[..n], g);
    FitNext(gaps, n, batchSize);
  }

  lemma OneGapBinned(g: Gap, batchSize: nat, bins: seq<seq<int>>)
    requires 0 <= g.start < W && 0 <= g.stop < W && 0 < batchSize < W
    requires if g.stop < g.start then bins == [] else BinsOutcome(bins, g.start, g.stop, batchSize)
    ensures if g.start <= g.stop ==> Fits(g.start, g.stop, batchSize) then
              && Flatten(bins) == Range(g.start, g.stop + 1)
              && forall i :: 0 <= i < |bins| ==> 1 <= |bins[i]| <= batchSize
            else |Flatten(bins)| < |Range(g.start, g.stop + 1)|
  {
  }

  lemma FitNext(gaps: seq<Gap>, n: nat, batchSize: nat)
    requires n < |gaps| && Sound(gaps) && batchSize > 0
    ensures AllFit(gaps[..n + 1], batchSize) <==>
            AllFit(gaps[..n], batchSize)
            && (gaps[n].start <= gaps[n].stop ==> Fits(gaps[n].start, gaps[n].stop, batchSize))
  {
    var more, most := gaps[..n + 1], gaps[..n];
    assert forall i :: 0 <= i < n ==> more[i] == most[i] == gaps[i];
    if AllFit(more, batchSize) {
      forall i | 0 <= i < n && most[i].start <= most[i].stop ensures Fits(most[i].start, most[i].stop, batchSize) {
        assert more[i] == most[i];
      }
      assert more[n] == gaps[n];
    }
  }

  /** The bins a pass sends to its workers, gap by gap; a gap that cannot be binned is skipped. They hold
      the heights of the gaps, in bins of one to a batch, exactly when every gap fits. */
  method BinsOf(gaps: seq<Gap>, batchSize: nat) returns (bins: seq<seq<int>>)
    requires Sound(gaps) && batchSize < W
    ensures batchSize == 0 ==> bins == []
    ensures batchSize > 0 ==> (Flatten(bins) == GapHeights(gaps) <==> AllFit(gaps, batchSize))
    ensures batchSize > 0 && AllFit(gaps, batchSize) ==> forall i :: 0 <= i < |bins| ==> 1 <= |bins[i]| <= batchSize
  {
    bins := [];
    for n := 0 to |gaps|
      invariant batchSize == 0 ==> bins == []
      invariant batchSize > 0 ==> BinnedUpTo(gaps, n, batchSize, bins)
    {
      var g := gaps[n];
      var r := GetBlockHeightBins(g.start, g.stop, batchSize);
      if r.Err? {
        if batchSize > 0 { BinnedNext(gaps, n, batchSize, bins, []); assert bins + [] == bins; }
        continue;
      }
      BinnedNext(gaps, n, batchSize, bins, r.value);
      bins := bins + r.value;
    }
    assert gaps[..|gaps|] == gaps;
  }

  lemma {:induction false} FlattenConcat<T>(a: seq<seq<T>>, b: seq<seq<T>>)
    ensures Flatten(a + b) == Flatten(a) + Flatten(b)
    decreases |b|
  {
    if b == [] {
      assert a + b == a;
    } else {
      assert a + b == (a + [b[0]]) + b[1..];
      FlattenConcat(a + [b[0]], b[1..]);
      FlattenAppend(a, b[0]);
    }
  }
}
