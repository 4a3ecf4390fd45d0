/** The worker pools of resync and backfill, in every interleaving. */
module Pool {
  import opened Common

  // A coordinator hands bins to N workers over an unbuffered channel and then hands out one quit to each.
  // Backfill does so once per pass, with a fresh bin channel and fresh workers, but the quit channel is the
  // same for all passes.

  datatype Activity = Idle | Busy(bin: nat, heights: seq<int>, done: nat) | Exited

  datatype Worker = Worker(pass: nat, act: Activity)

  datatype Visit = Visit(worker: nat, bin: nat, height: int)

  /** `workers` holds the workers of all passes so far; `owner` and `visits` record, for the current
      pass, which worker took which bin and which heights were processed. */
  datatype System = System(
    pass: nat, active: bool,
    bins: seq<seq<int>>, sent: nat, quits: nat,
    workers: seq<Worker>,
    owner: seq<nat>, visits: seq<Visit>)

  const INITIAL := System(0, false, [], 0, 0, [], [], [])

  datatype Label =
    | StartPass(bins: seq<seq<int>>)
    | SendBin(w: nat)
    | Process(w: nat)
    | Finish(w: nat)
    | SendQuit(w: nat)
    | EndPass

  /** A received bin is indexed at its first and last place, so bins must not be empty. */
  predicate NonEmpty(bins: seq<seq<int>>) {
    forall b :: 0 <= b < |bins| ==> |bins[b]| > 0
  }

  predicate Enabled(n: nat, s: System, l: Label) {
    match l
    case StartPass(bins) => !s.active && NonEmpty(bins)
    case SendBin(w) =>
      && s.active && s.sent < |s.bins| && w < |s.workers|
      && s.workers[w].act == Idle && s.workers[w].pass == s.pass
    case Process(w) => w < |s.workers| && s.workers[w].act.Busy? && s.workers[w].act.done < |s.workers[w].act.heights|
    case Finish(w) => w < |s.workers| && s.workers[w].act.Busy? && s.workers[w].act.done == |s.workers[w].act.heights|
    case SendQuit(w) =>
      s.active && s.sent == |s.bins| && s.quits < n && w < |s.workers| && s.workers[w].act == Idle
    case EndPass => s.active && s.sent == |s.bins| && s.quits == n
  }

  function Set(ws: seq<Worker>, w: nat, act: Activity): seq<Worker>
    requires w < |ws|
  {
    ws[w := ws[w].(act := act)]
  }

  function Hired(n: nat, pass: nat): (ws: seq<Worker>) {
    seq(n, _ => Worker(pass, Idle))
  }

  function Do(n: nat, s: System, l: Label): System
    requires Enabled(n, s, l)
  {
    match l
    case StartPass(bins) =>
      System(s.pass + 1, true, bins, 0, 0, s.workers + Hired(n, s.pass + 1), [], [])
    case SendBin(w) =>
      s.(workers := Set(s.workers, w, Busy(s.sent, s.bins[s.sent], 0)), sent := s.sent + 1, owner := s.owner + [w])
    case Process(w) =>
      var a := s.workers[w].act;
      s.(workers := Set(s.workers, w, a.(done := a.done + 1)),
         visits := s.visits + [Visit(w, a.bin, a.heights[a.done])])
    case Finish(w) => s.(workers := Set(s.workers, w, Idle))
    case SendQuit(w) => s.(workers := Set(s.workers, w, Exited), quits := s.quits + 1)
    case EndPass => s.(active := false)
  }

  /** The state after a run, if each of its steps was enabled. */
  function After(n: nat, run: seq<Label>): Option<System> {
    if run == [] then Some(INITIAL)
    else
      var before := After(n, run[..|run| - 1]);
      if before.Some? && Enabled(n, before.value, run[|run| - 1])
      then Some(Do(n, before.value, run[|run| - 1])) else None
  }

  // ----- sums over workers -----

  function Sum(ws: seq<Worker>, f: Worker -> nat): nat {
    if ws == [] then 0 else Sum(ws[..|ws| - 1], f) + f(ws[|ws| - 1])
  }

  lemma {:induction false} SumSet(ws: seq<Worker>, i: nat, w: Worker, f: Worker -> nat)
    requires i < |ws|
    ensures Sum(ws[i := w], f) == Sum(ws, f) - f(ws[i]) + f(w)
  {
    var last := |ws| - 1;
    if i == last {
      assert ws[i := w][..last] == ws[..last];
    } else {
      SumSet(ws[..last], i, w, f);
      assert ws[i := w][..last] == ws[..last][i := w];
    }
  }

  lemma {:induction false} SumAppend(ws: seq<Worker>, more: seq<Worker>, f: Worker -> nat)
    ensures Sum(ws + more, f) == Sum(ws, f) + Sum(more, f)
  {
    if more == [] {
      assert ws + more == ws;
    } else {
      var last := |more| - 1;
      assert (ws + more)[..|ws + more| - 1] == ws + more[..last];
      SumAppend(ws, more[..last], f);
    }
  }

  lemma {:induction false} SumHired(n: nat, pass: nat, f: Worker -> nat)
    ensures Sum(Hired(n, pass), f) == n * f(Worker(pass, Idle))
  {
    if n > 0 {
      SumHired(n - 1, pass, f);
      assert Hired(n, pass)[..n - 1] == Hired(n - 1, pass);
    }
  }

  lemma {:induction false} SumZero(ws: seq<Worker>, f: Worker -> nat)
    ensures Sum(ws, f) == 0 <==> forall i :: 0 <= i < |ws| ==> f(ws[i]) == 0
  {
    if ws != [] {
      var last := |ws| - 1;
      SumZero(ws[..last], f);
      assert forall i :: 0 <= i < last ==> ws[..last][i] == ws[i];
    }
  }

  function Alive(w: Worker): nat { if w.act == Exited then 0 else 1 }

  function Work(w: Worker): nat {
    if w.act.Busy? && w.act.done <= |w.act.heights| then |w.act.heights| - w.act.done + 1 else 0
  }

  // ----- the invariant -----

  /** The heights of a bin that were processed, in order. */
  function Processed(visits: seq<Visit>, b: nat): seq<int> {
    if visits == [] then []
    else
      var v := visits[|visits| - 1];
      Processed(visits[..|visits| - 1], b) + (if v.bin == b then [v.height] else [])
  }

  /** n workers for each pass. */
  function HiredSoFar(n: nat, pass: nat): nat {
    if pass == 0 then 0 else HiredSoFar(n, pass - 1) + n
  }

  lemma {:induction false} HiredIsProduct(n: nat, pass: nat)
    ensures HiredSoFar(n, pass) == pass * n
  {
    if pass > 0 { HiredIsProduct(n, pass - 1); }
  }

  predicate Crew(n: nat, s: System) {
    && |s.workers| == HiredSoFar(n, s.pass)
    && (forall i :: 0 <= i < |s.workers| ==> s.workers[i].act != Exited ==> s.workers[i].pass == s.pass)
    && Sum(s.workers, Alive) == (if s.active then n - s.quits else 0)
  }

  predicate Owned(s: System) {
    && |s.owner| == s.sent <= |s.bins|
    && forall b :: 0 <= b < s.sent ==> s.owner[b] < |s.workers|
  }

  predicate Tasks(s: System)
    requires Owned(s)
  {
    forall i :: 0 <= i < |s.workers| && s.workers[i].act.Busy? ==>
      var a := s.workers[i].act;
      a.bin < s.sent && a.heights == s.bins[a.bin] && a.done <= |a.heights| && s.owner[a.bin] == i
  }

  /** How far the work on a bin has come. */
  function Reached(s: System, b: nat): seq<int>
    requires Owned(s) && Tasks(s)
  {
    if b >= s.sent then []
    else
      var a := s.workers[s.owner[b]].act;
      if a.Busy? && a.bin == b then a.heights[..a.done] else s.bins[b]
  }

  predicate Bookkeeping(s: System)
    requires Owned(s) && Tasks(s)
  {
    && (forall b :: 0 <= b < |s.bins| ==> Processed(s.visits, b) == Reached(s, b))
    && (forall i :: 0 <= i < |s.visits| ==> s.visits[i].bin < s.sent && s.visits[i].worker == s.owner[s.visits[i].bin])
  }

  predicate Inv(n: nat, s: System) {
    && s.quits <= n && (s.quits > 0 ==> s.sent == |s.bins|)
    && (!s.active ==> s.sent == |s.bins|)
    && NonEmpty(s.bins)
    && Owned(s) && Tasks(s) && Crew(n, s) && Bookkeeping(s)
  }

  // ----- every step keeps it -----

  lemma {:induction false} AllExited(n: nat, s: System)
    requires Crew(n, s) && !s.active
    ensures forall i :: 0 <= i < |s.workers| ==> s.workers[i].act == Exited
  {
    SumZero(s.workers, Alive);
    assert forall i :: 0 <= i < |s.workers| ==> Alive(s.workers[i]) == 0;
  }

  lemma {:induction false} NewCrew(n: nat, ws: seq<Worker>, pass: nat)
    requires forall i :: 0 <= i < |ws| ==> ws[i].act == Exited
    ensures Sum(ws + Hired(n, pass), Alive) == n
  {
    SumZero(ws, Alive);
    SumAppend(ws, Hired(n, pass), Alive);
    SumHired(n, pass, Alive);
  }

  lemma {:induction false} StartPassKeeps(n: nat, s: System, bins: seq<seq<int>>)
    requires Inv(n, s) && Enabled(n, s, StartPass(bins))
    ensures Inv(n, Do(n, s, StartPass(bins)))
  {
    AllExited(n, s);
    NewCrew(n, s.workers, s.pass + 1);
    var t := Do(n, s, StartPass(bins));
    assert forall i :: 0 <= i < |t.workers| ==> !t.workers[i].act.Busy?;
    assert Owned(t) && Tasks(t);
    assert Bookkeeping(t);
  }

  lemma SendBinKeeps(n: nat, s: System, w: nat)
    requires Inv(n, s) && Enabled(n, s, SendBin(w))
    ensures Inv(n, Do(n, s, SendBin(w)))
  {
    var t := Do(n, s, SendBin(w));
    SumSet(s.workers, w, t.workers[w], Alive);
    assert forall b :: 0 <= b < |s.bins| ==> Reached(t, b) == Reached(s, b);
  }

  lemma ProcessKeeps(n: nat, s: System, w: nat)
    requires Inv(n, s) && Enabled(n, s, Process(w))
    ensures Inv(n, Do(n, s, Process(w)))
  {
    var t := Do(n, s, Process(w));
    SumSet(s.workers, w, t.workers[w], Alive);
    var a := s.workers[w].act;
    assert t.visits[..|s.visits|] == s.visits;
    assert a.heights[..a.done + 1] == a.heights[..a.done] + [a.heights[a.done]];
    assert forall b :: 0 <= b < |s.bins| && b != a.bin ==> Reached(t, b) == Reached(s, b);
  }

  lemma FinishKeeps(n: nat, s: System, w: nat)
    requires Inv(n, s) && Enabled(n, s, Finish(w))
    ensures Inv(n, Do(n, s, Finish(w)))
  {
    var t := Do(n, s, Finish(w));
    SumSet(s.workers, w, t.workers[w], Alive);
    var a := s.workers[w].act;
    assert a.heights[..a.done] == a.heights;
    assert forall b :: 0 <= b < |s.bins| ==> Reached(t, b) == Reached(s, b);
  }

  lemma SendQuitKeeps(n: nat, s: System, w: nat)
    requires Inv(n, s) && Enabled(n, s, SendQuit(w))
    ensures Inv(n, Do(n, s, SendQuit(w)))
  {
    var t := Do(n, s, SendQuit(w));
    SumSet(s.workers, w, t.workers[w], Alive);
    assert forall b :: 0 <= b < |s.bins| ==> Reached(t, b) == Reached(s, b);
  }

  lemma StepKeeps(n: nat, s: System, l: Label)
    requires Inv(n, s) && Enabled(n, s, l)
    ensures Inv(n, Do(n, s, l))
  {
    match l
    case StartPass(bins) => StartPassKeeps(n, s, bins);
    case SendBin(w) => SendBinKeeps(n, s, w);
    case Process(w) => ProcessKeeps(n, s, w);
    case Finish(w) => FinishKeeps(n, s, w);
    case SendQuit(w) => SendQuitKeeps(n, s, w);
    case EndPass =>
      var t := Do(n, s, EndPass);
      assert forall b :: 0 <= b < |s.bins| ==> Reached(t, b) == Reached(s, b);
  }

  /** In every interleaving. */
  lemma {:induction false} EveryRunKeeps(n: nat, run: seq<Label>)
    requires After(n, run).Some?
    ensures Inv(n, After(n, run).value)
  {
    if run != [] {
      EveryRunKeeps(n, run[..|run| - 1]);
      StepKeeps(n, After(n, run[..|run| - 1]).value, run[|run| - 1]);
    }
  }

  // ----- what that means for a pass -----

  /** A worker that can take a quit has processed every bin it ever took, in order and to the end. */
  lemma QuitOnlyWhenDone(n: nat, run: seq<Label>, w: nat, b: nat)
    requires After(n, run).Some? && Enabled(n, After(n, run).value, SendQuit(w))
    requires var s := After(n, run).value; b < |s.owner| && s.owner[b] == w
    ensures var s := After(n, run).value; b < |s.bins| && Processed(s.visits, b) == s.bins[b]
  {
    EveryRunKeeps(n, run);
  }

  /** Between passes nothing is at work, and the pass that just ended processed every bin completely,
      each by the one worker that took it. */
  lemma PassComplete(n: nat, run: seq<Label>)
    requires After(n, run).Some? && !After(n, run).value.active
    ensures var s := After(n, run).value;
            && |s.workers| == s.pass * n
            && (forall i :: 0 <= i < |s.workers| ==> s.workers[i].act == Exited)
            && |s.owner| == |s.bins|
            && (forall b :: 0 <= b < |s.bins| ==> Processed(s.visits, b) == s.bins[b])
            && (forall i :: 0 <= i < |s.visits| ==>
                  s.visits[i].bin < |s.owner| && s.visits[i].worker == s.owner[s.visits[i].bin])
            && multiset(Visited(s.visits)) == multiset(Flatten(s.bins))
  {
    EveryRunKeeps(n, run);
    var s := After(n, run).value;
    AllExited(n, s);
    HiredIsProduct(n, s.pass);
    VisitsByBin(s.visits, s.bins, |s.bins|);
    assert s.bins[..|s.bins|] == s.bins;
    AllBelow(s.visits, |s.bins|);
  }

  function Visited(visits: seq<Visit>): seq<int> {
    seq(|visits|, i requires 0 <= i < |visits| => visits[i].height)
  }

  /** The visits to bins below k. */
  function Below(visits: seq<Visit>, k: nat): seq<int> {
    if visits == [] then []
    else
      var v := visits[|visits| - 1];
      Below(visits[..|visits| - 1], k) + (if v.bin < k then [v.height] else [])
  }

  lemma {:induction false} AllBelow(visits: seq<Visit>, k: nat)
    requires forall i :: 0 <= i < |visits| ==> visits[i].bin < k
    ensures Below(visits, k) == Visited(visits)
  {
    if visits != [] {
      var last := |visits| - 1;
      AllBelow(visits[..last], k);
      assert Visited(visits) == Visited(visits[..last]) + [visits[last].height];
    }
  }

  lemma {:induction false} BelowSplits(visits: seq<Visit>, k: nat)
    ensures multiset(Below(visits, k + 1)) == multiset(Below(visits, k)) + multiset(Processed(visits, k))
  {
    if visits != [] {
      BelowSplits(visits[..|visits| - 1], k);
    }
  }

  lemma {:induction false} NoneBelow(visits: seq<Visit>)
    ensures Below(visits, 0) == []
  {
    if visits != [] {
      NoneBelow(visits[..|visits| - 1]);
    }
  }

  lemma {:induction false} VisitsByBin(visits: seq<Visit>, bins: seq<seq<int>>, k: nat)
    requires k <= |bins| && forall b :: 0 <= b < |bins| ==> Processed(visits, b) == bins[b]
    ensures multiset(Below(visits, k)) == multiset(Flatten(bins[..k]))
  {
    if k == 0 {
      NoneBelow(visits);
    } else {
      VisitsByBin(visits, bins, k - 1);
      BelowSplits(visits, k - 1);
      FlattenNext(bins, k - 1);
    }
  }

  // ----- a pass ends -----

  /** While a pass is under way some step of it can be taken. */
  lemma Progress(n: nat, run: seq<Label>) returns (l: Label)
    requires n >= 1 && After(n, run).Some? && After(n, run).value.active
    ensures Enabled(n, After(n, run).value, l)
  {
    EveryRunKeeps(n, run);
    var s := After(n, run).value;
    if s.quits == n {
      l := EndPass;
    } else {
      SumZero(s.workers, Alive);
      var w :| 0 <= w < |s.workers| && Alive(s.workers[w]) != 0;
      var a := s.workers[w].act;
      l := if a.Busy? && a.done < |a.heights| then Process(w)
           else if a.Busy? then Finish(w)
           else if s.sent < |s.bins| then SendBin(w)
           else SendQuit(w);
    }
  }

  /** What the bins from the k-th on still cost: handing one over, its heights, finishing it. */
  function Unsent(bins: seq<seq<int>>, k: nat): nat
    requires k <= |bins|
    decreases |bins| - k
  {
    if k == |bins| then 0 else |bins[k]| + 2 + Unsent(bins, k + 1)
  }

  function Measure(n: nat, s: System): int
    requires s.sent <= |s.bins|
  {
    if s.active then Unsent(s.bins, s.sent) + Sum(s.workers, Work) + (n - s.quits) + 1 else 0
  }

  /** Every step within a pass brings its end exactly one step nearer. */
  lemma StepCounts(n: nat, run: seq<Label>, l: Label)
    requires After(n, run + [l]).Some? && !l.StartPass?
    ensures After(n, run).Some? && After(n, run).value.active
    ensures var s, t := After(n, run).value, After(n, run + [l]).value;
            s.sent <= |s.bins| && t.sent <= |t.bins| && Measure(n, t) == Measure(n, s) - 1 >= 0
  {
    assert (run + [l])[..|run|] == run;
    EveryRunKeeps(n, run);
    var s := After(n, run).value;
    var t := Do(n, s, l);
    SumZero(s.workers, Alive);
    match l
    case SendBin(w) => SumSet(s.workers, w, t.workers[w], Work);
    case Process(w) => SumSet(s.workers, w, t.workers[w], Work);
    case Finish(w) => SumSet(s.workers, w, t.workers[w], Work);
    case SendQuit(w) => SumSet(s.workers, w, t.workers[w], Work);
    case EndPass => NoWorkLeft(n, s);
  }

  lemma NoWorkLeft(n: nat, s: System)
    requires Inv(n, s) && Enabled(n, s, EndPass)
    ensures Sum(s.workers, Work) == 0
  {
    SumZero(s.workers, Alive);
    assert forall i :: 0 <= i < |s.workers| ==> Alive(s.workers[i]) == 0;
    SumZero(s.workers, Work);
  }

  predicate WithinPass(run: seq<Label>) {
    forall i :: 0 <= i < |run| ==> !run[i].StartPass?
  }

  lemma MeasureOfActive(n: nat, s: System)
    requires Inv(n, s)
    ensures Measure(n, s) > 0 <==> s.active
  {
  }

  lemma PassBegins(n: nat, s: System, bins: seq<seq<int>>)
    requires Inv(n, s) && Enabled(n, s, StartPass(bins))
    ensures Measure(n, Do(n, s, StartPass(bins))) == Unsent(bins, 0) + n + 1
  {
    AllExited(n, s);
    SumZero(s.workers, Work);
    SumAppend(s.workers, Hired(n, s.pass + 1), Work);
    SumHired(n, s.pass + 1, Work);
  }

  /** So every completed pass takes the same number of steps, whatever the interleaving: one for each
      height, two for each bin, one quit for each worker and the end of the pass. */
  lemma {:induction false} PassLength(n: nat, before: seq<Label>, bins: seq<seq<int>>, steps: seq<Label>)
    requires After(n, before + [StartPass(bins)] + steps).Some? && WithinPass(steps)
    ensures var s := After(n, before + [StartPass(bins)] + steps).value;
            && s.sent <= |s.bins| && s.bins == bins
            && |steps| + Measure(n, s) == Unsent(bins, 0) + n + 1
    ensures !After(n, before + [StartPass(bins)] + steps).value.active <==> |steps| == Unsent(bins, 0) + n + 1
  {
    var run := before + [StartPass(bins)];
    if steps == [] {
      assert run + steps == run && run[..|before|] == before;
      EveryRunKeeps(n, before);
      PassBegins(n, After(n, before).value, bins);
    } else {
      var most, l := steps[..|steps| - 1], steps[|steps| - 1];
      assert run + steps == (run + most) + [l];
      StepCounts(n, run + most, l);
      PassLength(n, before, bins, most);
      EveryRunKeeps(n, run + steps);
      MeasureOfActive(n, After(n, run + steps).value);
    }
  }
}
