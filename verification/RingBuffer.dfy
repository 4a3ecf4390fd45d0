/** The channel to the publish workers, used as a ring buffer that drops its oldest item when full. */
module RingBuffer {
  import opened Common

  const CAPACITY: nat := 2000

  /** Where the producer is: waiting for a payload, or between finding the channel full and taking the
      oldest item out, or between taking it and sending the new one. */
  datatype Phase<T> = Waiting | Full(item: T) | Room(item: T)

  datatype Fate = Published | Dropped

  datatype Taken<T> = Taken(item: T, fate: Fate)

  /** `arrived` records the converted payloads, `taken` what left the channel. */
  datatype Ring<T> = Ring(arrived: seq<T>, taken: seq<Taken<T>>, queue: seq<T>, phase: Phase<T>)

  /** Arrive: a payload converted and sent at once if there is room. Take: a worker receives.
      Drop, Send: the two statements of the producer's default branch. */
  datatype Label<T> = Arrive(item: T) | Take | Drop | Send

  predicate Enabled<T>(s: Ring<T>, l: Label<T>) {
    match l
    case Arrive(_) => s.phase.Waiting?
    case Take => s.queue != []
    case Drop => s.phase.Full? && s.queue != []
    case Send => s.phase.Room? && |s.queue| < CAPACITY
  }

  function Do<T>(s: Ring<T>, l: Label<T>): Ring<T>
    requires Enabled(s, l)
  {
    match l
    case Arrive(x) =>
      if |s.queue| < CAPACITY then s.(arrived := s.arrived + [x], queue := s.queue + [x])
      else s.(arrived := s.arrived + [x], phase := Full(x))
    case Take => s.(taken := s.taken + [Taken(s.queue[0], Published)], queue := s.queue[1..])
    case Drop => s.(taken := s.taken + [Taken(s.queue[0], Dropped)], queue := s.queue[1..], phase := Room(s.phase.item))
    case Send => s.(queue := s.queue + [s.phase.item], phase := Waiting)
  }

  function After<T>(run: seq<Label<T>>): Option<Ring<T>> {
    if run == [] then Some(Ring([], [], [], Waiting))
    else
      var before := After(run[..|run| - 1]);
      if before.Some? && Enabled(before.value, run[|run| - 1])
      then Some(Do(before.value, run[|run| - 1])) else None
  }

  function Items<T>(taken: seq<Taken<T>>): seq<T> {
    seq(|taken|, i requires 0 <= i < |taken| => taken[i].item)
  }

  function InHand<T>(p: Phase<T>): seq<T> {
    if p.Waiting? then [] else [p.item]
  }

  predicate Inv<T(==)>(s: Ring<T>) {
    && s.arrived == Items(s.taken) + s.queue + InHand(s.phase)
    && |s.queue| <= 2000
    && (s.phase.Room? ==> |s.queue| < 2000)
    && (!s.phase.Waiting? ==> |s.arrived| > 2000)
  }

  lemma StepKeeps<T>(s: Ring<T>, l: Label<T>)
    requires Inv(s) && Enabled(s, l)
    ensures Inv(Do(s, l))
  {
    var t := Do(s, l);
    if l.Take? || l.Drop? {
      assert Items(t.taken) == Items(s.taken) + [s.queue[0]];
      assert [s.queue[0]] + s.queue[1..] == s.queue;
    }
  }

  /** In every run the items taken, published or dropped, followed by those still queued and the one
      in the producer's hand, are the converted payloads in arrival order; the queue holds at most 2000
      items, and the producer does not come to the default branch before payload 2001. */
  lemma {:induction false} NothingLostOrReordered<T>(run: seq<Label<T>>)
    requires After(run).Some?
    ensures Inv(After(run).value)
  {
    if run != [] {
      NothingLostOrReordered(run[..|run| - 1]);
      StepKeeps(After(run[..|run| - 1]).value, run[|run| - 1]);
    }
  }

  /** The dropped item is the oldest not yet taken and not the newest, which is in the producer's hand;
      and whatever the workers do next, the send that follows does not block. */
  lemma DropTakesOldest<T>(run: seq<Label<T>>, takes: seq<Label<T>>)
    requires After(run + [Drop]).Some?
    requires forall i :: 0 <= i < |takes| ==> takes[i].Take?
    requires After(run + [Drop] + takes).Some?
    ensures After(run).Some?
    ensures var s := After(run).value;
            var t := After(run + [Drop]).value;
            && |s.taken| < |s.arrived| - 1
            && t.taken == s.taken + [Taken(s.arrived[|s.taken|], Dropped)]
            && t.phase == Room(s.arrived[|s.arrived| - 1])
    ensures Enabled(After(run + [Drop] + takes).value, Send)
  {
    assert (run + [Drop])[..|run|] == run;
    NothingLostOrReordered(run);
    TakesKeepRoom(run + [Drop], takes);
  }

  lemma {:induction false} TakesKeepRoom<T>(run: seq<Label<T>>, takes: seq<Label<T>>)
    requires After(run).Some? && After(run).value.phase.Room?
    requires forall i :: 0 <= i < |takes| ==> takes[i].Take?
    requires After(run + takes).Some?
    ensures After(run + takes).value.phase.Room? && Enabled(After(run + takes).value, Send)
  {
    NothingLostOrReordered(run + takes);
    if takes == [] {
      assert run + takes == run;
    } else {
      var most := takes[..|takes| - 1];
      assert (run + takes)[..|run + takes| - 1] == run + most;
      TakesKeepRoom(run, most);
    }
  }

  /** No item is taken twice: the i-th thing to leave is the i-th to arrive. */
  lemma TakenInOrder<T>(run: seq<Label<T>>, i: nat)
    requires After(run).Some? && i < |After(run).value.taken|
    ensures var s := After(run).value; i < |s.arrived| && s.taken[i].item == s.arrived[i]
  {
    NothingLostOrReordered(run);
    var s := After(run).value;
    assert Items(s.taken)[i] == s.taken[i].item;
  }

  // ----- when the producer is stuck -----

  /** Between finding the channel full and receiving from it, the workers may empty it. Then the
      producer waits for an item only it could send, and no step of any kind is left. */
  lemma StuckExactlyWhenDrained<T>(run: seq<Label<T>>, next: T)
    requires After(run).Some?
    ensures var s := After(run).value;
            (forall l :: !Enabled(s, l)) <==> s.phase.Full? && s.queue == []
  {
    NothingLostOrReordered(run);
    var s := After(run).value;
    if !(s.phase.Full? && s.queue == []) {
      if s.queue != [] {
        assert Enabled(s, Take);
      } else if s.phase.Room? {
        assert Enabled(s, Send);
      } else {
        assert Enabled(s, Arrive(next));
      }
    }
  }

  function Arrivals(x: nat, n: nat): seq<Label<nat>> { seq(n, _ => Arrive(x)) }

  function Takes(n: nat): seq<Label<nat>> { seq(n, _ => Take) }

  lemma {:induction false} FillsUp(n: nat)
    requires n <= CAPACITY
    ensures After(Arrivals(0, n)).Some?
    ensures var s := After(Arrivals(0, n)).value; |s.queue| == |s.arrived| == n && s.phase == Waiting
  {
    if n > 0 {
      FillsUp(n - 1);
      assert Arrivals(0, n)[..n - 1] == Arrivals(0, n - 1);
    }
  }

  lemma {:induction false} Drains(run: seq<Label<nat>>, n: nat)
    requires After(run).Some? && n <= |After(run).value.queue|
    ensures After(run + Takes(n)).Some?
    ensures var s := After(run + Takes(n)).value;
            && |s.queue| == |After(run).value.queue| - n
            && s.phase == After(run).value.phase && s.arrived == After(run).value.arrived
  {
    if n == 0 {
      assert run + Takes(0) == run;
    } else {
      Drains(run, n - 1);
      assert (run + Takes(n))[..|run + Takes(n)| - 1] == run + Takes(n - 1);
    }
  }

  /** That state can be reached, with the first payload that finds the channel full. */
  lemma StuckIsReachable() returns (run: seq<Label<nat>>)
    ensures After(run).Some? && After(run).value.phase.Full? && After(run).value.queue == []
    ensures |After(run).value.arrived| == 2001
  {
    FillsUp(CAPACITY);
    var full := Arrivals(0, CAPACITY) + [Arrive(0)];
    assert full[..CAPACITY] == Arrivals(0, CAPACITY);
    Drains(full, CAPACITY);
    run := full + Takes(CAPACITY);
  }
}
