/** The in-process limit on concurrent jobs (src/utils/concurrencyLimiter.js). */
module Limiter {
  import opened Common

  // The limiter's variables, with a history: which calls of run() were let in
  // (`arrivals`: not refused), admitted, are running, are done, or timed out.
  datatype State = State(
    active: int, peakActive: int, waiting: seq<nat>,
    timers: set<nat>,        // entries whose timeout is armed
    running: set<nat>, done: set<nat>, arrivals: seq<nat>, admitted: seq<nat>, timedOut: set<nat>)

  datatype Limits = Limits(maxConcurrent: nat, maxWaiting: nat)

  datatype Outcome = Admitted | Queued | QueueFull

  const Idle := State(0, 0, [], {}, {}, {}, [], [], {})

  // ------------------------------------------------------------------ specification

  function Admit(s: State, t: nat): State {
    s.(active := s.active + 1, peakActive := Max(s.peakActive, s.active + 1), running := s.running + {t}, admitted := s.admitted + [t])
  }

  function StartNextWaiting(l: Limits, s: State): State
    decreases |s.waiting|
  {
    if s.active < l.maxConcurrent && s.waiting != []
    then StartNextWaiting(l, Admit(s.(waiting := s.waiting[1..], timers := s.timers - {s.waiting[0]}), s.waiting[0]))
    else s
  }

  function Acquire(l: Limits, s: State, t: nat): (State, Outcome) {
    if s.active < l.maxConcurrent && |s.waiting| == 0 then (Admit(s.(arrivals := s.arrivals + [t]), t), Admitted)
    else if |s.waiting| >= l.maxWaiting then (s, QueueFull)
    else (s.(waiting := s.waiting + [t], timers := s.timers + {t}, arrivals := s.arrivals + [t]), Queued)
  }

  function IndexOf(w: seq<nat>, t: nat): (r: int)
    ensures -1 <= r < |w|
    ensures if t in w then r >= 0 && w[r] == t && (forall k :: 0 <= k < r ==> w[k] != t) else r == -1
  {
    if w == [] then -1
    else if w[0] == t then 0
    else
      var r := IndexOf(w[1..], t);
      if r == -1 then -1 else r + 1
  }

  // Array.prototype.splice(i, 1): a negative start counts from the end.
  function SpliceOne(w: seq<nat>, i: int): seq<nat>
    requires -1 <= i < |w|
  {
    if i >= 0 then w[..i] + w[i + 1..]
    else if w == [] then []
    else w[..|w| - 1]
  }

  function TimeOut(s: State, t: nat): State {
    s.(waiting := SpliceOne(s.waiting, IndexOf(s.waiting, t)), timers := s.timers - {t}, timedOut := s.timedOut + {t})
  }

  function Release(l: Limits, s: State, t: nat): State {
    StartNextWaiting(l, s.(active := s.active - 1, running := s.running - {t}, done := s.done + {t}))
  }

  // Each call of run() is one ticket; only an armed timer fires, and only a
  // task that is running ends.
  datatype Event = Arrive(t: nat) | TimerFires(t: nat) | TaskEnds(t: nat)

  function Step(l: Limits, s: State, e: Event): Option<State> {
    match e
    case Arrive(t) => if t in s.arrivals then None else Some(Acquire(l, s, t).0)
    case TimerFires(t) => if t !in s.timers then None else Some(TimeOut(s, t))
    case TaskEnds(t) => if t !in s.running then None else Some(Release(l, s, t))
  }

  function Run(l: Limits, s: State, events: seq<Event>): Option<State>
    decreases |events|
  {
    if events == [] then Some(s)
    else match Step(l, s, events[0])
      case None => None
      case Some(next) => Run(l, next, events[1..])
  }

  // ------------------------------------------------------------------ the object

  // createConcurrencyLimiter: its closure variables as fields.
  class ConcurrencyLimiter {
    const limits: Limits
    var active: int
    var peakActive: int
    var waiting: seq<nat>
    var timers: set<nat>
    ghost var running: set<nat>
    ghost var done: set<nat>
    ghost var arrivals: seq<nat>
    ghost var admitted: seq<nat>
    ghost var timedOut: set<nat>

    ghost function View(): State
      reads this
    {
      State(active, peakActive, waiting, timers, running, done, arrivals, admitted, timedOut)
    }

    constructor (limits: Limits)
      ensures this.limits == limits && View() == Idle
    {
      this.limits := limits;
      active, peakActive, waiting, timers := 0, 0, [], {};
      running, done, arrivals, admitted, timedOut := {}, {}, [], [], {};
    }

    method StartWaiting()
      modifies this
      ensures View() == StartNextWaiting(limits, old(View()))
    {
      while active < limits.maxConcurrent && |waiting| > 0
        invariant StartNextWaiting(limits, View()) == StartNextWaiting(limits, old(View()))
        decreases |waiting|
      {
        var next := waiting[0];
        waiting := waiting[1..];
        timers := timers - {next};
        active := active + 1;
        peakActive := Max(peakActive, active);
        running, admitted := running + {next}, admitted + [next];
      }
    }

    method AcquireSlot(t: nat) returns (outcome: Outcome)
      modifies this
      ensures (View(), outcome) == Acquire(limits, old(View()), t)
    {
      if active < limits.maxConcurrent && |waiting| == 0 {
        active := active + 1;
        peakActive := Max(peakActive, active);
        running, admitted, arrivals := running + {t}, admitted + [t], arrivals + [t];
        return Admitted;
      }
      if |waiting| >= limits.maxWaiting { return QueueFull; }
      waiting := waiting + [t];
      timers := timers + {t};
      arrivals := arrivals + [t];
      return Queued;
    }

    method WaitTimeout(t: nat)
      modifies this
      ensures View() == TimeOut(old(View()), t)
    {
      waiting := SpliceOne(waiting, IndexOf(waiting, t));
      timers := timers - {t};
      timedOut := timedOut + {t};
    }

    method ReleaseSlot(t: nat)
      modifies this
      ensures View() == Release(limits, old(View()), t)
    {
      active := active - 1;
      running, done := running - {t}, done + {t};
      StartWaiting();
    }
  }

  // ------------------------------------------------------------------ properties

  function Kept(arrivals: seq<nat>, out: set<nat>): seq<nat> {
    if arrivals == [] then []
    else Kept(arrivals[..|arrivals| - 1], out) + (if arrivals[|arrivals| - 1] in out then [] else [arrivals[|arrivals| - 1]])
  }

  ghost predicate Distinct(w: seq<nat>) {
    forall i, j :: 0 <= i < j < |w| ==> w[i] != w[j]
  }

  ghost predicate Elements(w: seq<nat>, s: set<nat>) {
    forall t :: t in w <==> t in s
  }

  // What the limiter promises in every state it can reach.
  ghost predicate Fair(l: Limits, s: State) {
    && s.active == |s.running| <= l.maxConcurrent
    && s.active <= s.peakActive <= l.maxConcurrent
    && |s.waiting| <= l.maxWaiting
    && (s.waiting != [] ==> s.active == l.maxConcurrent)        // nobody waits while a slot is free
    && Kept(s.arrivals, s.timedOut) == s.admitted + s.waiting   // arrival order, minus timeouts
    && Distinct(s.arrivals) && (forall t :: t in s.timedOut ==> t in s.arrivals)
    && Distinct(s.admitted)                                     // each task starts at most once
    && Elements(s.waiting, s.timers)                            // a timer belongs to a queued entry
    && s.running !! s.done
    && Elements(s.admitted, s.running + s.done)
  }

  lemma {:induction false} KeptMembers(a: seq<nat>, out: set<nat>)
    ensures forall t :: t in Kept(a, out) <==> t in a && t !in out
  {
    if a != [] { KeptMembers(a[..|a| - 1], out); }
  }

  lemma {:induction false} KeptDistinct(a: seq<nat>, out: set<nat>)
    requires Distinct(a)
    ensures Distinct(Kept(a, out))
  {
    if a != [] {
      KeptDistinct(a[..|a| - 1], out);
      KeptMembers(a[..|a| - 1], out);
    }
  }

  lemma {:induction false} KeptSame(a: seq<nat>, out: set<nat>, t: nat)
    requires t !in a
    ensures Kept(a, out + {t}) == Kept(a, out)
  {
    if a != [] { KeptSame(a[..|a| - 1], out, t); }
  }

  lemma WithoutBeforeEnd(k: seq<nat>, end: seq<nat>, i: nat)
    requires i < |k|
    ensures (k + end)[..i] + (k + end)[i + 1..] == k[..i] + k[i + 1..] + end
  {
  }

  lemma {:induction false} KeptWithout(a: seq<nat>, out: set<nat>, t: nat, i: nat)
    requires Distinct(a) && i < |Kept(a, out)| && Kept(a, out)[i] == t
    ensures Kept(a, out + {t}) == Kept(a, out)[..i] + Kept(a, out)[i + 1..]
  {
    var n := |a| - 1;
    var k := Kept(a[..n], out);
    assert t in a && t !in out by { KeptMembers(a, out); }
    if a[n] == t {
      assert t !in k by { KeptMembers(a[..n], out); }
      KeptSame(a[..n], out, t);
      assert i == |k|;
    } else {
      var end := if a[n] in out then [] else [a[n]];
      assert i < |k|;
      KeptWithout(a[..n], out, t, i);
      WithoutBeforeEnd(k, end, i);
    }
  }

  // Fair, apart from "nobody waits while a slot is free".
  ghost predicate AlmostFair(l: Limits, s: State) {
    && s.active == |s.running| <= l.maxConcurrent
    && s.active <= s.peakActive <= l.maxConcurrent
    && |s.waiting| <= l.maxWaiting
    && Kept(s.arrivals, s.timedOut) == s.admitted + s.waiting
    && Distinct(s.arrivals) && (forall t :: t in s.timedOut ==> t in s.arrivals) && Distinct(s.admitted)
    && Elements(s.waiting, s.timers)
    && s.running !! s.done && Elements(s.admitted, s.running + s.done)
  }

  lemma FirstOfRest(admitted: seq<nat>, waiting: seq<nat>)
    requires Distinct(admitted + waiting) && waiting != []
    ensures
      var t := waiting[0];
      && t !in admitted && t !in waiting[1..]
      && admitted + waiting == (admitted + [t]) + waiting[1..]
  {
    var all := admitted + waiting;
    assert forall k :: 0 <= k < |waiting| ==> all[|admitted| + k] == waiting[k];
    assert all[|admitted|] == waiting[0] && forall k :: 0 <= k < |admitted| ==> all[k] == admitted[k];
  }

  lemma DistinctAppend(w: seq<nat>, t: nat)
    requires Distinct(w) && t !in w
    ensures Distinct(w + [t])
  {
  }

  lemma ElementsShift(w: seq<nat>, s: set<nat>)
    requires Elements(w, s) && w != [] && w[0] !in w[1..]
    ensures Elements(w[1..], s - {w[0]})
  {
    forall t ensures t in w[1..] <==> t in s - {w[0]} {
      assert w == [w[0]] + w[1..];
    }
  }

  lemma AdmitFirst(l: Limits, s: State)
    requires AlmostFair(l, s) && s.active < l.maxConcurrent && s.waiting != []
    ensures AlmostFair(l, Admit(s.(waiting := s.waiting[1..], timers := s.timers - {s.waiting[0]}), s.waiting[0]))
  {
    var t := s.waiting[0];
    KeptDistinct(s.arrivals, s.timedOut);
    FirstOfRest(s.admitted, s.waiting);
    DistinctAppend(s.admitted, t);
    ElementsShift(s.waiting, s.timers);
    ElementsGrow(s.admitted, s.running + s.done, t);
    assert s.running + {t} + s.done == s.running + s.done + {t};
  }

  lemma ElementsGrow(w: seq<nat>, s: set<nat>, t: nat)
    requires Elements(w, s)
    ensures Elements(w + [t], s + {t})
  {
  }

  lemma {:induction false} StartNextIsFair(l: Limits, s: State)
    requires AlmostFair(l, s)
    ensures Fair(l, StartNextWaiting(l, s))
    decreases |s.waiting|
  {
    if s.active < l.maxConcurrent && s.waiting != [] {
      AdmitFirst(l, s);
      StartNextIsFair(l, Admit(s.(waiting := s.waiting[1..], timers := s.timers - {s.waiting[0]}), s.waiting[0]));
    }
  }

  lemma ArrivalKept(arrivals: seq<nat>, out: set<nat>, t: nat)
    requires Distinct(arrivals) && t !in arrivals && t !in out
    ensures Kept(arrivals + [t], out) == Kept(arrivals, out) + [t] && Distinct(arrivals + [t])
  {
    assert (arrivals + [t])[..|arrivals|] == arrivals;
  }

  lemma InNeither(a: seq<nat>, b: seq<nat>, t: nat)
    requires t !in a + b
    ensures t !in a && t !in b
  {
    assert forall k :: 0 <= k < |b| ==> (a + b)[|a| + k] == b[k];
    assert forall k :: 0 <= k < |a| ==> (a + b)[k] == a[k];
  }

  lemma Append(a: seq<nat>, b: seq<nat>, t: nat)
    ensures a + b + [t] == a + (b + [t])
    ensures b == [] ==> a + b + [t] == (a + [t]) + b
  {
  }

  lemma NewTicket(s: State, t: nat)
    requires Kept(s.arrivals, s.timedOut) == s.admitted + s.waiting && t !in s.arrivals
    ensures t !in s.admitted && t !in s.waiting
  {
    KeptMembers(s.arrivals, s.timedOut);
    InNeither(s.admitted, s.waiting, t);
  }

  lemma AdmittedAtOnceIsFair(l: Limits, s: State, t: nat)
    requires Fair(l, s) && t !in s.arrivals && s.active < l.maxConcurrent && s.waiting == []
    ensures Fair(l, Admit(s.(arrivals := s.arrivals + [t]), t))
  {
    ArrivalKept(s.arrivals, s.timedOut, t);
    NewTicket(s, t);
    DistinctAppend(s.admitted, t);
    ElementsGrow(s.admitted, s.running + s.done, t);
    assert s.running + {t} + s.done == s.running + s.done + {t};
    Append(s.admitted, s.waiting, t);
  }

  lemma QueuedIsFair(l: Limits, s: State, t: nat)
    requires Fair(l, s) && t !in s.arrivals && |s.waiting| < l.maxWaiting
    requires s.active == l.maxConcurrent
    ensures Fair(l, s.(waiting := s.waiting + [t], timers := s.timers + {t}, arrivals := s.arrivals + [t]))
  {
    ArrivalKept(s.arrivals, s.timedOut, t);
    ElementsGrow(s.waiting, s.timers, t);
    Append(s.admitted, s.waiting, t);
  }

  lemma ArriveIsFair(l: Limits, s: State, t: nat)
    requires Fair(l, s) && t !in s.arrivals
    ensures Fair(l, Acquire(l, s, t).0)
  {
    if s.active < l.maxConcurrent && |s.waiting| == 0 {
      AdmittedAtOnceIsFair(l, s, t);
    } else if |s.waiting| < l.maxWaiting {
      QueuedIsFair(l, s, t);
    }
  }

  lemma SpliceMembers(waiting: seq<nat>, t: nat)
    requires Distinct(waiting) && t in waiting
    ensures forall u :: u in SpliceOne(waiting, IndexOf(waiting, t)) <==> u in waiting && u != t
  {
    var i := IndexOf(waiting, t);
    assert waiting == waiting[..i] + [t] + waiting[i + 1..];
  }

  lemma SpliceInRest(admitted: seq<nat>, waiting: seq<nat>, i: nat)
    requires i < |waiting|
    ensures
      var all, k := admitted + waiting, |admitted| + i;
      all[..k] + all[k + 1..] == admitted + SpliceOne(waiting, i) && all[k] == waiting[i]
  {
    var all := admitted + waiting;
    assert all[..|admitted| + i] == admitted + waiting[..i];
    assert all[|admitted| + i + 1..] == waiting[i + 1..];
  }

  lemma RestIsDistinct(admitted: seq<nat>, waiting: seq<nat>)
    requires Distinct(admitted + waiting)
    ensures Distinct(waiting)
  {
    var all, n := admitted + waiting, |admitted|;
    forall j, k | 0 <= j < k < |waiting| ensures waiting[j] != waiting[k] {
      assert all[n + j] == waiting[j] && all[n + k] == waiting[k];
    }
  }

  lemma SpliceKept(arrivals: seq<nat>, out: set<nat>, admitted: seq<nat>, waiting: seq<nat>, t: nat)
    requires Distinct(arrivals) && Kept(arrivals, out) == admitted + waiting && t in waiting
    ensures Kept(arrivals, out + {t}) == admitted + SpliceOne(waiting, IndexOf(waiting, t))
    ensures forall u :: u in SpliceOne(waiting, IndexOf(waiting, t)) <==> u in waiting && u != t
  {
    KeptDistinct(arrivals, out);
    var i := IndexOf(waiting, t);
    RestIsDistinct(admitted, waiting);
    SpliceMembers(waiting, t);
    SpliceInRest(admitted, waiting, i);
    KeptWithout(arrivals, out, t, |admitted| + i);
  }

  // A timeout removes exactly its own, still queued entry.
  lemma TimerRemovesItsEntry(l: Limits, s: State, t: nat)
    requires Fair(l, s) && t in s.timers
    ensures IndexOf(s.waiting, t) >= 0
    ensures forall u :: u in TimeOut(s, t).waiting <==> u in s.waiting && u != t
    ensures |TimeOut(s, t).waiting| == |s.waiting| - 1
    ensures Kept(s.arrivals, s.timedOut + {t}) == s.admitted + TimeOut(s, t).waiting
  {
    SpliceKept(s.arrivals, s.timedOut, s.admitted, s.waiting, t);
  }

  lemma TimerIsFair(l: Limits, s: State, t: nat)
    requires Fair(l, s) && t in s.timers
    ensures Fair(l, TimeOut(s, t))
  {
    TimerRemovesItsEntry(l, s, t);
    assert t in s.arrivals by { KeptMembers(s.arrivals, s.timedOut); assert t in s.admitted + s.waiting; }
  }

  lemma MoveToDone(running: set<nat>, done: set<nat>, t: nat)
    requires t in running && running !! done
    ensures (running - {t}) + (done + {t}) == running + done
    ensures (running - {t}) !! (done + {t}) && |running - {t}| == |running| - 1
  {
  }

  lemma EndIsFair(l: Limits, s: State, t: nat)
    requires Fair(l, s) && t in s.running
    ensures Fair(l, Release(l, s, t))
  {
    MoveToDone(s.running, s.done, t);
    StartNextIsFair(l, s.(active := s.active - 1, running := s.running - {t}, done := s.done + {t}));
  }

  lemma StepIsFair(l: Limits, s: State, e: Event)
    requires Fair(l, s) && Step(l, s, e).Some?
    ensures Fair(l, Step(l, s, e).value)
  {
    match e
    case Arrive(t) => ArriveIsFair(l, s, t);
    case TimerFires(t) => TimerIsFair(l, s, t);
    case TaskEnds(t) => EndIsFair(l, s, t);
  }

  // Who is let in: at once exactly when a slot is free; refused exactly when
  // all slots are taken and the queue is full.
  lemma AdmittedIffSlotFree(l: Limits, s: State, t: nat)
    requires Fair(l, s)
    ensures Acquire(l, s, t).1 == Admitted <==> s.active < l.maxConcurrent
    ensures Acquire(l, s, t).1 == QueueFull <==> s.active == l.maxConcurrent && |s.waiting| == l.maxWaiting
    ensures Acquire(l, s, t).1 == QueueFull ==> Acquire(l, s, t).0 == s
  {
    assert s.waiting != [] ==> s.active == l.maxConcurrent;
  }

  // Main result: the limiter is fair in every run.
  lemma {:induction false} RunIsFair(l: Limits, s: State, events: seq<Event>)
    requires Fair(l, s)
    ensures Run(l, s, events).Some? ==> Fair(l, Run(l, s, events).value)
    decreases |events|
  {
    if events != [] && Step(l, s, events[0]).Some? {
      StepIsFair(l, s, events[0]);
      RunIsFair(l, Step(l, s, events[0]).value, events[1..]);
    }
  }

  lemma EveryRunIsFair(l: Limits, events: seq<Event>)
    ensures Run(l, Idle, events).Some? ==> Fair(l, Run(l, Idle, events).value)
  {
    RunIsFair(l, Idle, events);
  }

  // ------------------------------------------------------------------ a burst of tasks

  // indexOf and splice together: an entry that is queued is taken out, and only
  // it; for one that is not, the last one would be.
  lemma SpliceMeaning(w: seq<nat>, t: nat)
    ensures forall i :: 0 <= i < |w| && w[i] == t && (forall j :: 0 <= j < i ==> w[j] != t) ==>
      SpliceOne(w, IndexOf(w, t)) == w[..i] + w[i + 1..]
    ensures t !in w && w != [] ==> SpliceOne(w, IndexOf(w, t)) + [w[|w| - 1]] == w
    ensures w == [] ==> SpliceOne(w, IndexOf(w, t)) == []
  {
  }

  lemma PossibleSteps(l: Limits, s: State, t: nat)
    ensures Step(l, s, Arrive(t)).Some? <==> t !in s.arrivals
    ensures Step(l, s, TimerFires(t)).Some? <==> t in s.timers
    ensures Step(l, s, TaskEnds(t)).Some? <==> t in s.running
  {
  }

  function Arriving(tasks: seq<nat>): seq<Event> {
    if tasks == [] then [] else Arriving(tasks[..|tasks| - 1]) + [Arrive(tasks[|tasks| - 1])]
  }

  lemma {:induction false} RunOneMore(l: Limits, s: State, events: seq<Event>, e: Event)
    requires Run(l, s, events).Some?
    ensures Run(l, s, events + [e]) == Step(l, Run(l, s, events).value, e)
    decreases |events|
  {
    if events == [] {
      assert (events + [e])[1..] == [];
    } else {
      assert (events + [e])[1..] == events[1..] + [e];
      RunOneMore(l, Step(l, s, events[0]).value, events[1..], e);
    }
  }

  // How many of n tasks run, and how many run or wait.
  function Running(l: Limits, n: nat): nat {
    Min(n, l.maxConcurrent)
  }

  function Taken(l: Limits, n: nat): nat {
    Min(n, l.maxConcurrent + l.maxWaiting)
  }

  ghost predicate Sorted(l: Limits, s: State, tasks: seq<nat>) {
    && s.active == Running(l, |tasks|) && s.admitted == tasks[..Running(l, |tasks|)]
    && s.waiting == tasks[Running(l, |tasks|)..Taken(l, |tasks|)] && s.arrivals == tasks[..Taken(l, |tasks|)]
  }

  lemma OneMoreArrives(l: Limits, s: State, tasks: seq<nat>)
    requires tasks != [] && Distinct(tasks) && Sorted(l, s, tasks[..|tasks| - 1])
    ensures Step(l, s, Arrive(tasks[|tasks| - 1])).Some?
    ensures Sorted(l, Step(l, s, Arrive(tasks[|tasks| - 1])).value, tasks)
  {
    var n := |tasks| - 1;
    assert forall k :: 0 <= k <= n ==> tasks[..n][..k] == tasks[..k];
    assert tasks[n] !in s.arrivals;
    if n < l.maxConcurrent {
      assert tasks[..n] + [tasks[n]] == tasks;
    } else if n < l.maxConcurrent + l.maxWaiting {
      assert tasks[..n][l.maxConcurrent..n] + [tasks[n]] == tasks[l.maxConcurrent..];
      assert tasks[..n] + [tasks[n]] == tasks;
    } else {
      assert tasks[..n][l.maxConcurrent..l.maxConcurrent + l.maxWaiting] == tasks[l.maxConcurrent..l.maxConcurrent + l.maxWaiting];
    }
  }

  // Main result: of any burst of tasks at an idle limiter, the first
  // maxConcurrent run, the next maxWaiting wait in order, and the rest is refused.
  lemma {:induction false} BurstIsSorted(l: Limits, tasks: seq<nat>)
    requires Distinct(tasks)
    ensures Run(l, Idle, Arriving(tasks)).Some? && Sorted(l, Run(l, Idle, Arriving(tasks)).value, tasks)
    decreases |tasks|
  {
    if tasks != [] {
      var rest := tasks[..|tasks| - 1];
      BurstIsSorted(l, rest);
      OneMoreArrives(l, Run(l, Idle, Arriving(rest)).value, tasks);
      RunOneMore(l, Idle, Arriving(rest), Arrive(tasks[|tasks| - 1]));
    }
  }
}
