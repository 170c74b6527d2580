/** The counting semaphore that bounds parallel test execution, as a protocol of
    any number of threads over one mutex, one counter and one condition variable.

    A thread is described by where it stands in `acquire` or in the `drop` of its
    permit.  Threads may barge (lock the mutex ahead of a woken thread) and may
    wake spuriously. */
module Semaphore {
  import opened Wrappers

  type Tid = nat

  datatype Phase =
    | Outside       // neither holds nor asks for a permit
    | WantsPermit   // acquire: blocked on the mutex
    | Checking      // acquire: owns the mutex, at the loop test
    | Leaving       // acquire: owns the mutex, has taken a permit
    | Asleep        // acquire: inside the condition variable's wait
    | Woken         // acquire: wait has ended but must re-lock the mutex
    | Owning        // holds a permit
    | WantsReturn   // drop: blocked on the mutex
    | Adding        // drop: owns the mutex, counter not yet incremented
    | Notifying     // drop: owns the mutex, counter incremented
    | Closing       // drop: owns the mutex, has notified
  {
    predicate Critical() {
      Checking? || Leaving? || Adding? || Notifying? || Closing?
    }

    /** The permit taken by this thread has not been given back to the counter. */
    predicate Live() {
      Leaving? || Owning? || WantsReturn? || Adding?
    }

    /** On its way back to the loop test without sleeping. */
    predicate Retrying() {
      Woken? || Checking?
    }

    /** Steps this thread can still make before it stops, counting a wake-up it causes. */
    function Rank(): nat {
      match this
      case Outside => 0
      case WantsPermit => 3
      case Checking => 2
      case Leaving => 1
      case Asleep => 0
      case Woken => 3
      case Owning => 0
      case WantsReturn => 7
      case Adding => 6
      case Notifying => 5
      case Closing => 1
    }
  }

  datatype State = State(available: nat, owner: Option<Tid>, phase: map<Tid, Phase>)

  datatype Event =
    | Call(t: Tid)
    | Drop(t: Tid)
    | Spurious(t: Tid)
    | Lock(t: Tid)
    | Test(t: Tid)
    | Add(t: Tid)
    | Notify(t: Tid, sleeper: Option<Tid>)
    | Unlock(t: Tid)
  {
    /** Steps of code already running, as opposed to new calls, drops and spurious wake-ups. */
    predicate Internal() {
      Lock? || Test? || Add? || Notify? || Unlock?
    }
  }

  /** `new` panics on zero permits. */
  function New(permits: nat, threads: set<Tid>): Option<State> {
    if permits == 0 then None
    else Some(State(permits, None, map t | t in threads :: Outside))
  }

  function Move(s: State, t: Tid, p: Phase): State {
    s.(phase := s.phase[t := p])
  }

  /** One atomic step, or None when the event is not enabled. */
  function Step(s: State, e: Event): Option<State> {
    if e.t !in s.phase then None else
    var p := s.phase[e.t];
    match e
    case Call(t) => if p.Outside? then Some(Move(s, t, WantsPermit)) else None
    case Drop(t) => if p.Owning? then Some(Move(s, t, WantsReturn)) else None
    case Spurious(t) => if p.Asleep? then Some(Move(s, t, Woken)) else None
    case Lock(t) =>
      if s.owner.Some? then None
      else if p.WantsPermit? || p.Woken? then Some(Move(s, t, Checking).(owner := Some(t)))
      else if p.WantsReturn? then Some(Move(s, t, Adding).(owner := Some(t)))
      else None
    case Test(t) =>
      if !p.Checking? then None
      else if s.available == 0 then Some(Move(s, t, Asleep).(owner := None))
      else Some(Move(s, t, Leaving).(available := s.available - 1))
    case Add(t) => if p.Adding? then Some(Move(s, t, Notifying).(available := s.available + 1)) else None
    case Notify(t, sleeper) =>
      if !p.Notifying? then None
      else if sleeper.None? then
        if Sleepers(s) == {} then Some(Move(s, t, Closing)) else None
      else if sleeper.value in Sleepers(s) then
        Some(Move(Move(s, t, Closing), sleeper.value, Woken))
      else None
    case Unlock(t) =>
      if p.Leaving? then Some(Move(s, t, Owning).(owner := None))
      else if p.Closing? then Some(Move(s, t, Outside).(owner := None))
      else None
  }

  function Run(s: State, events: seq<Event>): Option<State>
    decreases |events|
  {
    if events == [] then Some(s)
    else match Step(s, events[0])
      case None => None
      case Some(next) => Run(next, events[1..])
  }

  function Group(phase: map<Tid, Phase>, inGroup: Phase -> bool): set<Tid> {
    set t | t in phase && inGroup(phase[t])
  }

  predicate IsAsleep(p: Phase) { p.Asleep? }
  predicate IsLive(p: Phase) { p.Live() }
  predicate IsRetrying(p: Phase) { p.Retrying() }
  predicate IsNotifying(p: Phase) { p.Notifying? }

  function Sleepers(s: State): set<Tid> { Group(s.phase, IsAsleep) }
  function Holders(s: State): set<Tid> { Group(s.phase, IsLive) }
  function Retriers(s: State): set<Tid> { Group(s.phase, IsRetrying) }
  function Notifiers(s: State): set<Tid> { Group(s.phase, IsNotifying) }
  function WokenThreads(s: State): set<Tid> { set t | t in s.phase && s.phase[t].Woken? }

  ghost predicate MutexOwned(s: State) {
    && (s.owner.Some? ==> s.owner.value in s.phase)
    && forall t :: t in s.phase ==> (s.phase[t].Critical() <==> s.owner == Some(t))
  }

  /** While a notification is pending it stands for the wake-up it is about to make. */
  ghost predicate WakeupsCover(s: State) {
    Sleepers(s) != {} ==> |Retriers(s)| + |Notifiers(s)| >= s.available
  }

  ghost predicate Inv(s: State, permits: nat) {
    && MutexOwned(s)
    && s.available + |Holders(s)| == permits
    && WakeupsCover(s)
  }

  lemma StepKeepsInv(s: State, e: Event, permits: nat)
    requires Inv(s, permits) && Step(s, e).Some?
    ensures Inv(Step(s, e).value, permits)
  {
    StepCounts(s, e);
  }

  ghost predicate Reachable(permits: nat, threads: set<Tid>, s: State) {
    exists events :: New(permits, threads).Some? && Run(New(permits, threads).value, events) == Some(s)
  }

  /** Conservation: the counter and the live permits always add up to the initial count,
      so no more than `permits` threads ever hold one. */
  lemma PermitsConserved(permits: nat, threads: set<Tid>, s: State)
    requires Reachable(permits, threads, s)
    ensures s.available + |Holders(s)| == permits
    ensures |Holders(s)| <= permits
    ensures forall t, u :: t in s.phase && u in s.phase && s.phase[t].Critical() && s.phase[u].Critical() ==> t == u
  {
    ReachableInv(permits, threads, s);
  }

  /** No lost wake-up: with the mutex free and a thread asleep, at least `available` threads
      are woken and on their way to the loop test, so a free permit never idles while the
      only candidates for it sleep. */
  lemma NoLostWakeup(permits: nat, threads: set<Tid>, s: State)
    requires Reachable(permits, threads, s)
    requires s.owner.None? && Sleepers(s) != {}
    ensures |WokenThreads(s)| >= s.available
    ensures s.available > 0 ==> exists t :: t in WokenThreads(s) && Step(s, Lock(t)).Some?
  {
    ReachableInv(permits, threads, s);
    assert Notifiers(s) == {} by {
      forall t | t in s.phase ensures !s.phase[t].Notifying? {
        assert s.phase[t].Critical() <==> s.owner == Some(t);
      }
    }
    assert Retriers(s) == WokenThreads(s) by {
      forall t | t in Retriers(s) ensures t in WokenThreads(s) {
        assert s.phase[t].Critical() <==> s.owner == Some(t);
      }
    }
    if s.available > 0 {
      assert WokenThreads(s) != {};
      var t :| t in WokenThreads(s);
      assert Step(s, Lock(t)).Some?;
    }
  }

  // ---------------------------------------------------------------- progress

  ghost function Work(phase: map<Tid, Phase>): nat {
    if phase == map[] then 0
    else
      var t :| t in phase;
      phase[t].Rank() + Work(phase - {t})
  }

  /** A run made of internal steps only is never longer than the work it starts with. */
  lemma {:induction false} InternalRunsBounded(s: State, events: seq<Event>)
    requires forall i :: 0 <= i < |events| ==> events[i].Internal()
    requires Run(s, events).Some?
    ensures |events| <= Work(s.phase)
    decreases |events|
  {
    if events != [] {
      InternalStepsTerminate(s, events[0]);
      InternalRunsBounded(Step(s, events[0]).value, events[1..]);
    }
  }

  ghost predicate Quiescent(s: State) {
    forall e: Event :: e.Internal() ==> Step(s, e).None?
  }

  /** Where it comes to rest nobody is stuck: every thread is outside, owns a permit, or
      sleeps, and a thread sleeps only while all permits are held by owning threads. */
  lemma NoDeadlock(permits: nat, threads: set<Tid>, s: State)
    requires Reachable(permits, threads, s) && Quiescent(s)
    ensures forall t :: t in s.phase ==> s.phase[t].Outside? || s.phase[t].Owning? || s.phase[t].Asleep?
    ensures Sleepers(s) != {} ==>
              s.available == 0 && |set t | t in s.phase && s.phase[t].Owning?| == permits
  {
    ReachableInv(permits, threads, s);
    forall t | t in s.phase
      ensures s.phase[t].Outside? || s.phase[t].Owning? || s.phase[t].Asleep?
    {
      NoOwnerAtRest(s);
      assert Step(s, Lock(t)).None?;
    }
    assert Retriers(s) == {} && Notifiers(s) == {};
    assert Holders(s) == set t | t in s.phase && s.phase[t].Owning?;
  }

  lemma NoOwnerAtRest(s: State)
    requires MutexOwned(s) && Quiescent(s)
    ensures s.owner.None?
  {
    if s.owner.Some? {
      var e := OwnerCanStep(s);
    }
  }

  /** Whoever owns the mutex can go on. */
  lemma OwnerCanStep(s: State) returns (e: Event)
    requires MutexOwned(s) && s.owner.Some?
    ensures e.Internal() && Step(s, e).Some?
  {
    var o := s.owner.value;
    var p := s.phase[o];
    assert p.Critical();
    if p.Checking? {
      e := Test(o);
    } else if p.Adding? {
      e := Add(o);
    } else if p.Notifying? {
      if Sleepers(s) == {} {
        e := Notify(o, None);
      } else {
        var t :| t in Sleepers(s);
        e := Notify(o, Some(t));
      }
    } else {
      e := Unlock(o);
    }
  }

  // -------------------------------------- what one step does to the counts

  function One(b: bool): nat { if b then 1 else 0 }

  lemma SwapOne<T>(a: set<T>, t: T, keep: bool)
    ensures |a - {t} + (if keep then {t} else {})| == |a| - One(t in a) + One(keep)
  {
    if t in a {
      assert a == (a - {t}) + {t};
    } else {
      assert a - {t} == a;
    }
  }

  lemma GroupMove(phase: map<Tid, Phase>, t: Tid, p: Phase, inGroup: Phase -> bool)
    requires t in phase
    ensures Group(phase[t := p], inGroup) == Group(phase, inGroup) - {t} + (if inGroup(p) then {t} else {})
    ensures |Group(phase[t := p], inGroup)| == |Group(phase, inGroup)| - One(inGroup(phase[t])) + One(inGroup(p))
  {
    var before, after := Group(phase, inGroup), Group(phase[t := p], inGroup);
    SwapOne(before, t, inGroup(p));
    forall u ensures u in after <==> u in before - {t} + (if inGroup(p) then {t} else {}) {
      MovedAt(phase, t, p, inGroup, u);
    }
  }

  lemma MovedAt(phase: map<Tid, Phase>, t: Tid, p: Phase, inGroup: Phase -> bool, u: Tid)
    requires t in phase
    ensures t in Group(phase[t := p], inGroup) <==> inGroup(p)
    ensures u != t ==> (u in Group(phase[t := p], inGroup) <==> u in Group(phase, inGroup))
  {
  }

  /** What moving one thread does to each of the counted groups. */
  lemma MoveCounts(s: State, t: Tid, p: Phase)
    requires t in s.phase
    ensures Sleepers(Move(s, t, p)) == Sleepers(s) - {t} + (if p.Asleep? then {t} else {})
    ensures |Holders(Move(s, t, p))| == |Holders(s)| - One(s.phase[t].Live()) + One(p.Live())
    ensures |Retriers(Move(s, t, p))| == |Retriers(s)| - One(s.phase[t].Retrying()) + One(p.Retrying())
    ensures |Notifiers(Move(s, t, p))| == |Notifiers(s)| - One(s.phase[t].Notifying?) + One(p.Notifying?)
  {
    GroupMove(s.phase, t, p, IsAsleep);
    GroupMove(s.phase, t, p, IsLive);
    GroupMove(s.phase, t, p, IsRetrying);
    GroupMove(s.phase, t, p, IsNotifying);
  }

  lemma StepCounts(s: State, e: Event)
    requires Step(s, e).Some?
    ensures var s' := Step(s, e).value;
            && s'.available + |Holders(s')| == s.available + |Holders(s)|
            && (WakeupsCover(s) ==> WakeupsCover(s'))
  {
    var s' := Step(s, e).value;
    var t, p := e.t, s'.phase[e.t];
    var moved := Move(s, t, p);
    MoveCounts(s, t, p);
    if e.Notify? && e.sleeper.Some? {
      MoveCounts(moved, e.sleeper.value, Woken);
    }
  }

  lemma {:induction false} RunKeepsInv(s: State, events: seq<Event>, permits: nat)
    requires Inv(s, permits) && Run(s, events).Some?
    ensures Inv(Run(s, events).value, permits)
    decreases |events|
  {
    if events != [] {
      StepKeepsInv(s, events[0], permits);
      RunKeepsInv(Step(s, events[0]).value, events[1..], permits);
    }
  }

  lemma ReachableInv(permits: nat, threads: set<Tid>, s: State)
    requires Reachable(permits, threads, s)
    ensures permits > 0 && Inv(s, permits)
  {
    var events :| New(permits, threads).Some? && Run(New(permits, threads).value, events) == Some(s);
    var init := New(permits, threads).value;
    assert Holders(init) == {} && Sleepers(init) == {};
    RunKeepsInv(init, events, permits);
  }

  lemma {:induction false} WorkWithout(phase: map<Tid, Phase>, t: Tid)
    requires t in phase
    ensures Work(phase) == phase[t].Rank() + Work(phase - {t})
    decreases |phase|
  {
    var u :| u in phase && Work(phase) == phase[u].Rank() + Work(phase - {u});
    if u != t {
      WorkWithout(phase - {u}, t);
      WorkWithout(phase - {t}, u);
      assert phase - {u} - {t} == phase - {t} - {u};
    }
  }

  lemma WorkMove(s: State, t: Tid, p: Phase)
    requires t in s.phase
    ensures Work(Move(s, t, p).phase) == Work(s.phase) - s.phase[t].Rank() + p.Rank()
  {
    var moved := Move(s, t, p).phase;
    WorkWithout(s.phase, t);
    WorkWithout(moved, t);
    assert moved - {t} == s.phase - {t};
  }

  /** Every internal step uses up work, so without new calls, drops and spurious wake-ups
      the running code comes to rest after at most `Work` steps. */
  lemma InternalStepsTerminate(s: State, e: Event)
    requires e.Internal() && Step(s, e).Some?
    ensures Work(Step(s, e).value.phase) < Work(s.phase)
  {
    var s' := Step(s, e).value;
    WorkMove(s, e.t, s'.phase[e.t]);
    if e.Notify? && e.sleeper.Some? {
      WorkMove(s, e.t, Closing);
      WorkMove(Move(s, e.t, Closing), e.sleeper.value, Woken);
    }
  }
}
