/** The lightweight-mode controller (`src-tauri/src/lightweight.rs`): compare-and-swap transitions on one
  * state cell, with any number of sleeping timer threads.
  *
  * Each step below is one atomic action of one thread. A timer thread is not stopped by a cancel: it wakes
  * later, tries its own compare-and-swap, and runs its callback whatever the result.
  */
module Lightweight {
  datatype Mode = Normal | Entering | InLightweight

  /** Timers are numbered by the entry that started them. */
  datatype State = State(
    mode: Mode,
    pending: nat,        // the latest entry
    spawning: set<nat>,  // entered, thread not spawned yet
    sleeping: set<nat>,  // thread in its delay
    firing: set<nat>,    // compare-and-swap done, callback not run yet
    ran: set<nat>,       // callback has run
    cancelled: set<nat>, // their entry was cancelled
    enters: nat,         // successful try_enter_lightweight calls
    cancels: nat,        // successful try_cancel_lightweight calls
    promoted: nat,       // wake-ups whose compare-and-swap succeeded
    misfires: nat,       // wake-ups whose compare-and-swap failed
    stale: nat,          // promotions by a timer other than the pending entry's own
    exits: nat)          // successful try_exit_lightweight calls

  const INITIAL := State(Normal, 0, {}, {}, {}, {}, {}, 0, 0, 0, 0, 0, 0)

  datatype Event = Enter | Spawn(timer: nat) | Cancel | Wake(timer: nat) | Callback(timer: nat) | Exit

  /** One atomic action. An event that is not enabled (a failed call, an unknown timer) changes nothing. */
  function Step(s: State, e: Event): State {
    match e
    case Enter =>
      if s.mode != Normal then s
      else s.(mode := Entering, pending := s.enters, spawning := s.spawning + {s.enters}, enters := s.enters + 1)
    case Spawn(t) =>
      if t !in s.spawning then s
      else s.(spawning := s.spawning - {t}, sleeping := s.sleeping + {t})
    case Cancel =>
      if s.mode != Entering then s
      else s.(mode := Normal, cancels := s.cancels + 1, cancelled := s.cancelled + {s.pending})
    case Wake(t) =>
      if t !in s.sleeping then s
      else
        var woken := s.(sleeping := s.sleeping - {t}, firing := s.firing + {t});
        if s.mode == Entering then
          woken.(mode := InLightweight, promoted := s.promoted + 1,
                 stale := if t == s.pending then s.stale else s.stale + 1)
        else
          woken.(misfires := s.misfires + 1)
    case Callback(t) =>
      if t !in s.firing then s
      else s.(firing := s.firing - {t}, ran := s.ran + {t})
    case Exit =>
      if s.mode != InLightweight then s
      else s.(mode := Normal, exits := s.exits + 1)
  }

  function Run(s: State, events: seq<Event>): State {
    if events == [] then s else Step(Run(s, events[..|events| - 1]), events[|events| - 1])
  }

  function Indicator(b: bool): nat { if b then 1 else 0 }

  /** The conserved quantities. */
  ghost predicate Counts(s: State) {
    && s.enters == s.cancels + s.promoted + Indicator(s.mode == Entering)
    && s.promoted == s.exits + Indicator(s.mode == InLightweight)
    && s.enters == |s.spawning| + |s.sleeping| + s.promoted + s.misfires
    && s.promoted + s.misfires == |s.ran| + |s.firing|
    && |s.cancelled| == s.cancels
  }

  /** Where the timers are: one for each entry, in exactly one phase of its life. */
  ghost predicate Threads(s: State) {
    && (forall t :: t in s.spawning ==> t < s.enters && t !in s.sleeping && t !in s.firing && t !in s.ran)
    && (forall t :: t in s.sleeping ==> t < s.enters && t !in s.firing && t !in s.ran)
    && (forall t :: t in s.firing ==> t < s.enters && t !in s.ran)
    && (forall t :: t in s.ran ==> t < s.enters)
    && (forall t: nat :: t < s.enters ==> t in s.spawning || t in s.sleeping || t in s.firing || t in s.ran)
  }

  /** The pending entry is the latest, is not cancelled, and its own timer has not woken. */
  ghost predicate Pending(s: State) {
    && (forall t :: t in s.cancelled ==> t < s.enters)
    && (s.mode == Entering ==>
          s.pending + 1 == s.enters && s.pending !in s.cancelled && (s.pending in s.spawning || s.pending in s.sleeping))
  }

  ghost predicate Inv(s: State) {
    Counts(s) && Threads(s) && Pending(s)
  }

  lemma StepKeepsThreads(s: State, e: Event)
    requires Threads(s) && Pending(s)
    ensures Threads(Step(s, e)) && Pending(Step(s, e))
  {}

  lemma AddRemove(x: set<nat>, t: nat)
    ensures t !in x ==> |x + {t}| == |x| + 1
    ensures t in x ==> |x - {t}| == |x| - 1
  {}

  lemma StepKeepsCounts(s: State, e: Event)
    requires Inv(s)
    ensures Counts(Step(s, e))
  {
    match e
    case Enter => AddRemove(s.spawning, s.enters);
    case Spawn(t) => AddRemove(s.spawning, t); AddRemove(s.sleeping, t);
    case Cancel => AddRemove(s.cancelled, s.pending);
    case Wake(t) => AddRemove(s.sleeping, t); AddRemove(s.firing, t);
    case Callback(t) => AddRemove(s.firing, t); AddRemove(s.ran, t);
    case Exit =>
  }

  lemma StepKeepsInv(s: State, e: Event)
    requires Inv(s)
    ensures Inv(Step(s, e))
  {
    StepKeepsThreads(s, e);
    StepKeepsCounts(s, e);
  }

  lemma {:induction false} RunKeepsInv(events: seq<Event>)
    ensures Inv(Run(INITIAL, events))
  {
    if events != [] {
      RunKeepsInv(events[..|events| - 1]);
      StepKeepsInv(Run(INITIAL, events[..|events| - 1]), events[|events| - 1]);
    }
  }

  // ---------------------------------------------------------------------
  // Accounting
  // ---------------------------------------------------------------------

  /** The timers that have not woken. */
  function Asleep(s: State): set<nat> { s.spawning + s.sleeping }

  /** What every cancel leaves behind: a timer still asleep, or one wake-up for nothing. */
  lemma LeftBehind(s: State)
    requires Inv(s)
    ensures |Asleep(s)| == |s.spawning| + |s.sleeping|
    ensures s.misfires + |Asleep(s)| == s.cancels + Indicator(s.mode == Entering)
    ensures s.misfires <= s.cancels
  {
    if s.mode == Entering {
      AddRemove(Asleep(s), s.pending);
    }
  }

  /** The exact accounting, in every interleaving. */
  lemma Accounting(events: seq<Event>)
    ensures var s := Run(INITIAL, events);
            && s.enters == s.cancels + s.promoted + Indicator(s.mode == Entering)
            && s.promoted == s.exits + Indicator(s.mode == InLightweight)
            && s.misfires + |Asleep(s)| == s.cancels + Indicator(s.mode == Entering)
            && s.misfires <= s.cancels
            && (s.cancels == 0 ==> s.misfires == 0 && s.stale == 0)
  {
    RunKeepsInv(events);
    LeftBehind(Run(INITIAL, events));
    NeverStaleUncancelled(events);
  }

  // ---------------------------------------------------------------------
  // Whose timer completes an entry
  // ---------------------------------------------------------------------

  lemma OnlyOne(x: set<nat>, a: nat)
    requires a in x
    ensures |x| == 1 <==> forall t :: t in x ==> t == a
  {
    if forall t :: t in x ==> t == a {
      assert x == {a};
    }
    if |x| == 1 {
      AddRemove(x, a);
      assert x - {a} == {};
    }
  }

  /** Timer t is let run to the end of its delay. */
  function LetWake(s: State, t: nat): State { Step(Step(s, Spawn(t)), Wake(t)) }

  lemma WakeIsStale(s: State, t: nat)
    requires s.mode == Entering
    ensures LetWake(s, t).stale == if t in Asleep(s) && t != s.pending then s.stale + 1 else s.stale
  {}

  /** A pending entry can be completed by no timer but its own exactly when every timer a cancel left behind has
    * woken: as many wake-ups have failed as entries were cancelled. Otherwise some timer of an earlier entry, if it
    * wakes first, completes this one. */
  lemma OwnTimerExactly(events: seq<Event>)
    requires Run(INITIAL, events).mode == Entering
    ensures var s := Run(INITIAL, events);
            && (s.misfires == s.cancels <==> forall t :: t in Asleep(s) ==> t == s.pending)
            && (s.misfires == s.cancels <==> forall t: nat :: LetWake(s, t).stale == s.stale)
  {
    RunKeepsInv(events);
    var s := Run(INITIAL, events);
    LeftBehind(s);
    OnlyOne(Asleep(s), s.pending);
    forall t: nat ensures LetWake(s, t).stale == if t in Asleep(s) && t != s.pending then s.stale + 1 else s.stale {
      WakeIsStale(s, t);
    }
    if t :| t in Asleep(s) && t != s.pending {
      assert LetWake(s, t).stale != s.stale;
    }
  }

  /** Over a whole run: the step that makes an entry complete by another's timer starts from such a state, so runs in
    * which each entry starts with all left-behind timers woken (in particular runs without cancels) have none. */
  lemma StaleNeedsSleeper(s: State, e: Event)
    requires Inv(s)
    ensures Step(s, e).stale >= s.stale
    ensures Step(s, e).stale > s.stale ==> s.mode == Entering && s.misfires < s.cancels
  {
    if e.Wake? && s.mode == Entering && e.timer in s.sleeping && e.timer != s.pending {
      LeftBehind(s);
      OnlyOne(Asleep(s), s.pending);
    }
  }

  lemma {:induction false} NeverStaleUncancelled(events: seq<Event>)
    ensures Run(INITIAL, events).cancels == 0 ==> Run(INITIAL, events).stale == 0
  {
    if events != [] {
      NeverStaleUncancelled(events[..|events| - 1]);
      RunKeepsInv(events[..|events| - 1]);
      StaleNeedsSleeper(Run(INITIAL, events[..|events| - 1]), events[|events| - 1]);
    }
  }

  /** Every entry of the run started with no timer asleep. */
  predicate EntersRested(events: seq<Event>) {
    events != [] ==>
      var front := events[..|events| - 1];
      && EntersRested(front)
      && (events[|events| - 1] == Enter && Run(INITIAL, front).mode == Normal ==> Asleep(Run(INITIAL, front)) == {})
  }

  lemma {:induction false} RestedEntriesComplete(events: seq<Event>)
    requires EntersRested(events)
    ensures var s := Run(INITIAL, events); s.stale == 0 && (s.mode == Entering ==> s.misfires == s.cancels)
  {
    if events != [] {
      var front, e := events[..|events| - 1], events[|events| - 1];
      RestedEntriesComplete(front);
      RunKeepsInv(front);
      RunKeepsInv(events);
      var s := Run(INITIAL, front);
      StaleNeedsSleeper(s, e);
      LeftBehind(s);
      LeftBehind(Step(s, e));
    }
  }

  // ---------------------------------------------------------------------
  // Cancelled callbacks
  // ---------------------------------------------------------------------

  /** Timers whose callback is still to come. */
  function Unfinished(s: State): set<nat> { s.spawning + s.sleeping + s.firing }

  /** In every run, the cancelled timers whose callback has run are all of them but the unfinished ones. So "a cancelled
    * timer's callback does not run" holds of a run so far exactly when every cancelled timer is unfinished. */
  lemma CancelledCallbacks(events: seq<Event>)
    ensures var s := Run(INITIAL, events);
            && s.ran * s.cancelled == s.cancelled - Unfinished(s)
            && (s.ran * s.cancelled == {} <==> s.cancelled <= Unfinished(s))
  {
    RunKeepsInv(events);
    var s := Run(INITIAL, events);
    forall t ensures t in s.cancelled ==> (t in s.ran <==> t !in Unfinished(s)) { RanOrUnfinished(s, t); }
    SetsApart(s.ran, s.cancelled, Unfinished(s));
  }

  lemma RanOrUnfinished(s: State, t: nat)
    requires Inv(s)
    ensures t in s.cancelled ==> (t in s.ran <==> t !in Unfinished(s))
  {}

  lemma SetsApart(ran: set<nat>, cancelled: set<nat>, unfinished: set<nat>)
    requires forall t :: t in cancelled ==> (t in ran <==> t !in unfinished)
    ensures ran * cancelled == cancelled - unfinished
    ensures ran * cancelled == {} <==> cancelled <= unfinished
  {
    assert ran * cancelled == cancelled - unfinished;
    if t :| t in cancelled && t !in unfinished {
      assert t in ran * cancelled;
    }
  }

  /** Once every timer is done, each entry has run its callback exactly once, cancelled or not; and the comment holds
    * exactly when nothing was cancelled. */
  lemma DrainedAccounting(events: seq<Event>)
    requires Unfinished(Run(INITIAL, events)) == {}
    ensures var s := Run(INITIAL, events);
            && s.mode != Entering
            && s.cancelled <= s.ran && (forall t: nat :: t in s.ran <==> t < s.enters)
            && |s.ran| == s.enters && s.misfires == s.cancels
            && (s.ran * s.cancelled == {} <==> s.cancels == 0)
            && (|s.ran| == s.promoted <==> s.cancels == 0)
  {
    RunKeepsInv(events);
    CancelledCallbacks(events);
    var s := Run(INITIAL, events);
    LeftBehind(s);
    assert s.ran * s.cancelled == s.cancelled;
  }

  lemma RunAppend(s: State, x: seq<Event>, e: Event)
    ensures Run(s, x + [e]) == Step(Run(s, x), e)
  {
    assert (x + [e])[..|x|] == x;
  }

  /** Entry 0 is started and cancelled while its timer sleeps on. */
  lemma FirstCancel() returns (x: seq<Event>)
    ensures x == [Enter] + [Spawn(0)] + [Cancel]
    ensures Run(INITIAL, x) == INITIAL.(sleeping := {0}, cancelled := {0}, enters := 1, cancels := 1)
  {
    x := [Enter] + [Spawn(0)] + [Cancel];
    RunAppend(INITIAL, [], Enter);
    RunAppend(INITIAL, [Enter], Spawn(0));
    RunAppend(INITIAL, [Enter] + [Spawn(0)], Cancel);
    assert [] + [Enter] == [Enter];
    assert Run(INITIAL, [Enter]) == INITIAL.(mode := Entering, spawning := {0}, enters := 1);
    assert Run(INITIAL, [Enter] + [Spawn(0)]) == INITIAL.(mode := Entering, sleeping := {0}, enters := 1);
  }

  /** A run in which a cancelled timer's callback runs all the same. */
  lemma CancelledCallbackRuns()
    ensures var s := Run(INITIAL, [Enter] + [Spawn(0)] + [Cancel] + [Wake(0)] + [Callback(0)]);
            s.mode == Normal && s.promoted == 0 && 0 in s.cancelled && 0 in s.ran
  {
    var x := FirstCancel();
    RunAppend(INITIAL, x, Wake(0));
    RunAppend(INITIAL, x + [Wake(0)], Callback(0));
  }

  /** One early cancel, then n ordinary close/reopen cycles in which each entry is completed by the timer of
    * the entry before it. */
  function ShiftedRun(n: nat): seq<Event> {
    if n == 0 then [Enter] + [Spawn(0)] + [Cancel] + [Enter] + [Spawn(1)]
    else ShiftedRun(n - 1) + [Wake(n - 1)] + [Exit] + [Enter] + [Spawn(n + 1)]
  }

  /** Mid-run, entry n is pending, and its own timer sleeps beside the timer of entry n - 1. */
  ghost predicate ShiftedState(s: State, n: nat) {
    && n > 0 && s.mode == Entering && s.pending == n && s.enters == n + 1 && s.spawning == {} && s.sleeping == {n - 1, n}
    && s.cancels == 1 && s.misfires == 0 && s.stale == n - 1
  }

  /** One such cycle, step by step. */
  lemma ShiftedCycle(s: State, n: nat)
    requires ShiftedState(s, n)
    ensures ShiftedState(Step(Step(Step(Step(s, Wake(n - 1)), Exit), Enter), Spawn(n + 1)), n + 1)
  {
    var a := Step(s, Wake(n - 1));
    assert a.mode == InLightweight && a.sleeping == {n} && a.spawning == {} && a.stale == n;
    var b := Step(Step(a, Exit), Enter);
    assert b.mode == Entering && b.spawning == {n + 1} && b.sleeping == {n} && b.enters == n + 2;
  }

  lemma RunCycle(x: seq<Event>, a: Event, b: Event, c: Event, d: Event)
    ensures Run(INITIAL, x + [a] + [b] + [c] + [d]) == Step(Step(Step(Step(Run(INITIAL, x), a), b), c), d)
  {
    RunAppend(INITIAL, x, a);
    RunAppend(INITIAL, x + [a], b);
    RunAppend(INITIAL, x + [a] + [b], c);
    RunAppend(INITIAL, x + [a] + [b] + [c], d);
  }

  lemma FirstReentry()
    ensures ShiftedState(Run(INITIAL, ShiftedRun(0)), 1)
  {
    var x := FirstCancel();
    RunAppend(INITIAL, x, Enter);
    RunAppend(INITIAL, x + [Enter], Spawn(1));
    assert Run(INITIAL, x + [Enter]) ==
           INITIAL.(mode := Entering, pending := 1, spawning := {1}, sleeping := {0}, cancelled := {0}, enters := 2, cancels := 1);
  }

  /** There are runs in which a single cancel makes every later entry complete early: the number of promotions by a
    * stale timer has no bound in the number of cancels. */
  lemma {:induction false} OneCancelShiftsForever(n: nat)
    ensures var s := Run(INITIAL, ShiftedRun(n)); ShiftedState(s, n + 1) && s.cancels == 1 && s.stale == n
  {
    if n == 0 {
      FirstReentry();
    } else {
      OneCancelShiftsForever(n - 1);
      var x := ShiftedRun(n - 1);
      RunCycle(x, Wake(n - 1), Exit, Enter, Spawn(n + 1));
      ShiftedCycle(Run(INITIAL, x), n);
      assert ShiftedRun(n) == x + [Wake(n - 1)] + [Exit] + [Enter] + [Spawn(n + 1)];
    }
  }

  /** The controller itself: the state cell the source changes by compare-and-swap, with the threads and
    * counters of `State` beside it. */
  class LightweightController {
    var mode: Mode
    ghost var world: State

    ghost predicate Valid()
      reads this
    {
      world.mode == mode && Inv(world)
    }

    constructor ()
      ensures Valid() && world == INITIAL
    {
      mode := Normal;
      world := INITIAL;
    }

    method CompareExchange(expected: Mode, target: Mode) returns (ok: bool)
      modifies this`mode
      ensures ok <==> old(mode) == expected
      ensures mode == if ok then target else old(mode)
    {
      ok := mode == expected;
      if ok {
        mode := target;
      }
    }

    method TryEnter() returns (ok: bool)
      requires Valid()
      modifies this
      ensures Valid() && world == Step(old(world), Enter)
      ensures ok <==> old(mode) == Normal
      ensures mode == if ok then Entering else old(mode)
    {
      StepKeepsInv(world, Enter);
      ok := CompareExchange(Normal, Entering);
      world := Step(world, Enter);
    }

    /** The second half of `try_enter_lightweight`: the timer thread of entry t starts its delay. */
    ghost method SpawnTimer(t: nat)
      requires Valid() && t in world.spawning
      modifies this`world
      ensures Valid() && world == Step(old(world), Spawn(t))
    {
      StepKeepsInv(world, Spawn(t));
      world := Step(world, Spawn(t));
    }

    method TryCancel() returns (ok: bool)
      requires Valid()
      modifies this
      ensures Valid() && world == Step(old(world), Cancel)
      ensures ok <==> old(mode) == Entering
      ensures mode == if ok then Normal else old(mode)
    {
      StepKeepsInv(world, Cancel);
      ok := CompareExchange(Entering, Normal);
      world := Step(world, Cancel);
    }

    /** The timer thread after its sleep: the result of the compare-and-swap is dropped. */
    method TimerWakes(ghost t: nat)
      requires Valid() && t in world.sleeping
      modifies this
      ensures Valid() && world == Step(old(world), Wake(t))
      ensures mode == if old(mode) == Entering then InLightweight else old(mode)
    {
      StepKeepsInv(world, Wake(t));
      var _ := CompareExchange(Entering, InLightweight);
      world := Step(world, Wake(t));
    }

    /** And its callback, run whatever that result was. */
    ghost method RunCallback(t: nat)
      requires Valid() && t in world.firing
      modifies this`world
      ensures Valid() && world == Step(old(world), Callback(t))
    {
      StepKeepsInv(world, Callback(t));
      world := Step(world, Callback(t));
    }

    method TryExit() returns (ok: bool)
      requires Valid()
      modifies this
      ensures Valid() && world == Step(old(world), Exit)
      ensures ok <==> old(mode) == InLightweight
      ensures mode == if ok then Normal else old(mode)
    {
      StepKeepsInv(world, Exit);
      ok := CompareExchange(InLightweight, Normal);
      world := Step(world, Exit);
    }
  }
}
