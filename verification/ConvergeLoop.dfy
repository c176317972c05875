/** The polling half of the converge controller (`src/store/appStore.ts`): one timer, one in-flight pull,
  * visibility pause, subscribe and unsubscribe.
  *
  * Each event is the code the event loop runs without interruption. Timers are taken to fire when due, so
  * time does not advance past an armed timer.
  */
module ConvergeLoop {
  import opened Optional

  const CONVERGE_POLL_INTERVAL_MS := 5_000
  const CONVERGE_POLL_CONVERGED_MS := 30_000
  const CONVERGE_SETTLE_SECONDS := 60.0

  /** The two snapshot fields the cadence looks at. */
  datatype Snapshot = Snapshot(converged: bool, lastApplyAt: Option<real>)

  /** Converged, and the last apply is over 60 s old. */
  predicate Settled(snap: Snapshot, nowSec: real) {
    snap.converged && snap.lastApplyAt.Some? && snap.lastApplyAt.value < nowSec - CONVERGE_SETTLE_SECONDS
  }

  /** `convergePollIntervalMs`: 30 s exactly for a converged snapshot whose last apply is over 60 s old. */
  function PollInterval(snap: Option<Snapshot>, nowSec: real): (ms: nat)
    ensures ms == CONVERGE_POLL_INTERVAL_MS || ms == CONVERGE_POLL_CONVERGED_MS
    ensures ms == CONVERGE_POLL_CONVERGED_MS <==> snap.Some? && Settled(snap.value, nowSec)
  {
    if snap.Some? && snap.value.converged && snap.value.lastApplyAt.Some? &&
       nowSec - snap.value.lastApplyAt.value > CONVERGE_SETTLE_SECONDS
    then CONVERGE_POLL_CONVERGED_MS
    else CONVERGE_POLL_INTERVAL_MS
  }

  datatype Loop = Loop(
    subscribed: bool,
    paused: bool,
    hidden: bool,               // document.visibilityState
    timer: Option<nat>,         // convergeTimer
    armed: map<nat, nat>,       // the event loop's own timers: id to due time
    inFlight: bool,             // convergeInFlight
    pulls: nat,                 // pulls actually awaiting an answer
    snap: Option<Snapshot>,
    handlerSet: bool,           // convergeOnVisibility is not null
    handlers: nat,              // visibilitychange listeners on the document
    now: nat,
    starts: nat,                // pulls started so far
    lastDone: nat,              // when the last pull completed
    nextTimer: nat)

  const IDLE := Loop(false, false, false, None, map[], false, 0, None, false, 0, 0, 0, 0, 0)

  datatype Channel = SidecarStatus | SnapshotRefresh

  datatype Event =
    | Subscribe
    | Unsubscribe
    | Trigger                                            // any call of refreshConvergeSnapshot
    | PullDone(result: Option<Snapshot>, wallSec: real)  // None when the pull failed
    | TimerFires(id: nat)
    | DocumentHidden(hidden: bool)                       // the browser flips visibilityState
    | VisibilityEvent                                    // and later dispatches the event
    | Advance(ms: nat)
    | ListenResolved(channel: Channel, listen: nat)
    | ListenRejected(channel: Channel, listen: nat)

  function ClearTimer(s: Loop): Loop {
    if s.timer.None? then s else s.(timer := None, armed := s.armed - {s.timer.value})
  }

  function Schedule(s: Loop, wallSec: real): Loop {
    if s.timer.Some? || !s.subscribed || s.paused then s
    else s.(timer := Some(s.nextTimer), nextTimer := s.nextTimer + 1,
            armed := s.armed[s.nextTimer := s.now + PollInterval(s.snap, wallSec)])
  }

  function Refresh(s: Loop): Loop {
    if s.inFlight then s else s.(inFlight := true, pulls := s.pulls + 1, starts := s.starts + 1)
  }

  predicate MayAdvance(s: Loop, ms: nat) {
    forall t :: t in s.armed ==> s.now + ms <= s.armed[t]
  }

  function Step(s: Loop, e: Event): Loop {
    match e
    case Subscribe =>
      if s.subscribed then s
      else Refresh(s.(subscribed := true, paused := s.hidden, handlerSet := true, handlers := s.handlers + 1))
    case Unsubscribe =>
      var c := ClearTimer(s);
      var h := if c.handlerSet && c.handlers > 0 then c.(handlerSet := false, handlers := c.handlers - 1) else c;
      h.(subscribed := false, paused := false)
    case Trigger => Refresh(s)
    case PullDone(result, wallSec) =>
      if s.pulls == 0 then s
      else Schedule(s.(snap := result, inFlight := false, pulls := s.pulls - 1, lastDone := s.now), wallSec)
    case TimerFires(t) =>
      if t !in s.armed || s.now < s.armed[t] then s
      else Refresh(s.(timer := None, armed := s.armed - {t}))
    case DocumentHidden(h) => s.(hidden := h)
    case VisibilityEvent =>
      if s.handlers == 0 || s.paused == s.hidden then s
      else
        var p := s.(paused := s.hidden);
        if s.hidden then ClearTimer(p) else Refresh(p)
    case Advance(ms) => if MayAdvance(s, ms) then s.(now := s.now + ms) else s
    case ListenResolved(_, _) => s
    case ListenRejected(_, _) => s
  }

  function Run(s: Loop, events: seq<Event>): Loop {
    if events == [] then s else Step(Run(s, events[..|events| - 1]), events[|events| - 1])
  }

  /** The variable `convergeTimer` is the event loop's only timer; the flag counts the only pull. */
  ghost predicate OneOfEach(s: Loop) {
    && (if s.timer.None? then s.armed == map[] else s.armed.Keys == {s.timer.value})
    && s.pulls == (if s.inFlight then 1 else 0)
    && s.handlers == (if s.handlerSet then 1 else 0)
    && s.handlerSet == s.subscribed
  }

  /** A timer is armed only while subscribed and visible; then, a timer is armed or a pull is in flight. */
  ghost predicate NeitherDiesNorDoubles(s: Loop) {
    && (s.timer.Some? ==> s.subscribed && !s.paused)
    && (s.subscribed && !s.paused ==> s.timer.Some? || s.inFlight)
    && (!s.subscribed ==> !s.paused)
  }

  /** An armed timer is not overdue, and due within 30 s of the last completion. */
  ghost predicate Timely(s: Loop) {
    && s.lastDone <= s.now
    && (forall t :: t in s.armed ==> s.now <= s.armed[t] <= s.lastDone + CONVERGE_POLL_CONVERGED_MS)
  }

  ghost predicate Inv(s: Loop) {
    OneOfEach(s) && NeitherDiesNorDoubles(s) && Timely(s)
  }

  lemma StepKeepsOne(s: Loop, e: Event)
    requires OneOfEach(s)
    ensures OneOfEach(Step(s, e))
  {}

  lemma StepKeepsAlive(s: Loop, e: Event)
    requires OneOfEach(s) && NeitherDiesNorDoubles(s)
    ensures NeitherDiesNorDoubles(Step(s, e))
  {}

  lemma StepKeepsTimely(s: Loop, e: Event)
    requires OneOfEach(s) && Timely(s)
    ensures Timely(Step(s, e))
  {}

  lemma StepKeepsInv(s: Loop, e: Event)
    requires Inv(s)
    ensures Inv(Step(s, e))
  {
    StepKeepsOne(s, e);
    StepKeepsAlive(s, e);
    StepKeepsTimely(s, e);
  }

  lemma {:induction false} RunKeepsInv(s: Loop, events: seq<Event>)
    requires Inv(s)
    ensures Inv(Run(s, events))
  {
    if events != [] {
      RunKeepsInv(s, events[..|events| - 1]);
      StepKeepsInv(Run(s, events[..|events| - 1]), events[|events| - 1]);
    }
  }

  /** In every reachable state there is at most one timer and one pull, and polling is alive exactly when it
    * should be. */
  lemma PollingAliveAndSingle(events: seq<Event>)
    ensures var s := Run(IDLE, events);
            && |s.armed| <= 1 && s.pulls <= 1 && s.handlers <= 1
            && (s.armed != map[] ==> s.subscribed && !s.paused)
            && (s.subscribed && !s.paused ==> s.armed != map[] || s.pulls == 1)
  {
    RunKeepsInv(IDLE, events);
    var s := Run(IDLE, events);
    if s.timer.Some? {
      assert s.timer.value in s.armed;
      assert |s.armed| == |s.armed.Keys| == 1;
    }
  }

  // ---------------------------------------------------------------------
  // Visibility
  // ---------------------------------------------------------------------

  // Read off the event list alone: whether the loop is subscribed, whether the document is hidden, and what visibility
  // the loop last heard of.

  predicate SubscribedAfter(events: seq<Event>) {
    events != [] &&
    var last := events[|events| - 1];
    last.Subscribe? || (!last.Unsubscribe? && SubscribedAfter(events[..|events| - 1]))
  }

  /** `hidden` before the events. */
  predicate HiddenAfter(hidden: bool, events: seq<Event>) {
    if events == [] then hidden
    else
      var last := events[|events| - 1];
      if last.DocumentHidden? then last.hidden else HiddenAfter(hidden, events[..|events| - 1])
  }

  /** The document was hidden when the loop subscribed or last got a visibility event since. */
  predicate HeardHidden(events: seq<Event>) {
    events != [] &&
    var front, last := events[..|events| - 1], events[|events| - 1];
    if last.Unsubscribe? then false
    else if (last.Subscribe? && !SubscribedAfter(front)) || (last.VisibilityEvent? && SubscribedAfter(front)) then
      HiddenAfter(false, front)
    else HeardHidden(front)
  }

  /** In every run the loop is paused exactly when the last it heard is that the document is hidden. */
  lemma {:induction false} PausedIsHeardHidden(events: seq<Event>)
    ensures var s := Run(IDLE, events);
            && s.subscribed == SubscribedAfter(events) && s.hidden == HiddenAfter(false, events)
            && s.paused == HeardHidden(events)
  {
    if events != [] {
      var front, e := events[..|events| - 1], events[|events| - 1];
      PausedIsHeardHidden(front);
      RunKeepsInv(IDLE, front);
      VisibilityStep(Run(IDLE, front), e);
    }
  }

  lemma VisibilityStep(s: Loop, e: Event)
    requires Inv(s)
    ensures var t := Step(s, e);
            && t.subscribed == (e.Subscribe? || (!e.Unsubscribe? && s.subscribed))
            && t.hidden == (if e.DocumentHidden? then e.hidden else s.hidden)
            && t.paused == (if e.Unsubscribe? then false
                            else if (e.Subscribe? && !s.subscribed) || (e.VisibilityEvent? && s.subscribed) then s.hidden
                            else s.paused)
  {}

  /** No call for a pull, no unsubscribe, and no visibility event while the document is visible. */
  predicate Undisturbed(hidden: bool, events: seq<Event>) {
    events != [] ==>
      var front, last := events[..|events| - 1], events[|events| - 1];
      && Undisturbed(hidden, front)
      && !last.Trigger? && !last.Unsubscribe? && (last.VisibilityEvent? ==> HiddenAfter(hidden, front))
  }

  /** A paused loop has no timer, and one that is left alone starts no pull. */
  lemma {:induction false} PausedIsQuiet(s: Loop, events: seq<Event>)
    requires Inv(s) && s.subscribed && s.paused && Undisturbed(s.hidden, events)
    ensures var t := Run(s, events);
            && t.subscribed && t.paused && t.armed == map[] && t.starts == s.starts
            && t.hidden == HiddenAfter(s.hidden, events)
  {
    if events != [] {
      var front, e := events[..|events| - 1], events[|events| - 1];
      PausedIsQuiet(s, front);
      RunKeepsInv(s, front);
      VisibilityStep(Run(s, front), e);
      RunKeepsInv(s, events);
    }
  }

  /** A hide that is delivered stops the polling: from then on no timer is armed and no pull starts, however long, until
    * someone asks for one, the loop is unsubscribed, or a show is delivered. */
  lemma HideStopsPolling(before: seq<Event>, after: seq<Event>)
    requires SubscribedAfter(before) && HiddenAfter(false, before) && Undisturbed(true, after)
    ensures var s := Step(Run(IDLE, before), VisibilityEvent);
            var t := Run(s, after);
            s.paused && s.starts == Run(IDLE, before).starts && t.paused && t.armed == map[] && t.starts == s.starts
  {
    PausedIsHeardHidden(before);
    RunKeepsInv(IDLE, before);
    var s := Run(IDLE, before);
    StepKeepsInv(s, VisibilityEvent);
    PausedIsQuiet(Step(s, VisibilityEvent), after);
  }

  /** A show that is delivered to a paused loop resumes it: a pull starts at once, unless one is in flight. */
  lemma ShowResumesPolling(before: seq<Event>)
    requires SubscribedAfter(before) && HeardHidden(before) && !HiddenAfter(false, before)
    ensures var s := Run(IDLE, before);
            var t := Step(s, VisibilityEvent);
            !t.paused && t.inFlight && t.starts == if s.inFlight then s.starts else s.starts + 1
  {
    PausedIsHeardHidden(before);
    RunKeepsInv(IDLE, before);
  }

  // ---------------------------------------------------------------------
  // Bounded response
  // ---------------------------------------------------------------------

  /** Nothing started: no pull in flight, none completed, and no timer other than the one there was. */
  ghost predicate Quiet(s: Loop, t: Loop) {
    !s.inFlight && t.starts == s.starts ==>
      !t.inFlight && t.lastDone == s.lastDone && (t.armed == s.armed || t.armed == map[])
  }

  lemma QuietStep(s: Loop, e: Event)
    requires Inv(s)
    ensures Step(s, e).starts >= s.starts && Quiet(s, Step(s, e))
  {}

  lemma {:induction false} QuietRun(s: Loop, events: seq<Event>)
    requires Inv(s)
    ensures Run(s, events).starts >= s.starts && Quiet(s, Run(s, events))
  {
    if events != [] {
      var front := events[..|events| - 1];
      QuietRun(s, front);
      RunKeepsInv(s, front);
      QuietStep(Run(s, front), events[|events| - 1]);
    }
  }

  /** From a state without a pull in flight, no later state past the due time of its timer (or any later state at all,
    * when it has none) is subscribed and visible unless a new pull has started. */
  lemma PullByDueTime(s: Loop, events: seq<Event>)
    requires Inv(s) && !s.inFlight
    ensures var t := Run(s, events);
            t.subscribed && !t.paused && (s.timer.None? || t.now > s.armed[s.timer.value]) ==> t.starts > s.starts
  {
    QuietRun(s, events);
    RunKeepsInv(s, events);
    var t := Run(s, events);
    if t.subscribed && !t.paused && t.starts == s.starts {
      assert t.timer.value in t.armed;
      assert t.armed == s.armed;
    }
  }

  /** When the pull in flight in state b completes: a timer that is still armed stays as it is, whatever the new
    * snapshot; only otherwise is one armed, with the interval the new snapshot calls for. So the loop keeps to that
    * interval exactly when no timer was armed that is due later. */
  lemma DueAfterPull(b: Loop, done: Event)
    requires Inv(b) && b.inFlight && done.PullDone?
    ensures var c := Step(b, done);
            var interval := PollInterval(done.result, done.wallSec);
            && !c.inFlight && c.lastDone == c.now == b.now && c.snap == done.result
            && (c.timer.Some? <==> c.subscribed && !c.paused)
            && (c.timer.Some? ==>
                  && c.armed[c.timer.value] == (if b.timer.Some? then b.armed[b.timer.value] else b.now + interval)
                  && c.armed[c.timer.value] <= c.now + CONVERGE_POLL_CONVERGED_MS
                  && (c.armed[c.timer.value] <= c.now + interval <==>
                        b.timer.None? || b.armed[b.timer.value] <= b.now + interval))
  {
    StepKeepsInv(b, done);
    if b.timer.Some? {
      assert b.timer.value in b.armed;
    }
  }

  /** A trigger starts a pull at once, or is dropped because one is in flight; once that one completes, a new
    * pull starts within 30 s for as long as the loop is subscribed and visible; and within the interval its snapshot
    * calls for, if no older timer was still armed. */
  lemma TriggerAnswered(before: seq<Event>, middle: seq<Event>, done: Event, after: seq<Event>)
    requires done.PullDone?
    requires Run(Step(Run(IDLE, before), Trigger), middle).inFlight
    ensures var s := Run(IDLE, before);
            var a := Step(s, Trigger);
            var b := Run(a, middle);
            var c := Step(b, done);
            var d := Run(c, after);
            && (if s.inFlight then a == s else a.inFlight && a.starts == s.starts + 1)
            && !c.inFlight && c.lastDone == c.now
            && (d.subscribed && !d.paused ==>
                  && (d.now > c.now + CONVERGE_POLL_CONVERGED_MS ==> d.starts > c.starts)
                  && (b.timer.None? && d.now > c.now + PollInterval(done.result, done.wallSec) ==> d.starts > c.starts))
  {
    var s := Run(IDLE, before);
    RunKeepsInv(IDLE, before);
    StepKeepsInv(s, Trigger);
    RunKeepsInv(Step(s, Trigger), middle);
    var b := Run(Step(s, Trigger), middle);
    DueAfterPull(b, done);
    StepKeepsInv(b, done);
    PullByDueTime(Step(b, done), after);
  }

  lemma RunAppend(s: Loop, x: seq<Event>, e: Event)
    ensures Run(s, x + [e]) == Step(Run(s, x), e)
  {
    assert (x + [e])[..|x|] == x;
  }

  /** The older timer matters: a trigger during a settled 30 s wait pulls a snapshot that calls for 5 s, and the loop
    * still waits out the 30 s. */
  lemma StaleCadence(settled: Snapshot, nowSec: real)
    requires Settled(settled, nowSec)
    ensures var s := Run(IDLE, [Subscribe] + [PullDone(Some(settled), nowSec)] + [Trigger] + [PullDone(None, nowSec)]);
            && s.subscribed && !s.paused && !s.inFlight && s.timer.Some? && s.timer.value in s.armed
            && PollInterval(s.snap, nowSec) == CONVERGE_POLL_INTERVAL_MS
            && s.armed[s.timer.value] == s.now + CONVERGE_POLL_CONVERGED_MS
  {
    var first := PullDone(Some(settled), nowSec);
    RunAppend(IDLE, [], Subscribe);
    assert [] + [Subscribe] == [Subscribe];
    RunAppend(IDLE, [Subscribe], first);
    RunAppend(IDLE, [Subscribe] + [first], Trigger);
    RunAppend(IDLE, [Subscribe] + [first] + [Trigger], PullDone(None, nowSec));
  }

  /** The idealised timers never block the clock: it can advance, or the one armed timer is due and firing it
    * lets it advance. So the 30 s bound is about runs that exist. */
  lemma ClockNeverStuck(s: Loop)
    requires Inv(s)
    ensures MayAdvance(s, 1) || (s.timer.Some? && MayAdvance(Step(s, TimerFires(s.timer.value)), 1))
  {
    if s.timer.Some? {
      assert s.timer.value in s.armed;
    }
  }
}
