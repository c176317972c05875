/** The event-listener half of the converge controller (`src/store/appStore.ts`): two `listen()` calls per
  * subscription, whose promises settle late and in any order. */
module ConvergeListeners {
  import opened Optional
  import opened ConvergeLoop

  /** One channel. Listens are numbered by call; a listen carries the generation that made it. */
  datatype Ear = Ear(
    slot: Option<nat>,         // the channel's unlisten variable
    pending: map<nat, nat>,    // promises not settled: number to generation
    active: map<nat, nat>,     // resolved listeners not yet unlistened: number to generation
    rejected: bool,            // the current generation's listen() failed
    next: nat)

  const DEAF := Ear(None, map[], map[], false, 0)

  function StartListen(s: Ear, gen: nat): Ear {
    s.(pending := s.pending[s.next := gen], next := s.next + 1, rejected := false)
  }

  function StopListen(s: Ear): Ear {
    if s.slot.None? then s.(rejected := false)
    else s.(slot := None, active := s.active - {s.slot.value}, rejected := false)
  }

  /** The `.then` of a listen: keep the unlisten function, or call it at once when the generation moved on. */
  function Resolve(s: Ear, gen: nat, id: nat): Ear {
    if id !in s.pending then s
    else if s.pending[id] == gen then
      s.(pending := s.pending - {id}, slot := Some(id), active := s.active[id := gen])
    else s.(pending := s.pending - {id})
  }

  function Reject(s: Ear, gen: nat, id: nat): Ear {
    if id !in s.pending then s
    else s.(pending := s.pending - {id}, rejected := s.rejected || s.pending[id] == gen)
  }

  datatype Controller = Controller(loop: Loop, generation: nat, sidecar: Ear, refresh: Ear)

  const FRESH := Controller(IDLE, 0, DEAF, DEAF)

  /** The generation rises on every subscription and every unsubscribe. */
  function NextGeneration(gen: nat, subscribed: bool, e: Event): nat {
    if (e.Subscribe? && !subscribed) || e.Unsubscribe? then gen + 1 else gen
  }

  function NextEar(s: Ear, channel: Channel, gen: nat, subscribed: bool, e: Event): Ear {
    match e
    case Subscribe => if subscribed then s else StartListen(s, gen + 1)
    case Unsubscribe => StopListen(s)
    case ListenResolved(c, id) => if c == channel then Resolve(s, gen, id) else s
    case ListenRejected(c, id) => if c == channel then Reject(s, gen, id) else s
    case _ => s
  }

  function Next(s: Controller, e: Event): Controller {
    Controller(
      Step(s.loop, e),
      NextGeneration(s.generation, s.loop.subscribed, e),
      NextEar(s.sidecar, SidecarStatus, s.generation, s.loop.subscribed, e),
      NextEar(s.refresh, SnapshotRefresh, s.generation, s.loop.subscribed, e))
  }

  function RunAll(s: Controller, events: seq<Event>): Controller {
    if events == [] then s else Next(RunAll(s, events[..|events| - 1]), events[|events| - 1])
  }

  // ---------------------------------------------------------------------
  // Invariant
  // ---------------------------------------------------------------------

  /** The promise of the current generation has not settled yet. */
  predicate Awaiting(s: Ear, gen: nat) {
    s.next > 0 && s.next - 1 in s.pending && s.pending[s.next - 1] == gen
  }

  /** The live listener is the one in the slot, of the current generation; and the current generation's listen
    * is in exactly one place while subscribed, in none otherwise. */
  ghost predicate EarInv(s: Ear, gen: nat, subscribed: bool) {
    && s.active == (if s.slot.None? then map[] else map[s.slot.value := gen])
    && (s.slot.Some? ==> s.slot.value < s.next && s.slot.value !in s.pending)
    && (forall id :: id in s.pending ==> id < s.next && s.pending[id] <= gen)
    && (forall id :: id in s.pending && s.pending[id] == gen ==> id == s.next - 1)
    && (if subscribed then
          1 == (if Awaiting(s, gen) then 1 else 0) + (if s.slot.Some? then 1 else 0) + (if s.rejected then 1 else 0)
        else !Awaiting(s, gen) && s.slot.None?)
  }

  lemma NextEarKeeps(s: Ear, channel: Channel, gen: nat, subscribed: bool, e: Event)
    requires EarInv(s, gen, subscribed)
    ensures EarInv(NextEar(s, channel, gen, subscribed, e), NextGeneration(gen, subscribed, e),
                   if e.Subscribe? then true else if e.Unsubscribe? then false else subscribed)
  {}

  ghost predicate EarsInv(s: Controller) {
    EarInv(s.sidecar, s.generation, s.loop.subscribed) && EarInv(s.refresh, s.generation, s.loop.subscribed)
  }

  lemma StepSubscribed(s: Loop, e: Event)
    ensures Step(s, e).subscribed == if e.Subscribe? then true else if e.Unsubscribe? then false else s.subscribed
  {}

  ghost predicate ControllerInv(s: Controller) { Inv(s.loop) && EarsInv(s) }

  lemma NextKeepsInv(s: Controller, e: Event)
    requires ControllerInv(s)
    ensures ControllerInv(Next(s, e))
  {
    StepKeepsInv(s.loop, e);
    NextEarKeeps(s.sidecar, SidecarStatus, s.generation, s.loop.subscribed, e);
    NextEarKeeps(s.refresh, SnapshotRefresh, s.generation, s.loop.subscribed, e);
    StepSubscribed(s.loop, e);
  }

  lemma {:induction false} RunAllKeepsInv(events: seq<Event>)
    ensures ControllerInv(RunAll(FRESH, events))
  {
    if events != [] {
      RunAllKeepsInv(events[..|events| - 1]);
      NextKeepsInv(RunAll(FRESH, events[..|events| - 1]), events[|events| - 1]);
    }
  }

  /** What a channel's listeners must look like. */
  ghost predicate Accounted(s: Ear, gen: nat, subscribed: bool) {
    && |s.active| <= 1
    && (forall id :: id in s.active ==> s.active[id] == gen && s.slot == Some(id))
    && (!subscribed ==> s.active == map[])
    && (subscribed && !Awaiting(s, gen) && !s.rejected ==> |s.active| == 1)
  }

  /** For any order of subscribe, unsubscribe and late settlements, on both channels: at most one live listener,
    * of the current generation and reachable through its slot; none at all while unsubscribed, so that none is
    * registered anywhere once pending promises have settled; and while subscribed exactly one, unless the
    * current listen is still pending or was rejected. */
  lemma ListenerAccounting(events: seq<Event>)
    ensures var s := RunAll(FRESH, events);
            && Accounted(s.sidecar, s.generation, s.loop.subscribed)
            && Accounted(s.refresh, s.generation, s.loop.subscribed)
  {
    RunAllKeepsInv(events);
  }

  /** What unsubscribing leaves. */
  lemma AfterUnsubscribe(s: Controller)
    requires ControllerInv(s)
    ensures var t := Next(s, Unsubscribe);
            && t.generation == s.generation + 1 && t.sidecar.slot == None && t.refresh.slot == None
            && !t.loop.subscribed && !t.loop.paused && t.loop.timer == None && !t.loop.handlerSet
            && t.loop.inFlight == s.loop.inFlight && t.loop.snap == s.loop.snap
  {}

  function EarOf(s: Controller, channel: Channel): Ear { if channel == SidecarStatus then s.sidecar else s.refresh }

  /** Each first subscribe really calls `listen()` on both channels: one more promise, of the new generation. */
  lemma SubscribeListens(s: Controller, channel: Channel)
    requires ControllerInv(s) && !s.loop.subscribed
    ensures var a, t := EarOf(s, channel), EarOf(Next(s, Subscribe), channel);
            t.pending == a.pending[a.next := s.generation + 1] && a.next !in a.pending && t.next == a.next + 1 &&
            t.active == a.active && !t.rejected
  {}

  /** Promises settle and listeners appear only by the events that say so. */
  lemma ListensSettleByEvent(s: Controller, channel: Channel, e: Event)
    requires ControllerInv(s)
    ensures var a, t := EarOf(s, channel), EarOf(Next(s, e), channel);
            && (t.rejected && !a.rejected ==> e.ListenRejected? && e.channel == channel)
            && (forall id :: id in a.pending && id !in t.pending ==>
                  (e.ListenResolved? || e.ListenRejected?) && e.channel == channel && e.listen == id)
            && (forall id :: id in t.active && id !in a.active ==>
                  e.ListenResolved? && e.channel == channel && e.listen == id && a.pending[id] == s.generation)
  {}

  /** A promise of the current generation that resolves becomes the live listener. */
  lemma CurrentListenIsKept(s: Controller, channel: Channel, id: nat)
    requires ControllerInv(s) && id in EarOf(s, channel).pending
    ensures var t := EarOf(Next(s, ListenResolved(channel, id)), channel);
            && id !in t.pending
            && (EarOf(s, channel).pending[id] == s.generation ==> t.active == map[id := s.generation] && t.slot == Some(id))
            && (EarOf(s, channel).pending[id] != s.generation ==> t.active == EarOf(s, channel).active)
  {}

  // ---------------------------------------------------------------------
  // The controller
  // ---------------------------------------------------------------------

  /** The module variables and store fields of the source, changed in place by its handlers. `world` takes the
    * same step on the controller together with the event loop, the document and the event channels. */
  class ConvergeController {
    var subscribed: bool
    var paused: bool
    var timer: Option<nat>
    var inFlight: bool
    var snap: Option<Snapshot>
    var generation: nat
    var unlistenSidecar: Option<nat>
    var unlistenRefresh: Option<nat>
    var handlerSet: bool
    ghost var world: Controller

    ghost predicate Valid()
      reads this
    {
      && ControllerInv(world)
      && subscribed == world.loop.subscribed && paused == world.loop.paused
      && timer == world.loop.timer && inFlight == world.loop.inFlight
      && snap == world.loop.snap && handlerSet == world.loop.handlerSet
      && generation == world.generation
      && unlistenSidecar == world.sidecar.slot && unlistenRefresh == world.refresh.slot
    }

    constructor ()
      ensures Valid() && world == FRESH
    {
      subscribed, paused, timer, inFlight, snap := false, false, None, false, None;
      generation, unlistenSidecar, unlistenRefresh, handlerSet := 0, None, None, false;
      world := FRESH;
    }

    ghost method Record(e: Event)
      requires ControllerInv(world)
      modifies this`world
      ensures ControllerInv(world) && world == Next(old(world), e)
    {
      NextKeepsInv(world, e);
      world := Next(world, e);
    }

    /** `convergeRefresh` up to its await. */
    method BeginRefresh() returns (started: bool)
      modifies this`inFlight
      ensures started <==> !old(inFlight)
      ensures inFlight
    {
      started := !inFlight;
      inFlight := true;
    }

    /** `convergeSchedule`; `handle` is the id the next setTimeout call will return. */
    method ScheduleNext(handle: nat, wallSec: real) returns (delay: Option<nat>)
      modifies this`timer
      ensures delay.Some? <==> old(timer).None? && subscribed && !paused
      ensures delay.Some? ==> timer == Some(handle) && delay.value == PollInterval(snap, wallSec)
      ensures delay.None? ==> timer == old(timer)
    {
      if timer.Some? || !subscribed || paused {
        return None;
      }
      timer := Some(handle);
      return Some(PollInterval(snap, wallSec));
    }

    method OnTrigger()
      requires Valid()
      modifies this
      ensures Valid() && world == Next(old(world), Trigger) && inFlight
    {
      var _ := BeginRefresh();
      Record(Trigger);
    }

    /** The rest of `convergeRefresh`, when the awaited pull settles. */
    method OnPullDone(result: Option<Snapshot>, wallSec: real, handle: nat)
      requires Valid() && inFlight && handle == world.loop.nextTimer
      modifies this
      ensures Valid() && world == Next(old(world), PullDone(result, wallSec))
      ensures snap == result && !inFlight && (timer.Some? <==> subscribed && !paused)
    {
      snap := result;
      inFlight := false;
      var _ := ScheduleNext(handle, wallSec);
      Record(PullDone(result, wallSec));
    }

    method OnTimer(id: nat)
      requires Valid() && id in world.loop.armed && world.loop.armed[id] <= world.loop.now
      modifies this
      ensures Valid() && world == Next(old(world), TimerFires(id)) && timer == None && inFlight
    {
      timer := None;
      var _ := BeginRefresh();
      Record(TimerFires(id));
    }

    method OnVisibility(hidden: bool)
      requires Valid() && handlerSet && hidden == world.loop.hidden
      modifies this
      ensures Valid() && world == Next(old(world), VisibilityEvent)
      ensures paused == hidden && (hidden ==> timer == None) && (old(paused) && !hidden ==> inFlight)
    {
      if paused != hidden {
        paused := hidden;
        if hidden {
          timer := None;
        } else {
          var _ := BeginRefresh();
        }
      }
      Record(VisibilityEvent);
    }

    method DoSubscribe(hidden: bool)
      requires Valid() && hidden == world.loop.hidden
      modifies this
      ensures Valid() && world == Next(old(world), Subscribe)
      ensures subscribed && (!old(subscribed) ==> paused == hidden && inFlight && generation == old(generation) + 1)
    {
      if !subscribed {
        generation := generation + 1;
        subscribed, paused := true, hidden;
        handlerSet := true;
        var _ := BeginRefresh();
      }
      Record(Subscribe);
    }

    method DoUnsubscribe()
      requires Valid()
      modifies this
      ensures Valid() && world == Next(old(world), Unsubscribe)
      ensures !subscribed && !paused && timer == None && !handlerSet && generation == old(generation) + 1
      ensures unlistenSidecar == None && unlistenRefresh == None
    {
      AfterUnsubscribe(world);
      TearDown();
      Record(Unsubscribe);
    }

    method TearDown()
      modifies this`generation, this`timer, this`handlerSet, this`unlistenSidecar, this`unlistenRefresh
      modifies this`subscribed, this`paused
      ensures generation == old(generation) + 1 && timer == None && !handlerSet
      ensures unlistenSidecar == None && unlistenRefresh == None && !subscribed && !paused
    {
      generation := generation + 1;
      timer := None;
      handlerSet := false;
      unlistenSidecar := None;
      unlistenRefresh := None;
      subscribed, paused := false, false;
    }

    /** The `.then` of either listen; `gen` is the generation captured by the closure. */
    method OnListenResolved(channel: Channel, id: nat, gen: nat)
      requires Valid()
      requires var ear := if channel.SidecarStatus? then world.sidecar else world.refresh;
               id in ear.pending && ear.pending[id] == gen
      modifies this
      ensures Valid() && world == Next(old(world), ListenResolved(channel, id))
      ensures gen == generation ==> (if channel.SidecarStatus? then unlistenSidecar else unlistenRefresh) == Some(id)
      ensures gen != generation ==> unlistenSidecar == old(unlistenSidecar) && unlistenRefresh == old(unlistenRefresh)
    {
      if gen == generation {
        if channel.SidecarStatus? {
          unlistenSidecar := Some(id);
        } else {
          unlistenRefresh := Some(id);
        }
      }
      Record(ListenResolved(channel, id));
    }
  }
}
