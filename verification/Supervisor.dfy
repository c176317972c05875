/** The sidecar process supervisor (`src-tauri/src/sidecar.rs`, exit hook in `src-tauri/src/main.rs`): cold
  * boot with bounded port re-picks, restart into the same slot, the mode graph, and the exit hook.
  *
  * Operating-system calls are reduced to their outcomes. Restarts, the terminate step and exit do not
  * overlap; kill and wait succeed; the blocking HTTP client builds. A child may die on its own at any time.
  */
module Supervisor {
  import opened Optional
  import HealthPoll

  /** What a child was told to bind and to accept. */
  datatype Identity = Identity(port: nat, adminToken: string)

  /** The processes: which are alive, how many were ever spawned (and as what), and the most ever alive at once. */
  datatype Os = Os(live: set<nat>, born: seq<Identity>, peak: nat)

  function Max(a: nat, b: nat): nat { if a < b then b else a }

  function Spawn(os: Os, id: Identity): Os {
    var live := os.live + {|os.born|};
    Os(live, os.born + [id], Max(os.peak, |live|))
  }

  function Reap(os: Os, pid: nat): Os { os.(live := os.live - {pid}) }

  // ---------------------------------------------------------------------
  // One spawn
  // ---------------------------------------------------------------------

  /** How one call of `spawn_resin_on_port` goes: the binary does not start; it answers `/healthz` in time; or it
    * never does (it exited, or the deadline passed), after which the port is found taken or free. */
  datatype Outcome = SpawnFailed | CameUp | NeverUp(portTaken: bool)

  datatype SpawnResult = Up(pid: nat) | PortRaceLost | Failed

  /** `spawn_resin_on_port`: a child that never came up is dead before the port is judged. */
  function SpawnOnPort(os: Os, id: Identity, outcome: Outcome): (Os, SpawnResult) {
    match outcome
    case SpawnFailed => (os, Failed)
    case CameUp => (Spawn(os, id), Up(|os.born|))
    case NeverUp(taken) => (Reap(Spawn(os, id), |os.born|), if taken then PortRaceLost else Failed)
  }

  /** Every live process was really spawned. */
  ghost predicate OsInv(os: Os) { forall p :: p in os.live ==> p < |os.born| }

  /** From an empty process table a spawn leaves at most the one child it reports, and never had more. */
  lemma SpawnAlone(os: Os, id: Identity, outcome: Outcome)
    requires OsInv(os) && os.live == {} && os.peak <= 1
    ensures var (os', r) := SpawnOnPort(os, id, outcome);
            && OsInv(os') && os'.peak <= 1 && os.born <= os'.born
            && os'.live == (if r.Up? then {r.pid} else {})
            && (r.Up? ==> r.pid < |os'.born| && os'.born[r.pid] == id)
            && (r.PortRaceLost? ==> outcome == NeverUp(true))
  {
    assert os.live + {|os.born|} == {|os.born|};
  }

  // ---------------------------------------------------------------------
  // Cold boot
  // ---------------------------------------------------------------------

  const PORT_PICK_ATTEMPTS := 3

  /** One attempt's surroundings: the free port picked, the token minted (None when the call failed), the spawn. */
  datatype Attempt = Attempt(port: Option<nat>, token: Option<string>, outcome: Outcome)

  predicate LosesRace(a: Attempt) { a.port.Some? && a.token.Some? && a.outcome == NeverUp(true) }

  predicate ComesUp(a: Attempt) { a.port.Some? && a.token.Some? && a.outcome == CameUp }

  datatype BootResult = Booted(pid: nat, id: Identity) | BootRaceLost | BootFailed

  /** The slot-less arm of `spawn_resin_inner`. `used` is the number of attempts made. */
  method ColdBoot(os: Os, env: seq<Attempt>) returns (os': Os, r: BootResult, used: nat)
    requires OsInv(os) && os.live == {} && os.peak <= 1
    requires |env| >= PORT_PICK_ATTEMPTS
    ensures 1 <= used <= PORT_PICK_ATTEMPTS
    // retries happen exactly after lost races, and the last attempt decides
    ensures forall i :: 0 <= i < used - 1 ==> LosesRace(env[i])
    ensures LosesRace(env[used - 1]) ==> used == PORT_PICK_ATTEMPTS
    ensures r.Booted? <==> ComesUp(env[used - 1])
    ensures r.BootRaceLost? <==> LosesRace(env[used - 1])
    // never two children, and the surviving one carries the reported identity
    ensures OsInv(os') && os'.peak <= 1
    ensures os'.live == if r.Booted? then {r.pid} else {}
    ensures r.Booted? ==> r.pid < |os'.born| && os'.born[r.pid] == r.id &&
                          r.id == Identity(env[used - 1].port.value, env[used - 1].token.value)
  {
    os', used := os, 0;
    // the last iteration always returns, so the source's error after the loop is never reached
    while true
      invariant 0 <= used < PORT_PICK_ATTEMPTS
      invariant forall i :: 0 <= i < used ==> LosesRace(env[i])
      invariant OsInv(os') && os'.live == {} && os'.peak <= 1
      decreases PORT_PICK_ATTEMPTS - used
    {
      var a := env[used];
      used := used + 1;
      if a.port.None? || a.token.None? {
        return os', BootFailed, used;
      }
      var id := Identity(a.port.value, a.token.value);
      SpawnAlone(os', id, a.outcome);
      var (next, spawned) := SpawnOnPort(os', id, a.outcome);
      os' := next;
      match spawned
      case Up(pid) => return os', Booted(pid, id), used;
      case PortRaceLost =>
        if used == PORT_PICK_ATTEMPTS {
          return os', BootRaceLost, used;
        }
      case Failed => return os', BootFailed, used;
    }
  }

  // ---------------------------------------------------------------------
  // The mode graph
  // ---------------------------------------------------------------------

  datatype Mode = NotRunning | Starting | Running | Terminated

  /** The table of `set_mode`; a transition outside it is only warned about. */
  predicate Legal(from: Mode, to: Mode) {
    || (from == Starting && to in {Running, NotRunning, Terminated})
    || (from == Running && to in {NotRunning, Terminated})
    || (from == NotRunning && to == Starting)
    || (from == Terminated && to == NotRunning)
  }

  /** The table in words: Running is entered from Starting only, Starting from NotRunning only; Starting and Running can
    * stop or be terminated; Terminated only goes back to NotRunning; nothing else, and nothing to itself. */
  lemma LegalTable(from: Mode, to: Mode)
    ensures to == Running ==> (Legal(from, to) <==> from == Starting)
    ensures to == Starting ==> (Legal(from, to) <==> from == NotRunning)
    ensures to == Terminated ==> (Legal(from, to) <==> from == Starting || from == Running)
    ensures to == NotRunning ==> (Legal(from, to) <==> from != NotRunning)
  {}

  datatype Handle = Handle(
    id: Identity,
    child: Option<nat>,
    mode: Mode,
    os: Os,
    illegal: nat,     // set_mode calls outside the table
    exited: bool)

  function SetMode(h: Handle, m: Mode): Handle {
    h.(mode := m, illegal := if Legal(h.mode, m) then h.illegal else h.illegal + 1)
  }

  /** Take the child out of the handle and see it dead. */
  function ShutDown(h: Handle): Handle {
    if h.child.None? then h else h.(child := None, os := Reap(h.os, h.child.value))
  }

  /** What a restart meets: the directories or the port check fail before any spawn, or one spawn is tried. */
  datatype RestartEnv = Blocked | Tried(outcome: Outcome)

  /** `restart_into_slot`: two-phase shutdown, then a respawn on the handle's own port and token. */
  function Restart(h: Handle, env: RestartEnv): Handle {
    var down := SetMode(ShutDown(SetMode(h, NotRunning)), Starting);
    if env.Blocked? then down
    else
      var (os, r) := SpawnOnPort(down.os, down.id, env.outcome);
      if r.Up? then SetMode(down.(os := os, child := Some(r.pid)), Running) else down.(os := os)
  }

  datatype Event =
    | RestartIt(env: RestartEnv)  // the health poll or the user
    | Terminate                   // the health poll's budget is spent
    | ChildDies
    | Exit                        // the application's exit hook

  function Step(h: Handle, e: Event): Handle {
    match e
    case RestartIt(env) => Restart(h, env)
    case Terminate => SetMode(h, Terminated)
    case ChildDies => if h.child.None? then h else h.(os := Reap(h.os, h.child.value))
    case Exit => SetMode(ShutDown(h), NotRunning).(exited := true)
  }

  function Run(h: Handle, events: seq<Event>): Handle {
    if events == [] then h else Step(Run(h, events[..|events| - 1]), events[|events| - 1])
  }

  /** The handle a successful cold boot returns. */
  ghost predicate Boots(h: Handle) {
    && OsInv(h.os) && h.os.peak <= 1 && h.child.Some? && h.os.live == {h.child.value}
    && h.os.born[h.child.value] == h.id
    && h.mode == Running && h.illegal == 0 && !h.exited
  }

  /** Processes: never more than one, always the handle's own, always with the handle's port and token. */
  ghost predicate Processes(h: Handle) {
    && OsInv(h.os) && h.os.peak <= 1
    && (if h.child.None? then h.os.live == {} else h.os.live <= {h.child.value})
    && (h.child.Some? ==> h.child.value < |h.os.born| && h.os.born[h.child.value] == h.id)
  }

  /** Modes between steps, before exit: Running holds a child, Starting holds none. */
  ghost predicate Modes(h: Handle) {
    && (!h.exited ==> h.mode != NotRunning)
    && (h.mode == Running ==> h.child.Some?)
    && (h.mode == Starting ==> h.child.None?)
    && (h.exited ==> h.mode == NotRunning && h.child.None?)
  }

  lemma ShutDownEmpties(h: Handle)
    requires Processes(h)
    ensures Processes(ShutDown(h)) && ShutDown(h).child.None? && ShutDown(h).os.live == {}
  {}

  lemma StepKeepsProcesses(h: Handle, e: Event)
    requires Processes(h)
    ensures Processes(Step(h, e)) && Step(h, e).id == h.id
  {
    ShutDownEmpties(h);
    if e.RestartIt? {
      var down := SetMode(ShutDown(SetMode(h, NotRunning)), Starting);
      assert down.os == ShutDown(h).os && down.child == None;
      if e.env.Tried? {
        SpawnAlone(down.os, down.id, e.env.outcome);
      }
    }
  }

  /** The last thing that touched the mode was a terminate. */
  predicate EndsTerminated(events: seq<Event>) {
    events != [] &&
    var last := events[|events| - 1];
    last.Terminate? || (last.ChildDies? && EndsTerminated(events[..|events| - 1]))
  }

  predicate HasExit(events: seq<Event>) {
    events != [] && (events[|events| - 1].Exit? || HasExit(events[..|events| - 1]))
  }

  /** No terminate on top of a terminate without a restart between them; after exit, only a child's death. */
  predicate Orderly(events: seq<Event>) {
    events != [] ==>
      var front, last := events[..|events| - 1], events[|events| - 1];
      && Orderly(front)
      && (last.Terminate? ==> !EndsTerminated(front))
      && (HasExit(front) ==> last.ChildDies?)
  }

  /** Modes between steps, in numbers the event list can be checked for. */
  ghost predicate Tracks(h: Handle, events: seq<Event>) {
    && Modes(h) && h.illegal == 0
    && (h.exited <==> HasExit(events))
    && (h.mode == Terminated <==> EndsTerminated(events))
  }

  lemma StepTracks(h: Handle, front: seq<Event>, e: Event)
    requires Tracks(h, front)
    ensures Orderly(front) && Orderly(front + [e]) ==> Tracks(Step(h, e), front + [e])
    ensures Orderly(front) && !Orderly(front + [e]) ==> Step(h, e).illegal > 0
  {
    assert (front + [e])[..|front|] == front;
  }

  lemma IllegalNeverForgotten(h: Handle, e: Event)
    ensures Step(h, e).illegal >= h.illegal
  {}

  lemma {:induction false} RunKeepsProcesses(h: Handle, events: seq<Event>)
    requires Processes(h)
    ensures Processes(Run(h, events)) && Run(h, events).id == h.id
  {
    if events != [] {
      RunKeepsProcesses(h, events[..|events| - 1]);
      StepKeepsProcesses(Run(h, events[..|events| - 1]), events[|events| - 1]);
    }
  }

  lemma {:induction false} RunTracks(h: Handle, events: seq<Event>)
    requires Boots(h)
    ensures if Orderly(events) then Tracks(Run(h, events), events) else Run(h, events).illegal > 0
  {
    if events != [] {
      var front, e := events[..|events| - 1], events[|events| - 1];
      RunTracks(h, front);
      if Orderly(front) {
        StepTracks(Run(h, front), front, e);
        assert events == front + [e];
      } else {
        IllegalNeverForgotten(Run(h, front), e);
      }
    }
  }

  /** Across a cold boot and any number of restarts, crashes and terminations: never more than one live child;
    * whatever is alive is the handle's child; and that child was spawned with the handle's port and token,
    * which never change. Holds for every event order, even past exit. */
  lemma OneChildEver(h: Handle, events: seq<Event>)
    requires Boots(h)
    ensures var t := Run(h, events);
            && t.os.peak <= 1 && t.id == h.id
            && (t.child.None? ==> t.os.live == {})
            && (t.child.Some? ==> t.os.live <= {t.child.value} && t.child.value < |t.os.born| && t.os.born[t.child.value] == t.id)
  {
    RunKeepsProcesses(h, events);
  }

  /** Every `set_mode` call of a run is an edge of the table, failed respawns included, exactly when the run is
    * orderly; and then, before exit, Running holds a child and Starting holds none. */
  lemma ModeGraphRespected(h: Handle, events: seq<Event>)
    requires Boots(h)
    ensures var t := Run(h, events);
            && (t.illegal == 0 <==> Orderly(events))
            && (Orderly(events) ==>
                  && (t.mode == Running ==> t.child.Some?)
                  && (t.mode == Starting ==> t.child.None? && t.os.live == {})
                  && (t.mode == NotRunning <==> t.exited)
                  && (t.exited ==> t.os.live == {}))
  {
    RunTracks(h, events);
    RunKeepsProcesses(h, events);
  }

  function Terminates(events: seq<Event>): nat {
    if events == [] then 0
    else Terminates(events[..|events| - 1]) + if events[|events| - 1].Terminate? then 1 else 0
  }

  /** One terminate at most and exit last make a run orderly. */
  lemma {:induction false} FewTerminatesAreOrderly(events: seq<Event>)
    requires Terminates(events) <= 1 && (events != [] ==> !HasExit(events[..|events| - 1]))
    ensures Orderly(events) && (EndsTerminated(events) ==> Terminates(events) == 1)
  {
    if events != [] {
      FewTerminatesAreOrderly(events[..|events| - 1]);
    }
  }

  /** The health poll terminates at most once, so its runs, interleaved in any way with user restarts and crashes
    * and ended by one exit, stay inside the table. */
  lemma PollRespectsModeGraph(h: Handle, outcomes: seq<bool>, trace: seq<HealthPoll.Action>, events: seq<Event>)
    requires HealthPoll.CountsMatch(trace, outcomes)
    requires Boots(h) && Terminates(events) <= HealthPoll.TallyOf(trace).marked
    requires events != [] ==> !HasExit(events[..|events| - 1])
    ensures Run(h, events).illegal == 0
  {
    FewTerminatesAreOrderly(events);
    ModeGraphRespected(h, events);
  }

  // ---------------------------------------------------------------------
  // The handle, changed in place
  // ---------------------------------------------------------------------

  class SidecarHandle {
    const id: Identity
    var child: Option<nat>
    var mode: Mode
    ghost var world: Handle

    ghost predicate Valid()
      reads this
    {
      Processes(world) && id == world.id && child == world.child && mode == world.mode
    }

    /** The handle of a child that has just come up. */
    constructor (pid: nat, id: Identity, ghost os: Os)
      requires OsInv(os) && os.peak <= 1 && os.live == {pid} && pid < |os.born| && os.born[pid] == id
      ensures Valid() && Boots(world) && world == Handle(id, Some(pid), Running, os, 0, false)
    {
      this.id, child, mode := id, Some(pid), Running;
      world := Handle(id, Some(pid), Running, os, 0, false);
    }

    method ChangeMode(m: Mode) returns (warned: bool)
      modifies this`mode
      ensures mode == m && (warned <==> !Legal(old(mode), m))
    {
      warned := !Legal(mode, m);
      mode := m;
    }

    method TakeChild() returns (taken: Option<nat>)
      modifies this`child
      ensures taken == old(child) && child == None
    {
      taken, child := child, None;
    }

    /** `restart_into_slot`; `pid` is the process id the operating system gives the new child, if any. */
    method RestartIntoSlot(env: RestartEnv, pid: nat) returns (ok: bool)
      requires Valid() && pid == |world.os.born|
      modifies this
      ensures Valid() && world == Restart(old(world), env)
      ensures ok <==> env == Tried(CameUp)
      ensures ok ==> mode == Running && child == Some(pid)
      ensures !ok ==> mode == Starting && child == None
    {
      StepKeepsProcesses(world, RestartIt(env));
      ghost var before := world;
      var _ := ChangeMode(NotRunning);
      var _ := TakeChild();
      var _ := ChangeMode(Starting);
      ok := env == Tried(CameUp);
      if ok {
        child := Some(pid);
        var _ := ChangeMode(Running);
      }
      world := Restart(before, env);
    }

    method MarkTerminated()
      requires Valid()
      modifies this
      ensures Valid() && world == Step(old(world), Terminate)
      ensures mode == Terminated && child == old(child) && world.os == old(world.os)
    {
      StepKeepsProcesses(world, Terminate);
      var _ := ChangeMode(Terminated);
      world := Step(world, Terminate);
    }

    /** The `RunEvent::Exit` hook; a second call finds no child. */
    method OnExit()
      requires Valid()
      modifies this
      ensures Valid() && world == Step(old(world), Exit) && child == None && world.os.live == {} && mode == NotRunning
    {
      StepKeepsProcesses(world, Exit);
      var _ := TakeChild();
      var _ := ChangeMode(NotRunning);
      world := Step(world, Exit);
    }
  }

  /** Attempt i comes up after nothing but lost races. */
  ghost predicate BootsAt(env: seq<Attempt>, i: nat) {
    i < |env| && i < PORT_PICK_ATTEMPTS && ComesUp(env[i]) && forall j :: 0 <= j < i ==> LosesRace(env[j])
  }

  /** Cold boot and the first handle together: there is a handle exactly when one of the three attempts comes up after
    * lost races only, and it carries that attempt's port and token. */
  method BootHandle(env: seq<Attempt>) returns (h: SidecarHandle?)
    requires |env| >= PORT_PICK_ATTEMPTS
    ensures h != null <==> exists i: nat :: BootsAt(env, i)
    ensures h != null ==> fresh(h) && h.Valid() && Boots(h.world)
    ensures h != null ==>
              forall i: nat :: BootsAt(env, i) ==> h.id == Identity(env[i].port.value, env[i].token.value)
  {
    var os, r, used := ColdBoot(Os({}, [], 0), env);
    OneDecides(env, used);
    if r.Booted? {
      assert BootsAt(env, used - 1);
      h := new SidecarHandle(r.pid, r.id, os);
    } else {
      h := null;
    }
  }

  /** After `used` attempts of which only the last did not lose a race, no other attempt can be the one. */
  lemma OneDecides(env: seq<Attempt>, used: nat)
    requires 1 <= used <= PORT_PICK_ATTEMPTS <= |env|
    requires forall i :: 0 <= i < used - 1 ==> LosesRace(env[i])
    requires LosesRace(env[used - 1]) ==> used == PORT_PICK_ATTEMPTS
    ensures forall i: nat :: BootsAt(env, i) ==> i == used - 1
  {}
}
