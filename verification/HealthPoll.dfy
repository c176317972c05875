/** The health-poll loop of the sidecar supervisor (`src-tauri/src/sidecar.rs`).
  *
  * Each cycle observes one `/healthz` outcome. Three failures in a row close a
  * strike window; a closed window either spends one of three restart attempts
  * (with doubling backoff) or marks the sidecar Terminated.
  *
  * The loop is proved against `Runs`, `Windows`, `Episodes` and `Recoveries`, which
  * look only at the maximal failing runs of the outcome sequence and know nothing of
  * the loop's counters.
  */
module HealthPoll {
  import opened MaximalRuns

  const HEALTH_FAILURE_THRESHOLD := 3
  const MAX_CRASH_RESTARTS := 3

  /** Everything the loop does to the outside world, in order. */
  datatype Action =
    | TrayGreen
    | TrayRed
    | EmitHealthy
    | EmitUnhealthy
    | ClearOsProxy
    | EmitRestarting
    | Backoff(ms: nat)
    | Respawn
    | MarkTerminated
    | EmitTerminated

  // ---------------------------------------------------------------------
  // Reference definitions over the maximal failing runs
  // ---------------------------------------------------------------------

  /** How many threes go into n. */
  function Thirds(n: nat): nat { if n < 3 then 0 else 1 + Thirds(n - 3) }

  lemma {:induction false} ThirdsIsFloor(n: nat)
    ensures Thirds(n) == n / 3
  {
    if n >= 3 {
      ThirdsIsFloor(n - 3);
    }
  }

  /** Sum over the runs of floor(length / 3). */
  function Windows(runs: seq<nat>): nat {
    if runs == [] then 0 else Windows(Front(runs)) + Thirds(Last(runs))
  }

  /** Number of runs of length at least 3. */
  function Episodes(runs: seq<nat>): nat {
    if runs == [] then 0 else Episodes(Front(runs)) + if Last(runs) >= HEALTH_FAILURE_THRESHOLD then 1 else 0
  }

  /** Number of those runs that were followed by a success. */
  function Recoveries(runs: seq<nat>): nat
    requires |runs| > 0
  {
    Episodes(Front(runs))
  }

  /** The run structure in numbers: closed windows and recoveries in all, and a last run made of `closed`
    * whole windows and `strikes` further failures. */
  datatype Shape = Shape(windows: nat, recoveries: nat, closed: nat, strikes: nat)

  function NextShape(h: Shape, ok: bool): Shape {
    if ok then Shape(h.windows, if h.closed > 0 then h.recoveries + 1 else h.recoveries, 0, 0)
    else if h.strikes < 2 then h.(strikes := h.strikes + 1)
    else Shape(h.windows + 1, h.recoveries, h.closed + 1, 0)
  }

  function ShapeOf(s: seq<bool>): Shape {
    if s == [] then Shape(0, 0, 0, 0) else NextShape(ShapeOf(s[..|s| - 1]), s[|s| - 1])
  }

  /** The shape really is the shape of these runs. */
  ghost predicate Describes(h: Shape, runs: seq<nat>) {
    && |runs| > 0
    && Windows(runs) == h.windows
    && Recoveries(runs) == h.recoveries
    && Episodes(runs) == (if h.closed > 0 then h.recoveries + 1 else h.recoveries)
    && Last(runs) == 3 * h.closed + h.strikes
    && h.strikes < 3
  }

  lemma DivideByThree(q: nat, rest: nat)
    requires rest < 3
    ensures Thirds(3 * q + rest) == q
  {
    ThirdsIsFloor(3 * q + rest);
  }

  /** The numbers of a list of runs, from its last run and the runs before. */
  lemma LastRun(before: seq<nat>, n: nat)
    ensures var runs := before + [n];
            && Front(runs) == before && Last(runs) == n
            && Windows(runs) == Windows(before) + Thirds(n)
            && Episodes(runs) == Episodes(before) + (if n >= HEALTH_FAILURE_THRESHOLD then 1 else 0)
            && Recoveries(runs) == Episodes(before)
  {
    assert Front(before + [n]) == before;
  }

  lemma DescribesSuccess(h: Shape, runs: seq<nat>)
    requires Describes(h, runs)
    ensures Describes(NextShape(h, true), runs + [0])
  {
    LastRun(runs, 0);
  }

  lemma DescribesFailure(h: Shape, before: seq<nat>, n: nat)
    requires Describes(h, before + [n])
    ensures Describes(NextShape(h, false), before + [n + 1])
  {
    LastRun(before, n);
    LastRun(before, n + 1);
    DivideByThree(h.closed, h.strikes);
    if h.strikes < 2 {
      DivideByThree(h.closed, h.strikes + 1);
    } else {
      DivideByThree(h.closed + 1, 0);
    }
  }

  lemma DescribesStep(h: Shape, runs: seq<nat>, ok: bool)
    requires Describes(h, runs)
    ensures Describes(NextShape(h, ok), NextRuns(runs, ok))
  {
    if ok {
      DescribesSuccess(h, runs);
    } else {
      assert Front(runs) + [Last(runs)] == runs;
      DescribesFailure(h, Front(runs), Last(runs));
    }
  }

  lemma ShapeSnoc(s: seq<bool>, ok: bool)
    ensures ShapeOf(s + [ok]) == NextShape(ShapeOf(s), ok)
  {
    assert (s + [ok])[..|s|] == s;
  }

  lemma DescribesSnoc(s: seq<bool>, ok: bool)
    requires Describes(ShapeOf(s), Runs(s))
    ensures Describes(ShapeOf(s + [ok]), Runs(s + [ok]))
  {
    ShapeSnoc(s, ok);
    RunsSnoc(s, ok);
    DescribesStep(ShapeOf(s), Runs(s), ok);
  }

  lemma {:induction false} ShapeDescribesRuns(s: seq<bool>)
    ensures Describes(ShapeOf(s), Runs(s))
  {
    if s == [] {
      assert Runs(s) == [0];
    } else {
      ShapeDescribesRuns(s[..|s| - 1]);
      DescribesSnoc(s[..|s| - 1], s[|s| - 1]);
      assert s == s[..|s| - 1] + [s[|s| - 1]];
    }
  }

  // ---------------------------------------------------------------------
  // Observations on an action trace
  // ---------------------------------------------------------------------

  /** How often each action occurred, the backoff waits, and the health events ("healthy" = true), in order. */
  datatype Tally = Tally(
    green: nat, red: nat, healthy: nat, unhealthy: nat, cutoffs: nat,
    restarting: nat, respawns: nat, marked: nat, terminated: nat,
    backoffs: seq<nat>, events: seq<bool>)

  const NOTHING := Tally(0, 0, 0, 0, 0, 0, 0, 0, 0, [], [])

  function Bump(t: Tally, a: Action): Tally {
    match a
    case TrayGreen => t.(green := t.green + 1)
    case TrayRed => t.(red := t.red + 1)
    case EmitHealthy => t.(healthy := t.healthy + 1, events := t.events + [true])
    case EmitUnhealthy => t.(unhealthy := t.unhealthy + 1, events := t.events + [false])
    case ClearOsProxy => t.(cutoffs := t.cutoffs + 1)
    case EmitRestarting => t.(restarting := t.restarting + 1)
    case Backoff(ms) => t.(backoffs := t.backoffs + [ms])
    case Respawn => t.(respawns := t.respawns + 1)
    case MarkTerminated => t.(marked := t.marked + 1)
    case EmitTerminated => t.(terminated := t.terminated + 1)
  }

  function TallyOf(trace: seq<Action>): Tally {
    if trace == [] then NOTHING else Bump(TallyOf(trace[..|trace| - 1]), trace[|trace| - 1])
  }

  lemma TallyAppend(x: seq<Action>, a: Action)
    ensures TallyOf(x + [a]) == Bump(TallyOf(x), a)
  {
    assert (x + [a])[..|x|] == x;
  }

  lemma {:induction false} NeverMarked(x: seq<Action>)
    ensures TallyOf(x).marked == 0 <==> MarkTerminated !in x
  {
    if x != [] {
      NeverMarked(x[..|x| - 1]);
      assert x == x[..|x| - 1] + [x[|x| - 1]];
    }
  }

  /** Strict alternation starting with "unhealthy". */
  predicate Alternates(events: seq<bool>) {
    forall i :: 0 <= i < |events| ==> events[i] == (i % 2 == 1)
  }

  /** The OS proxy is cleared right after each "unhealthy" and at no other point. */
  predicate CutoffPerEpisode(trace: seq<Action>) {
    && (forall i :: 0 <= i < |trace| && trace[i].EmitUnhealthy? ==> i + 1 < |trace| && trace[i + 1].ClearOsProxy?)
    && (forall i :: 0 <= i < |trace| && trace[i].ClearOsProxy? ==> 0 < i && trace[i - 1].EmitUnhealthy?)
  }

  /** No restart activity after `MarkTerminated`. */
  predicate QuietOnceTerminated(trace: seq<Action>) {
    forall i, j :: 0 <= i < j < |trace| && trace[i].MarkTerminated? ==>
      !trace[j].EmitRestarting? && !trace[j].Backoff? && !trace[j].Respawn? && !trace[j].MarkTerminated?
  }

  /** Each respawn is announced and backed off, in that order. */
  predicate RespawnsAnnounced(trace: seq<Action>) {
    forall i :: 0 <= i < |trace| && trace[i].Respawn? ==>
      2 <= i && trace[i - 1].Backoff? && trace[i - 2].EmitRestarting?
  }

  // ---------------------------------------------------------------------
  // The source's pure helpers
  // ---------------------------------------------------------------------

  function Pow2(n: nat): nat {
    if n == 0 then 1 else 2 * Pow2(n - 1)
  }

  /** `1000u64 << attempt`; exact only while the product fits 64 bits. */
  function CrashBackoffMs(attempt: nat): nat {
    1000 * Pow2(attempt) % 0x1_0000_0000_0000_0000
  }

  datatype UnhealthyAction = Restart(backoffMs: nat) | Terminate

  function DecideUnhealthy(crashCount: nat): UnhealthyAction {
    if crashCount > MAX_CRASH_RESTARTS then Terminate
    else Restart(CrashBackoffMs(if crashCount == 0 then 0 else crashCount - 1))
  }

  function Min(a: nat, b: nat): nat { if a < b then a else b }

  /** What k spent attempts have waited: 1 s, 2 s, 4 s. */
  function BackoffSchedule(k: nat): (r: seq<nat>)
    requires k <= MAX_CRASH_RESTARTS
    ensures |r| == k
  {
    [1000, 2000, 4000][..k]
  }

  function Total(s: seq<nat>): nat {
    if s == [] then 0 else Total(s[..|s| - 1]) + s[|s| - 1]
  }

  // ---------------------------------------------------------------------
  // The loop
  // ---------------------------------------------------------------------

  /** Which actions follow which, whatever the outcomes were. */
  ghost predicate Neighbourly(trace: seq<Action>) {
    CutoffPerEpisode(trace) && QuietOnceTerminated(trace) && RespawnsAnnounced(trace)
  }

  /** At each restart announcement and at the termination, an episode is open and its cutoff is done: the OS proxy has
    * been cleared once more than the sidecar has recovered. */
  ghost predicate CutOffFirst(trace: seq<Action>) {
    trace != [] ==>
      var front, last := trace[..|trace| - 1], trace[|trace| - 1];
      && CutOffFirst(front)
      && (last.EmitRestarting? || last.MarkTerminated? ==> TallyOf(front).cutoffs == TallyOf(front).healthy + 1)
  }

  /** The order laws of a trace. */
  ghost predicate WellOrdered(trace: seq<Action>) { Neighbourly(trace) && CutOffFirst(trace) }

  lemma CutOffAppend(x: seq<Action>, a: Action)
    requires CutOffFirst(x)
    requires a.EmitRestarting? || a.MarkTerminated? ==> TallyOf(x).cutoffs == TallyOf(x).healthy + 1
    ensures CutOffFirst(x + [a])
  {
    assert (x + [a])[..|x|] == x;
  }

  /** A block whose first action alone may be a restart announcement or the termination. */
  lemma CutOffAppendBlock(x: seq<Action>, a: Action, b: Action, c: Action)
    requires CutOffFirst(x) && !b.EmitRestarting? && !b.MarkTerminated? && !c.EmitRestarting? && !c.MarkTerminated?
    requires a.EmitRestarting? || a.MarkTerminated? ==> TallyOf(x).cutoffs == TallyOf(x).healthy + 1
    ensures CutOffFirst(x + [a, b]) && CutOffFirst(x + [a, b, c])
  {
    CutOffAppend(x, a);
    CutOffAppend(x + [a], b);
    assert x + [a] + [b] == x + [a, b];
    CutOffAppend(x + [a, b], c);
    assert x + [a, b] + [c] == x + [a, b, c];
  }

  /** The same law, position by position. */
  lemma {:induction false} CutOffBeforeRestart(trace: seq<Action>, i: nat)
    requires CutOffFirst(trace) && i < |trace| && (trace[i].EmitRestarting? || trace[i].MarkTerminated?)
    ensures TallyOf(trace[..i]).cutoffs == TallyOf(trace[..i]).healthy + 1
  {
    if i < |trace| - 1 {
      CutOffBeforeRestart(trace[..|trace| - 1], i);
      assert trace[..|trace| - 1][..i] == trace[..i];
    }
  }

  /** What the tally must be after w closed windows, e episodes and r recoveries. */
  ghost predicate TallyFits(t: Tally, w: nat, e: nat, r: nat) {
    && t.respawns == t.restarting == Min(MAX_CRASH_RESTARTS, w)
    && t.backoffs == BackoffSchedule(Min(MAX_CRASH_RESTARTS, w))
    && t.marked == t.terminated == (if w > MAX_CRASH_RESTARTS then 1 else 0)
    && t.unhealthy == t.red == t.cutoffs == e
    && t.healthy == t.green == r
    && |t.events| == e + r
    && Alternates(t.events)
  }

  /** The same, with the three numbers read off the maximal failing runs of the outcomes. */
  ghost predicate CountsMatch(trace: seq<Action>, outcomes: seq<bool>) {
    var runs := Runs(outcomes);
    TallyFits(TallyOf(trace), Windows(runs), Episodes(runs), Recoveries(runs))
  }

  // One lemma per block of actions the loop appends: the order laws survive, and the tally moves as expected.

  lemma HealthBlocksKeepOrder(x: seq<Action>)
    requires Neighbourly(x)
    ensures Neighbourly(x + [TrayGreen, EmitHealthy])
    ensures Neighbourly(x + [TrayRed, EmitUnhealthy, ClearOsProxy])
  {}

  lemma AppendRecovery(x: seq<Action>, w: nat, r: nat)
    requires WellOrdered(x) && TallyFits(TallyOf(x), w, r + 1, r)
    ensures var y := x + [TrayGreen, EmitHealthy]; WellOrdered(y) && TallyFits(TallyOf(y), w, r + 1, r + 1)
  {
    HealthBlocksKeepOrder(x);
    CutOffAppendBlock(x, TrayGreen, EmitHealthy, TrayGreen);
    TallyAppend(x, TrayGreen);
    TallyAppend(x + [TrayGreen], EmitHealthy);
    assert x + [TrayGreen] + [EmitHealthy] == x + [TrayGreen, EmitHealthy];
  }

  lemma AppendCutoff(x: seq<Action>, w: nat, r: nat)
    requires WellOrdered(x) && TallyFits(TallyOf(x), w, r, r)
    ensures var y := x + [TrayRed, EmitUnhealthy, ClearOsProxy]; WellOrdered(y) && TallyFits(TallyOf(y), w, r + 1, r)
  {
    HealthBlocksKeepOrder(x);
    CutOffAppendBlock(x, TrayRed, EmitUnhealthy, ClearOsProxy);
    TallyAppendThree(x, TrayRed, EmitUnhealthy, ClearOsProxy);
  }

  lemma RestartKeepsOrder(x: seq<Action>, ms: nat)
    requires Neighbourly(x) && MarkTerminated !in x
    ensures Neighbourly(x + [EmitRestarting, Backoff(ms), Respawn])
  {}

  lemma AppendRestart(x: seq<Action>, w: nat, r: nat)
    requires WellOrdered(x) && TallyFits(TallyOf(x), w, r + 1, r) && w < MAX_CRASH_RESTARTS
    ensures var y := x + [EmitRestarting, Backoff(1000 * Pow2(w)), Respawn];
            WellOrdered(y) && TallyFits(TallyOf(y), w + 1, r + 1, r)
  {
    NeverMarked(x);
    CutOffAppendBlock(x, EmitRestarting, Backoff(1000 * Pow2(w)), Respawn);
    RestartKeepsOrder(x, 1000 * Pow2(w));
    TallyAppendThree(x, EmitRestarting, Backoff(1000 * Pow2(w)), Respawn);
    RestartFits(TallyOf(x), w, r + 1, r);
  }

  lemma TallyAppendThree(x: seq<Action>, a: Action, b: Action, c: Action)
    ensures TallyOf(x + [a, b, c]) == Bump(Bump(Bump(TallyOf(x), a), b), c)
  {
    var y := x + [a];
    var z := y + [b];
    assert x + [a, b, c] == z + [c];
    TallyAppend(x, a);
    TallyAppend(y, b);
    TallyAppend(z, c);
  }

  lemma RestartFits(t: Tally, w: nat, e: nat, r: nat)
    requires TallyFits(t, w, e, r) && w < MAX_CRASH_RESTARTS
    ensures TallyFits(Bump(Bump(Bump(t, EmitRestarting), Backoff(1000 * Pow2(w))), Respawn), w + 1, e, r)
  {
    BackoffOfAttempt(w + 1);
  }

  lemma TerminationKeepsOrder(x: seq<Action>)
    requires Neighbourly(x) && MarkTerminated !in x
    ensures Neighbourly(x + [MarkTerminated, EmitTerminated])
  {}

  lemma AppendTermination(x: seq<Action>, r: nat)
    requires WellOrdered(x) && TallyFits(TallyOf(x), MAX_CRASH_RESTARTS, r + 1, r)
    ensures var y := x + [MarkTerminated, EmitTerminated];
            WellOrdered(y) && TallyFits(TallyOf(y), MAX_CRASH_RESTARTS + 1, r + 1, r)
  {
    NeverMarked(x);
    CutOffAppendBlock(x, MarkTerminated, EmitTerminated, TrayRed);
    TerminationKeepsOrder(x);
    TallyAppend(x, MarkTerminated);
    TallyAppend(x + [MarkTerminated], EmitTerminated);
    assert x + [MarkTerminated] + [EmitTerminated] == x + [MarkTerminated, EmitTerminated];
  }

  // ---------------------------------------------------------------------
  // The exact trace, read off the maximal failing runs
  // ---------------------------------------------------------------------

  const CUTOFF := [TrayRed, EmitUnhealthy, ClearOsProxy]
  const RECOVERY := [TrayGreen, EmitHealthy]

  /** What the n-th closed window of the whole run asks for. */
  function Decision(n: nat): seq<Action>
    requires n > 0
  {
    if n <= 3 then [EmitRestarting, Backoff(1000 * Pow2(n - 1)), Respawn]
    else if n == 4 then [MarkTerminated, EmitTerminated]
    else []
  }

  /** The decisions of k windows, after w earlier ones. */
  function Decisions(w: nat, k: nat): seq<Action> {
    if k == 0 then [] else Decisions(w, k - 1) + Decision(w + k)
  }

  /** A failing run of the given length, after w closed windows. */
  function RunActions(w: nat, length: nat): seq<Action> {
    if length < 3 then [] else CUTOFF + Decisions(w, Thirds(length))
  }

  /** The runs `before`, each ended by a success (which is a recovery after a long one), and then a run of length n. */
  function TraceTo(before: seq<nat>, n: nat): seq<Action>
    decreases |before|, 1
  {
    TraceBefore(before) + RunActions(Windows(before), n)
  }

  function TraceBefore(before: seq<nat>): seq<Action>
    decreases |before|, 0
  {
    if before == [] then []
    else TraceTo(Front(before), Last(before)) + if Last(before) >= 3 then RECOVERY else []
  }

  /** Everything, run after run. */
  function TraceOf(runs: seq<nat>): seq<Action>
    requires |runs| > 0
  {
    TraceTo(Front(runs), Last(runs))
  }

  /** What one cycle appends, after w closed windows. */
  function Appended(ok: bool, failures: nat, wasHealthy: bool, w: nat): seq<Action> {
    if ok then (if wasHealthy then [] else RECOVERY)
    else if failures < 2 then []
    else (if wasHealthy then CUTOFF else []) + Decision(w + 1)
  }

  lemma Regroup(a: seq<Action>, b: seq<Action>, c: seq<Action>)
    ensures (a + b) + c == a + (b + c)
  {}

  lemma TraceSuccess(h: Shape, runs: seq<nat>)
    requires Describes(h, runs)
    ensures TraceTo(runs, 0) == TraceOf(runs) + Appended(true, h.strikes, h.closed == 0, h.windows)
  {
    assert h.closed == 0 <==> Last(runs) < 3;
  }

  lemma FirstWindow(w: nat)
    ensures RunActions(w, 3) == RunActions(w, 2) + (CUTOFF + Decision(w + 1))
  {
    assert Decisions(w, 1) == Decisions(w, 0) + Decision(w + 1);
    Regroup([], CUTOFF, Decision(w + 1));
  }

  lemma LaterWindow(w: nat, closed: nat)
    requires closed > 0
    ensures RunActions(w, 3 * closed + 3) == RunActions(w, 3 * closed + 2) + Decision(w + closed + 1)
  {
    DivideByThree(closed + 1, 0);
    DivideByThree(closed, 2);
    assert Decisions(w, closed + 1) == Decisions(w, closed) + Decision(w + closed + 1);
    assert RunActions(w, 3 * closed + 2) == CUTOFF + Decisions(w, closed);
    Regroup(CUTOFF, Decisions(w, closed), Decision(w + closed + 1));
  }

  lemma NoWindow(w: nat, closed: nat, strikes: nat)
    requires strikes < 2
    ensures RunActions(w, 3 * closed + strikes + 1) == RunActions(w, 3 * closed + strikes)
  {
    DivideByThree(closed, strikes);
    DivideByThree(closed, strikes + 1);
  }

  /** How the actions of a run grow when it lengthens by one failure. */
  lemma RunLengthens(w: nat, closed: nat, strikes: nat)
    requires strikes < 3
    ensures RunActions(w, 3 * closed + strikes + 1) ==
            RunActions(w, 3 * closed + strikes) + Appended(false, strikes, closed == 0, w + closed)
  {
    if strikes < 2 {
      NoWindow(w, closed, strikes);
    } else if closed == 0 {
      FirstWindow(w);
    } else {
      LaterWindow(w, closed);
      Regroup(RunActions(w, 3 * closed + 2), [], Decision(w + closed + 1));
    }
  }

  lemma LastLengthens(before: seq<nat>, n: nat, w: nat, more: seq<Action>)
    requires w == Windows(before) && RunActions(w, n + 1) == RunActions(w, n) + more
    ensures TraceTo(before, n + 1) == TraceTo(before, n) + more
  {
    Regroup(TraceBefore(before), RunActions(w, n), more);
  }

  lemma TraceFailure(h: Shape, before: seq<nat>, w: nat, n: nat)
    requires h.strikes < 3 && n == 3 * h.closed + h.strikes && w == Windows(before) && h.windows == w + h.closed
    ensures TraceTo(before, n + 1) == TraceTo(before, n) + Appended(false, h.strikes, h.closed == 0, h.windows)
  {
    var more := Appended(false, h.strikes, h.closed == 0, h.windows);
    RunLengthens(w, h.closed, h.strikes);
    LastLengthens(before, n, w, more);
  }

  lemma TraceOfSnoc(before: seq<nat>, n: nat)
    ensures TraceOf(before + [n]) == TraceTo(before, n)
  {
    assert Front(before + [n]) == before;
  }

  /** The shape in numbers, from the runs before the last. */
  lemma DescribedNumbers(h: Shape, runs: seq<nat>)
    requires Describes(h, runs)
    ensures h.strikes < 3 && Last(runs) == 3 * h.closed + h.strikes && h.windows == Windows(Front(runs)) + h.closed
  {
    DivideByThree(h.closed, h.strikes);
  }

  lemma TraceStepFailure(h: Shape, runs: seq<nat>)
    requires Describes(h, runs)
    ensures TraceOf(Front(runs) + [Last(runs) + 1]) ==
            TraceOf(runs) + Appended(false, h.strikes, h.closed == 0, h.windows)
  {
    DescribedNumbers(h, runs);
    TraceFailure(h, Front(runs), Windows(Front(runs)), Last(runs));
    TraceOfSnoc(Front(runs), Last(runs) + 1);
  }

  lemma TraceStep(h: Shape, runs: seq<nat>, ok: bool)
    requires Describes(h, runs)
    ensures TraceOf(NextRuns(runs, ok)) == TraceOf(runs) + Appended(ok, h.strikes, h.closed == 0, h.windows)
  {
    if ok {
      TraceSuccess(h, runs);
      TraceOfSnoc(runs, 0);
    } else {
      TraceStepFailure(h, runs);
    }
  }

  /** Closes a strike window: the cutoff once per episode, then one unit of the restart budget.
    * `w` counts the windows closed so far, `r` the recoveries. */
  method CloseWindow(trace: seq<Action>, wasHealthy: bool, crashCount: nat, terminated: bool, ghost w: nat, ghost r: nat)
    returns (trace': seq<Action>, crashCount': nat, terminated': bool)
    requires WellOrdered(trace) && TallyFits(TallyOf(trace), w, if wasHealthy then r else r + 1, r)
    requires crashCount == Min(MAX_CRASH_RESTARTS + 1, w) && (terminated <==> w > MAX_CRASH_RESTARTS)
    ensures WellOrdered(trace') && TallyFits(TallyOf(trace'), w + 1, r + 1, r)
    ensures crashCount' == Min(MAX_CRASH_RESTARTS + 1, w + 1) && (terminated' <==> w + 1 > MAX_CRASH_RESTARTS)
    ensures trace' == trace + Appended(false, 2, wasHealthy, w)
  {
    trace', crashCount', terminated' := trace, crashCount, terminated;
    if wasHealthy {
      AppendCutoff(trace', w, r);
      trace' := trace' + [TrayRed, EmitUnhealthy, ClearOsProxy];
    }
    Regroup(trace, if wasHealthy then CUTOFF else [], Decision(w + 1));
    if terminated {
      return;
    }
    crashCount' := crashCount + 1;
    match DecideUnhealthy(crashCount')
    case Terminate =>
      AppendTermination(trace', r);
      trace' := trace' + [MarkTerminated, EmitTerminated];
      terminated' := true;
    case Restart(backoffMs) =>
      BackoffOfAttempt(crashCount');
      AppendRestart(trace', w, r);
      trace' := trace' + [EmitRestarting, Backoff(backoffMs), Respawn];
  }

  /** The loop's variables between two cycles. */
  datatype Counters = Counters(failures: nat, wasHealthy: bool, crashCount: nat, terminated: bool)

  /** The trace and the counters agree with w closed windows and r recoveries. */
  ghost predicate InStep(trace: seq<Action>, c: Counters, w: nat, r: nat) {
    && WellOrdered(trace) && TallyFits(TallyOf(trace), w, if c.wasHealthy then r else r + 1, r)
    && c.crashCount == Min(MAX_CRASH_RESTARTS + 1, w)
    && (c.terminated <==> w > MAX_CRASH_RESTARTS)
  }

  /** One cycle of the loop. */
  method Cycle(ok: bool, trace: seq<Action>, c: Counters, ghost w: nat, ghost r: nat)
    returns (trace': seq<Action>, c': Counters, ghost w': nat, ghost r': nat)
    requires InStep(trace, c, w, r) && c.failures < HEALTH_FAILURE_THRESHOLD
    ensures InStep(trace', c', w', r')
    ensures c'.failures == if ok || c.failures == 2 then 0 else c.failures + 1
    ensures c'.wasHealthy <==> ok || (c.wasHealthy && c.failures < 2)
    ensures w' == if !ok && c.failures == 2 then w + 1 else w
    ensures r' == if ok && !c.wasHealthy then r + 1 else r
    ensures trace' == trace + Appended(ok, c.failures, c.wasHealthy, w)
  {
    w', r' := w, r;
    var failures, wasHealthy, crashCount, terminated := c.failures, c.wasHealthy, c.crashCount, c.terminated;
    trace' := trace;
    if ok {
      failures := 0;
      if !wasHealthy {
        AppendRecovery(trace, w, r);
        trace' := trace' + [TrayGreen, EmitHealthy];
        wasHealthy := true;
        r' := r + 1;
      }
    } else {
      failures := failures + 1;
      if failures >= HEALTH_FAILURE_THRESHOLD {
        trace', crashCount, terminated := CloseWindow(trace', wasHealthy, crashCount, terminated, w, r);
        failures, wasHealthy := 0, false;
        w' := w + 1;
      }
    }
    c' := Counters(failures, wasHealthy, crashCount, terminated);
  }

  /** Trace and counters are where runs of shape h put them. */
  ghost predicate Synced(h: Shape, trace: seq<Action>, c: Counters) {
    && c.failures == h.strikes < 3 && (c.wasHealthy <==> h.closed == 0)
    && InStep(trace, c, h.windows, h.recoveries)
  }

  /** One cycle, given the shape of the runs before it. */
  method NextCycle(ok: bool, trace: seq<Action>, c: Counters, ghost h: Shape)
    returns (trace': seq<Action>, c': Counters)
    requires Synced(h, trace, c)
    ensures Synced(NextShape(h, ok), trace', c')
    ensures trace' == trace + Appended(ok, h.strikes, h.closed == 0, h.windows)
  {
    ghost var w, r;
    trace', c', w, r := Cycle(ok, trace, c, h.windows, h.recoveries);
  }

  /** The runs and the trace they call for. */
  ghost predicate Traced(h: Shape, runs: seq<nat>, trace: seq<Action>) {
    Describes(h, runs) && trace == TraceOf(runs)
  }

  lemma TracedStep(h: Shape, runs: seq<nat>, trace: seq<Action>, ok: bool)
    requires Traced(h, runs, trace)
    ensures Traced(NextShape(h, ok), NextRuns(runs, ok), trace + Appended(ok, h.strikes, h.closed == 0, h.windows))
  {
    DescribesStep(h, runs, ok);
    TraceStep(h, runs, ok);
  }

  /** One run of the poll loop over any finite prefix of outcomes (true = `/healthz` succeeded).
    * The restart outcome does not feed back into the loop, so it is not a parameter. */
  method Poll(outcomes: seq<bool>) returns (trace: seq<Action>, terminated: bool)
    ensures trace == TraceOf(Runs(outcomes))
    ensures CountsMatch(trace, outcomes)
    ensures WellOrdered(trace)
    ensures terminated <==> Windows(Runs(outcomes)) >= 4
  {
    var c := Counters(0, true, 0, false);
    trace := [];
    ghost var h, runs := Shape(0, 0, 0, 0), [0];
    StartSynced();
    StartTraced();
    for i := 0 to |outcomes|
      invariant |runs| > 0 && runs == Runs(outcomes[..i])
      invariant Synced(h, trace, c) && Traced(h, runs, trace)
    {
      TracedStep(h, runs, trace, outcomes[i]);
      RunsUpTo(outcomes, i);
      trace, c := NextCycle(outcomes[i], trace, c, h);
      h, runs := NextShape(h, outcomes[i]), NextRuns(runs, outcomes[i]);
    }
    assert outcomes[..|outcomes|] == outcomes;
    SyncedMeans(h, runs, trace, c);
    terminated := c.terminated;
  }

  lemma StartSynced()
    ensures Synced(Shape(0, 0, 0, 0), [], Counters(0, true, 0, false))
  {
    assert TallyOf([]) == NOTHING;
  }

  lemma StartTraced()
    ensures Runs([]) == [0] && Traced(Shape(0, 0, 0, 0), [0], [])
  {
    StartDescribed();
    StartTrace();
  }

  lemma StartTrace()
    ensures TraceOf([0]) == []
  {
    TraceOfSnoc([], 0);
    assert [] + [0] == [0];
    assert TraceBefore([]) == [] && RunActions(0, 0) == [];
  }

  lemma StartDescribed()
    ensures Describes(Shape(0, 0, 0, 0), [0])
  {
    LastRun([], 0);
    assert [] + [0] == [0];
  }

  lemma RunsUpTo(outcomes: seq<bool>, i: nat)
    requires i < |outcomes|
    ensures Runs(outcomes[..i + 1]) == NextRuns(Runs(outcomes[..i]), outcomes[i])
  {
    assert outcomes[..i + 1] == outcomes[..i] + [outcomes[i]];
    RunsSnoc(outcomes[..i], outcomes[i]);
  }

  lemma SyncedMeans(h: Shape, runs: seq<nat>, trace: seq<Action>, c: Counters)
    requires Synced(h, trace, c) && Describes(h, runs)
    ensures TallyFits(TallyOf(trace), Windows(runs), Episodes(runs), Recoveries(runs)) && WellOrdered(trace)
    ensures c.terminated <==> Windows(runs) >= 4
  {}

  /** The k-th attempt waits 1000 * 2^(k-1) ms; the shift stays at most 2, so nothing is lost to the 64-bit width. */
  lemma BackoffOfAttempt(k: nat)
    requires 1 <= k <= MAX_CRASH_RESTARTS
    ensures DecideUnhealthy(k) == Restart(1000 * Pow2(k - 1))
    ensures BackoffSchedule(k) == BackoffSchedule(k - 1) + [1000 * Pow2(k - 1)]
    ensures 1000 * Pow2(k - 1) <= 4000
  {
    assert Pow2(0) == 1 && Pow2(1) == 2 && Pow2(2) == 4;
  }

  /** However long the run, the loop never spends more than 7 s in backoff. */
  lemma TotalBackoffBounded(trace: seq<Action>, outcomes: seq<bool>)
    requires CountsMatch(trace, outcomes)
    ensures Total(TallyOf(trace).backoffs) == 1000 * (Pow2(Min(MAX_CRASH_RESTARTS, Windows(Runs(outcomes)))) - 1) <= 7000
  {
    var k := Min(MAX_CRASH_RESTARTS, Windows(Runs(outcomes)));
    assert BackoffSchedule(3) == [1000, 2000, 4000];
    assert k > 0 ==> BackoffSchedule(k)[..k - 1] == BackoffSchedule(k - 1);
    assert k > 1 ==> BackoffSchedule(k - 1)[..k - 2] == BackoffSchedule(k - 2);
    assert k > 2 ==> BackoffSchedule(k - 2)[..k - 3] == BackoffSchedule(k - 3);
    assert Pow2(0) == 1 && Pow2(1) == 2 && Pow2(2) == 4 && Pow2(3) == 8;
  }
}
