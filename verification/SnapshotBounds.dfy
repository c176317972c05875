/** The bounds every sanitized snapshot meets. */
module SnapshotBounds {
  import opened Optional
  import opened JsText
  import opened JsonValue
  import opened SnapshotWire
  import opened SnapshotSanitizer

  predicate StrOk(t: Text) { |t| <= SNAPSHOT_STR_MAX }

  predicate ArrOk(a: seq<Text>) {
    |a| <= SNAPSHOT_ARR_MAX && forall i :: 0 <= i < |a| ==> StrOk(a[i]) && a[i] != []
  }

  predicate TsOk(t: Option<real>) { t.Some? ==> 0.0 <= t.value <= SNAPSHOT_TS_MAX }

  predicate CounterOk(x: real) { 0.0 <= x <= MAX_SAFE_INTEGER }

  predicate MessageOk(m: Option<Text>) { m.Some? ==> StrOk(m.value) && m.value != [] }

  predicate PlatformArraysOk(p: Platform) {
    && ArrOk(p.manualNodes) && ArrOk(p.subscriptions)
    && (!p.DivergentPlatform? ==> ArrOk(p.regions))
    && (p.DivergentPlatform? ==> ArrOk(p.whiteboxRegions) && ArrOk(p.resinRegions))
  }

  predicate PlatformOk(p: Platform) {
    && StrOk(p.name) && StrOk(p.id) && StrOk(p.aClass) && StrOk(p.bClass)
    && (!p.MissingPlatform? ==> StrOk(p.policy))
    && PlatformArraysOk(p)
    && (!p.ConsistentPlatform? ==> TsOk(p.since))
  }

  predicate PortOk(p: PortRow) {
    && p.port <= 65535 && StrOk(p.name) && StrOk(p.protocol) && StrOk(p.account) && StrOk(p.caption)
    && (p.MissingPort? ==> TsOk(p.since))
  }

  predicate RouteOk(r: RouteRow) {
    && r.port <= 65535 && StrOk(r.process) && r.process != []
    && (r.MissingRoute? ==> TsOk(r.since))
  }

  predicate SubscriptionOk(s: SubscriptionRow) {
    StrOk(s.name) && s.name != [] && CounterOk(s.nodes) && CounterOk(s.healthy) && ArrOk(s.consumedBy)
  }

  predicate CascadeOk(c: Cascade) {
    && c.stage in STAGES && c.reason != [] && |c.reason| <= REASON_MAX && !White(c.reason[0])
    && forall i :: 0 <= i < |c.actions| ==> ActionOk(c.actions[i])
  }

  predicate ActionOk(t: Text) {
    && |t| <= ACTION_MAX && (t != [] ==> !White(t[0]))
    && forall i :: 0 <= i < |t| ==> t[i] > 0x1F && t[i] != 0x7F
  }

  predicate PhaseOk(p: PhaseRow) {
    && StrOk(p.name) && p.name != [] && p.phase in PHASES && MessageOk(p.phaseError)
    && (p.stage.Some? ==> p.stage.value in STAGES)
    && (p.cascade.Some? ==> CascadeOk(p.cascade.value))
  }

  ghost predicate AllOk<T>(rows: seq<T>, ok: T -> bool) {
    |rows| <= MAX_SNAPSHOT_ENTRIES && forall i :: 0 <= i < |rows| ==> ok(rows[i])
  }

  predicate ScalarsOk(s: Snapshot) {
    && s.strategyVersion <= 1
    && TsOk(Some(s.lastCheckedAt)) && CounterOk(s.strategyGeneration) && CounterOk(s.appliedGeneration)
    && s.convergePhase in CONVERGE_PHASES && TsOk(s.lastApplyAt) && MessageOk(s.lastApplyError)
  }

  ghost predicate SnapshotOk(s: Snapshot) {
    && AllOk(s.platforms, PlatformOk) && AllOk(s.ports, PortOk) && AllOk(s.routes, RouteOk)
    && AllOk(s.subscriptions, SubscriptionOk) && AllOk(s.phases, PhaseOk)
    && ScalarsOk(s)
  }

  lemma {:induction false} AcceptedAll<T>(items: seq<Value>, f: Value -> Option<T>, i: nat) returns (v: Value)
    requires i < |Accepted(items, f)|
    ensures f(v) == Some(Accepted(items, f)[i])
  {
    if f(items[0]).None? {
      v := AcceptedAll(items[1..], f, i);
    } else if i == 0 {
      v := items[0];
    } else {
      v := AcceptedAll(items[1..], f, i - 1);
    }
  }

  lemma {:induction false} TryAcceptedAll<T>(items: seq<Value>, f: Value -> Try<Option<T>>, i: nat) returns (v: Value)
    requires TryAccepted(items, f).Done? && i < |TryAccepted(items, f).value|
    ensures f(v) == Done(Some(TryAccepted(items, f).value[i]))
  {
    if f(items[0]).value.None? {
      v := TryAcceptedAll(items[1..], f, i);
    } else if i == 0 {
      v := items[0];
    } else {
      v := TryAcceptedAll(items[1..], f, i - 1);
    }
  }

  /** Whatever f guarantees of what it accepts holds of every collected row. */
  lemma RowFrom<T>(v: Value, f: Value -> Try<Option<T>>, i: nat) returns (w: Value)
    requires Rows(v, f).Done? && i < |Rows(v, f).value|
    ensures f(w) == Done(Some(Rows(v, f).value[i]))
  {
    w := TryAcceptedAll(FirstItems(v, MAX_SNAPSHOT_ENTRIES), f, i);
  }

  lemma StrArrOk(v: Value)
    ensures ArrOk(SnapStrArr(v))
  {
    forall i | 0 <= i < |SnapStrArr(v)| ensures StrOk(SnapStrArr(v)[i]) && SnapStrArr(v)[i] != [] {
      var w := AcceptedAll(FirstItems(v, SNAPSHOT_ARR_MAX), NonEmptyStr, i);
    }
  }

  lemma PlatformBounded(v: Value, conv: Conversion, p: Platform)
    requires SnapPlatform(v, conv) == Done(Some(p))
    ensures PlatformOk(p)
  {
    PlatformArrays(v, conv, p);
    assert forall t :: StrOk(SnapStr(t));
  }

  lemma PlatformArrays(v: Value, conv: Conversion, p: Platform)
    requires SnapPlatform(v, conv) == Done(Some(p))
    ensures PlatformArraysOk(p)
  {
    StrArrOk(Get(v, ManualNodes));
    StrArrOk(Get(v, Subscriptions));
    StrArrOk(Get(v, Regions));
    StrArrOk(Get(v, WhiteboxRegions));
    StrArrOk(Get(v, ResinRegions));
  }

  lemma ActionBounded(v: Value)
    ensures CleanAction(v).Some? ==> ActionOk(CleanAction(v).value)
  {
    if v.Str? {
      TrimKeeps(Blank(v.text));
    }
  }

  lemma PhaseBounded(v: Value)
    ensures SnapPhase(v).Some? ==> PhaseOk(SnapPhase(v).value)
  {
    var c := Get(v, LastCascadeError);
    if SnapCascade(c).Some? && Get(c, RollbackActions).Arr? {
      var items := Get(c, RollbackActions).items;
      forall i | 0 <= i < |Accepted(items, CleanAction)| ensures ActionOk(Accepted(items, CleanAction)[i]) {
        var w := AcceptedAll(items, CleanAction, i);
        ActionBounded(w);
      }
    }
    assert PHASES[0] == Tag("Never");
  }

  lemma PortBounded(v: Value, conv: Conversion, p: PortRow)
    requires SnapPort(v, conv) == Done(Some(p))
    ensures PortOk(p)
  {}

  lemma RouteBounded(v: Value, conv: Conversion, r: RouteRow)
    requires SnapRoute(v, conv) == Done(Some(r))
    ensures RouteOk(r)
  {}

  lemma SubscriptionBounded(v: Value, conv: Conversion, s: SubscriptionRow)
    requires SnapSubscription(v, conv) == Done(Some(s))
    ensures SubscriptionOk(s)
  {
    StrArrOk(Get(v, ConsumedBy));
  }

  lemma RowsBounded<T>(v: Value, f: Value -> Try<Option<T>>, ok: T -> bool)
    requires Rows(v, f).Done? && forall w :: f(w).Done? && f(w).value.Some? ==> ok(f(w).value.value)
    ensures AllOk(Rows(v, f).value, ok)
  {
    var rows := Rows(v, f).value;
    forall i | 0 <= i < |rows| ensures ok(rows[i]) {
      var w := RowFrom(v, f, i);
    }
  }

  lemma PlatformsBounded(v: Value, conv: Conversion)
    requires Rows(v, PlatformReader(conv)).Done?
    ensures AllOk(Rows(v, PlatformReader(conv)).value, PlatformOk)
  {
    var f := PlatformReader(conv);
    forall w | f(w).Done? && f(w).value.Some? ensures PlatformOk(f(w).value.value) { PlatformBounded(w, conv, f(w).value.value); }
    RowsBounded(v, PlatformReader(conv), PlatformOk);
  }

  lemma PortsBounded(v: Value, conv: Conversion)
    requires Rows(v, PortReader(conv)).Done?
    ensures AllOk(Rows(v, PortReader(conv)).value, PortOk)
  {
    var f := PortReader(conv);
    forall w | f(w).Done? && f(w).value.Some? ensures PortOk(f(w).value.value) { PortBounded(w, conv, f(w).value.value); }
    RowsBounded(v, PortReader(conv), PortOk);
  }

  lemma RoutesBounded(v: Value, conv: Conversion)
    requires Rows(v, RouteReader(conv)).Done?
    ensures AllOk(Rows(v, RouteReader(conv)).value, RouteOk)
  {
    var f := RouteReader(conv);
    forall w | f(w).Done? && f(w).value.Some? ensures RouteOk(f(w).value.value) { RouteBounded(w, conv, f(w).value.value); }
    RowsBounded(v, RouteReader(conv), RouteOk);
  }

  lemma SubscriptionsBounded(v: Value, conv: Conversion)
    requires Rows(v, SubscriptionReader(conv)).Done?
    ensures AllOk(Rows(v, SubscriptionReader(conv)).value, SubscriptionOk)
  {
    var f := SubscriptionReader(conv);
    forall w | f(w).Done? && f(w).value.Some? ensures SubscriptionOk(f(w).value.value) {
      SubscriptionBounded(w, conv, f(w).value.value);
    }
    RowsBounded(v, SubscriptionReader(conv), SubscriptionOk);
  }

  lemma PhasesBounded(v: Value)
    ensures AllOk(Phases(v), PhaseOk)
  {
    forall i | 0 <= i < |Phases(v)| ensures PhaseOk(Phases(v)[i]) {
      var w := AcceptedAll(FirstItems(v, MAX_SNAPSHOT_ENTRIES), SnapPhase, i);
      PhaseBounded(w);
    }
  }

  lemma NumbersBounded(v: Value, conv: Conversion)
    ensures SnapTs(v, conv).Done? ==> TsOk(SnapTs(v, conv).value)
    ensures SnapCounter(v, conv).Done? ==> CounterOk(SnapCounter(v, conv).value)
    ensures MessageOk(SnapMessage(v))
  {}

  lemma ConvergePhaseBounded(v: Value)
    ensures SnapConvergePhase(v) in CONVERGE_PHASES
  {
    assert CONVERGE_PHASES[5] == Tag("Unknown");
  }

  /** The scalars of s are what the field sanitizers make of v. */
  ghost predicate ScalarsOf(v: Value, conv: Conversion, s: Snapshot) {
    && s.strategyVersion == (if Number(Get(v, StrategyVersion), conv) == Done(Some(1.0)) then 1 else 0)
    && (s.resinReachable <==> Get(v, ResinReachable) == Bool(true))
    && SnapTs(Get(v, LastCheckedAt), conv) in {Done(Some(s.lastCheckedAt)), Done(None)}
    && (SnapTs(Get(v, LastCheckedAt), conv) == Done(None) ==> s.lastCheckedAt == 0.0)
    && SnapCounter(Get(v, StrategyGeneration), conv) == Done(s.strategyGeneration)
    && SnapCounter(Get(v, StrategyAppliedGeneration), conv) == Done(s.appliedGeneration)
    && s.convergePhase == SnapConvergePhase(Get(v, ConvergePhase))
    && SnapTs(Get(v, LastApplyAt), conv) == Done(s.lastApplyAt)
    && s.lastApplyError == SnapMessage(Get(v, LastApplyError))
  }

  lemma ScalarsAreTheirs(v: Value, conv: Conversion, s: Snapshot)
    requires SnapSnapshot(v, conv) == Done(s)
    ensures ScalarsOf(v, conv, s)
  {}

  lemma ScalarsBounded(v: Value, conv: Conversion, s: Snapshot)
    requires ScalarsOf(v, conv, s)
    ensures ScalarsOk(s)
  {
    NumbersBounded(Get(v, LastCheckedAt), conv);
    NumbersBounded(Get(v, StrategyGeneration), conv);
    NumbersBounded(Get(v, StrategyAppliedGeneration), conv);
    NumbersBounded(Get(v, LastApplyAt), conv);
    NumbersBounded(Get(v, LastApplyError), conv);
    ConvergePhaseBounded(Get(v, ConvergePhase));
  }

  /** Whatever the JSON value, a snapshot that is returned is within all length, range and tag bounds. */
  lemma SnapshotBounded(v: Value, conv: Conversion, s: Snapshot)
    requires SnapSnapshot(v, conv) == Done(s)
    ensures SnapshotOk(s)
  {
    PlatformsBounded(Get(v, Platforms), conv);
    PortsBounded(Get(v, Ports), conv);
    RoutesBounded(Get(v, Routes), conv);
    SubscriptionsBounded(Get(v, Subscriptions), conv);
    PhasesBounded(Get(v, SubscriptionPhases));
    ScalarsAreTheirs(v, conv, s);
    ScalarsBounded(v, conv, s);
  }
}
