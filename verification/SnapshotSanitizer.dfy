/** The untrusted-response sanitizer of the authoritative snapshot (`src/lib/ipc.ts`), with the exceptions a numeric
  * conversion may raise. */
module SnapshotSanitizer {
  import opened Optional
  import opened JsText
  import opened JsonValue
  import opened SnapshotWire

  const MAX_SNAPSHOT_ENTRIES := 4096
  const SNAPSHOT_STR_MAX := 512
  const SNAPSHOT_ARR_MAX := 64
  const SNAPSHOT_TS_MAX := 4_102_444_800.0
  const MAX_SAFE_INTEGER := 9_007_199_254_740_991.0
  const REASON_MAX := 1024
  const ACTION_MAX := 256

  predicate IsInteger(x: real) { x == x.Floor as real }

  function Slice(t: Text, max: nat): (r: Text)
    ensures r <= t && |r| == if |t| > max then max else |t|
  {
    if |t| > max then t[..max] else t
  }

  /** Control characters become spaces. */
  function Blank(t: Text): (r: Text)
    ensures |r| == |t|
  {
    seq(|t|, i requires 0 <= i < |t| => if t[i] <= 0x1F || t[i] == 0x7F then 0x20 else t[i])
  }

  /** The first `max` items of an array. */
  function FirstItems(v: Value, max: nat): (r: seq<Value>)
    ensures |r| <= max
  {
    if !v.Arr? then [] else if |v.items| > max then v.items[..max] else v.items
  }

  /** What f accepts of the items, in order. */
  function Accepted<T>(items: seq<Value>, f: Value -> Option<T>): (r: seq<T>)
    ensures |r| <= |items|
  {
    if items == [] then []
    else
      var rest := Accepted(items[1..], f);
      if f(items[0]).Some? then [f(items[0]).value] + rest else rest
  }

  /** The same for a reader that may throw, which ends it. */
  function TryAccepted<T>(items: seq<Value>, f: Value -> Try<Option<T>>): (r: Try<seq<T>>)
    ensures r.Done? ==> |r.value| <= |items|
  {
    if items == [] then Done([])
    else
      var first :- f(items[0]);
      var rest :- TryAccepted(items[1..], f);
      Done(if first.Some? then [first.value] + rest else rest)
  }

  // ---------------------------------------------------------------------
  // Field sanitizers
  // ---------------------------------------------------------------------

  function SnapStr(v: Value): Text { Slice(if v.Str? then v.text else [], SNAPSHOT_STR_MAX) }

  function NonEmptyStr(v: Value): Option<Text> {
    if SnapStr(v) == [] then None else Some(SnapStr(v))
  }

  function SnapStrArr(v: Value): seq<Text> { Accepted(FirstItems(v, SNAPSHOT_ARR_MAX), NonEmptyStr) }

  function SnapTs(v: Value, conv: Conversion): Try<Option<real>> {
    if v.Missing? || v.Null? then Done(None)
    else
      var n :- Number(v, conv);
      Done(if n.None? || n.value < 0.0 || n.value > SNAPSHOT_TS_MAX then None else n)
  }

  /** `snapCounter`, and the counts of a subscription row. */
  function SnapCounter(v: Value, conv: Conversion): Try<real> {
    var n :- Number(v, conv);
    Done(if n.Some? && 0.0 <= n.value <= MAX_SAFE_INTEGER then n.value else 0.0)
  }

  function SnapPortNumber(v: Value, conv: Conversion): Try<Option<nat>> {
    var n :- Number(v, conv);
    Done(if n.None? || !IsInteger(n.value) || n.value < 0.0 || n.value > 65535.0 then None else Some(n.value.Floor))
  }

  function IsTrue(v: Value): bool { v == Bool(true) }

  /** An optional message: empty counts as absent. */
  function SnapMessage(v: Value): Option<Text> {
    if v.Missing? || v.Null? then None else NonEmptyStr(v)
  }

  // ---------------------------------------------------------------------
  // Rows
  // ---------------------------------------------------------------------

  datatype Platform =
    | ConsistentPlatform(
        name: Text, id: Text, regions: seq<Text>, policy: Text, aClass: Text, bClass: Text,
        manualNodes: seq<Text>, subscriptions: seq<Text>, acknowledged: bool)
    | DivergentPlatform(
        name: Text, id: Text, whiteboxRegions: seq<Text>, resinRegions: seq<Text>, policy: Text, aClass: Text,
        bClass: Text, manualNodes: seq<Text>, subscriptions: seq<Text>, since: Option<real>, acknowledged: bool)
    | MissingPlatform(
        name: Text, id: Text, regions: seq<Text>, aClass: Text, bClass: Text,
        manualNodes: seq<Text>, subscriptions: seq<Text>, since: Option<real>, acknowledged: bool)

  function SnapPlatform(v: Value, conv: Conversion): Try<Option<Platform>> {
    if !IsObject(v) then Done(None)
    else
      var name, id := SnapStr(Get(v, PlatformName)), SnapStr(Get(v, PlatformId));
      var aClass, bClass := SnapStr(Get(v, AClass)), SnapStr(Get(v, BClass));
      var manual, subs := SnapStrArr(Get(v, ManualNodes)), SnapStrArr(Get(v, Subscriptions));
      var ack := IsTrue(Get(v, Acknowledged));
      if Get(v, State) == Str(Tag("consistent")) then
        Done(Some(ConsistentPlatform(name, id, SnapStrArr(Get(v, Regions)), SnapStr(Get(v, AllocationPolicy)), aClass,
                                     bClass, manual, subs, ack)))
      else if Get(v, State) == Str(Tag("divergent")) then
        var since :- SnapTs(Get(v, DivergentSince), conv);
        Done(Some(DivergentPlatform(name, id, SnapStrArr(Get(v, WhiteboxRegions)), SnapStrArr(Get(v, ResinRegions)),
                                    SnapStr(Get(v, AllocationPolicy)), aClass, bClass, manual, subs, since, ack)))
      else if Get(v, State) == Str(Tag("missingOnResin")) then
        var since :- SnapTs(Get(v, DivergentSince), conv);
        Done(Some(MissingPlatform(name, id, SnapStrArr(Get(v, Regions)), aClass, bClass, manual, subs, since, ack)))
      else Done(None)
  }

  datatype PortRow =
    | ConsistentPort(port: nat, name: Text, protocol: Text, account: Text, caption: Text, enabled: bool, auth: bool,
                     acknowledged: bool)
    | MissingPort(port: nat, name: Text, protocol: Text, account: Text, caption: Text, auth: bool, since: Option<real>,
                  acknowledged: bool)

  function SnapPort(v: Value, conv: Conversion): Try<Option<PortRow>> {
    if !IsObject(v) then Done(None)
    else
      var port :- SnapPortNumber(Get(v, Port), conv);
      if port.None? then Done(None)
      else
        var name, protocol := SnapStr(Get(v, PlatformName)), SnapStr(Get(v, Protocol));
        var account, caption := SnapStr(Get(v, Account)), SnapStr(Get(v, Label));
        var auth, ack := IsTrue(Get(v, AuthRequired)), IsTrue(Get(v, Acknowledged));
        if Get(v, State) == Str(Tag("consistent")) then
          Done(Some(ConsistentPort(port.value, name, protocol, account, caption, IsTrue(Get(v, Enabled)), auth, ack)))
        else if Get(v, State) == Str(Tag("missingOnResin")) then
          var since :- SnapTs(Get(v, DivergentSince), conv);
          Done(Some(MissingPort(port.value, name, protocol, account, caption, auth, since, ack)))
        else Done(None)
  }

  datatype RouteRow =
    | ConsistentRoute(process: Text, port: nat, acknowledged: bool)
    | MissingRoute(process: Text, port: nat, since: Option<real>, acknowledged: bool)

  function SnapRoute(v: Value, conv: Conversion): Try<Option<RouteRow>> {
    if !IsObject(v) || SnapStr(Get(v, Process)) == [] then Done(None)
    else
      var process, ack := SnapStr(Get(v, Process)), IsTrue(Get(v, Acknowledged));
      var port :- SnapPortNumber(Get(v, TargetPort), conv);
      if port.None? then Done(None)
      else if Get(v, State) == Str(Tag("consistent")) then Done(Some(ConsistentRoute(process, port.value, ack)))
      else if Get(v, State) == Str(Tag("missingOnResin")) then
        var since :- SnapTs(Get(v, DivergentSince), conv);
        Done(Some(MissingRoute(process, port.value, since, ack)))
      else Done(None)
  }

  datatype SubscriptionRow =
    SubscriptionRow(name: Text, nodes: real, healthy: real, consumedBy: seq<Text>, resolvable: bool)

  function SnapSubscription(v: Value, conv: Conversion): Try<Option<SubscriptionRow>> {
    if !IsObject(v) || SnapStr(Get(v, Name)) == [] then Done(None)
    else
      var nodes :- SnapCounter(Get(v, NodeCount), conv);
      var healthy :- SnapCounter(Get(v, HealthyNodeCount), conv);
      Done(Some(SubscriptionRow(SnapStr(Get(v, Name)), nodes, healthy, SnapStrArr(Get(v, ConsumedBy)),
                                IsTrue(Get(v, Resolvable)))))
  }

  // ---------------------------------------------------------------------
  // Cascade phases
  // ---------------------------------------------------------------------

  const PHASES := [Tag("Never"), Tag("Importing"), Tag("Establishing"), Tag("Converged"), Tag("Failed"), Tag("NeedsApproval")]
  const STAGES := [Tag("import"), Tag("resolve"), Tag("platform"), Tag("bind"), Tag("port"), Tag("apply")]

  function Choice(v: Value, choices: seq<Text>): Option<Text> {
    if v.Str? && v.text in choices then Some(v.text) else None
  }

  datatype Cascade = Cascade(stage: Text, reason: Text, actions: seq<Text>)

  function CleanAction(v: Value): Option<Text> {
    if v.Str? then Some(Slice(Trim(Blank(v.text)), ACTION_MAX)) else None
  }

  /** All of the array, no cap; an empty result is left out of the record. */
  function SnapCascade(v: Value): Option<Cascade> {
    if !v.Obj? then None
    else
      var stage := Choice(Get(v, Stage), STAGES);
      var reason := if Get(v, Reason).Str? then Slice(Trim(Get(v, Reason).text), REASON_MAX) else [];
      if stage.None? || reason == [] then None
      else
        var raw := Get(v, RollbackActions);
        Some(Cascade(stage.value, reason, if raw.Arr? then Accepted(raw.items, CleanAction) else []))
  }

  datatype PhaseRow =
    PhaseRow(name: Text, phase: Text, stage: Option<Text>, phaseError: Option<Text>, cascade: Option<Cascade>)

  function SnapPhase(v: Value): Option<PhaseRow> {
    if !IsObject(v) || SnapStr(Get(v, Name)) == [] then None
    else
      var phase := Choice(Get(v, Phase), PHASES);
      Some(PhaseRow(
        SnapStr(Get(v, Name)),
        if phase.Some? then phase.value else Tag("Never"),
        Choice(Get(v, Stage), STAGES),
        SnapMessage(Get(v, PhaseError)),
        SnapCascade(Get(v, LastCascadeError))))
  }

  // ---------------------------------------------------------------------
  // The snapshot
  // ---------------------------------------------------------------------

  const CONVERGE_PHASES :=
    [Tag("NeverApplied"), Tag("PendingApply"), Tag("ApplyFailed"), Tag("Converged"), Tag("Drifted"), Tag("Unknown")]

  datatype Snapshot = Snapshot(
    strategyVersion: nat,
    platforms: seq<Platform>, ports: seq<PortRow>, routes: seq<RouteRow>, subscriptions: seq<SubscriptionRow>,
    phases: seq<PhaseRow>,
    resinReachable: bool, lastCheckedAt: real, strategyGeneration: real, appliedGeneration: real,
    convergePhase: Text, lastApplyAt: Option<real>, lastApplyError: Option<Text>)

  function PlatformReader(conv: Conversion): Value -> Try<Option<Platform>> { v => SnapPlatform(v, conv) }
  function PortReader(conv: Conversion): Value -> Try<Option<PortRow>> { v => SnapPort(v, conv) }
  function RouteReader(conv: Conversion): Value -> Try<Option<RouteRow>> { v => SnapRoute(v, conv) }
  function SubscriptionReader(conv: Conversion): Value -> Try<Option<SubscriptionRow>> { v => SnapSubscription(v, conv) }

  /** The rows of one family. */
  function Rows<T>(v: Value, f: Value -> Try<Option<T>>): Try<seq<T>> {
    TryAccepted(FirstItems(v, MAX_SNAPSHOT_ENTRIES), f)
  }

  function Phases(v: Value): seq<PhaseRow> { Accepted(FirstItems(v, MAX_SNAPSHOT_ENTRIES), SnapPhase) }

  function SnapConvergePhase(v: Value): Text {
    var phase := Choice(v, CONVERGE_PHASES);
    if phase.Some? then phase.value else Tag("Unknown")
  }

  /** `snapSnapshot`, fields in the order the source evaluates them. */
  function SnapSnapshot(v: Value, conv: Conversion): Try<Snapshot> {
    var version :- Number(Get(v, StrategyVersion), conv);
    var platforms :- Rows(Get(v, Platforms), PlatformReader(conv));
    var ports :- Rows(Get(v, Ports), PortReader(conv));
    var routes :- Rows(Get(v, Routes), RouteReader(conv));
    var subscriptions :- Rows(Get(v, Subscriptions), SubscriptionReader(conv));
    var checked :- SnapTs(Get(v, LastCheckedAt), conv);
    var generation :- SnapCounter(Get(v, StrategyGeneration), conv);
    var applied :- SnapCounter(Get(v, StrategyAppliedGeneration), conv);
    var applyAt :- SnapTs(Get(v, LastApplyAt), conv);
    Done(Snapshot(
      if version == Some(1.0) then 1 else 0, platforms, ports, routes, subscriptions, Phases(Get(v, SubscriptionPhases)),
      IsTrue(Get(v, ResinReachable)), if checked.Some? then checked.value else 0.0, generation, applied,
      SnapConvergePhase(Get(v, ConvergePhase)), applyAt, SnapMessage(Get(v, LastApplyError))))
  }
}
