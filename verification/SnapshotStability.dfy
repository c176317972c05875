/** Sanitizing a sanitized snapshot again. */
module SnapshotStability {
  import opened Optional
  import opened JsText
  import opened JsonValue
  import opened SnapshotWire
  import opened SnapshotSanitizer
  import opened SnapshotBounds

  // ---------------------------------------------------------------------
  // The output as JSON again
  // ---------------------------------------------------------------------

  function Strs(a: seq<Text>): Value { Arr(seq(|a|, i requires 0 <= i < |a| => Str(a[i]))) }

  function OptNum(t: Option<real>): Value { if t.Some? then Num(t.value) else Missing }

  function OptStr(t: Option<Text>): Value { if t.Some? then Str(t.value) else Missing }

  // A key whose value is `Missing` reads like an absent one.

  function PlatformJson(p: Platform): Value {
    match p
    case ConsistentPlatform(name, id, regions, policy, aClass, bClass, manual, subs, ack) =>
      Obj(map[
        State := Str(Tag("consistent")), PlatformName := Str(name), PlatformId := Str(id), Regions := Strs(regions),
        AllocationPolicy := Str(policy), AClass := Str(aClass), BClass := Str(bClass), ManualNodes := Strs(manual),
        Subscriptions := Strs(subs), Acknowledged := Bool(ack)])
    case DivergentPlatform(name, id, whitebox, resin, policy, aClass, bClass, manual, subs, since, ack) =>
      Obj(map[
        State := Str(Tag("divergent")), PlatformName := Str(name), PlatformId := Str(id),
        WhiteboxRegions := Strs(whitebox), ResinRegions := Strs(resin), AllocationPolicy := Str(policy),
        AClass := Str(aClass), BClass := Str(bClass), ManualNodes := Strs(manual), Subscriptions := Strs(subs),
        DivergentSince := OptNum(since), Acknowledged := Bool(ack)])
    case MissingPlatform(name, id, regions, aClass, bClass, manual, subs, since, ack) =>
      Obj(map[
        State := Str(Tag("missingOnResin")), PlatformName := Str(name), PlatformId := Str(id), Regions := Strs(regions),
        AClass := Str(aClass), BClass := Str(bClass), ManualNodes := Strs(manual), Subscriptions := Strs(subs),
        DivergentSince := OptNum(since), Acknowledged := Bool(ack)])
  }

  function PortJson(p: PortRow): Value {
    match p
    case ConsistentPort(port, name, protocol, account, caption, enabled, auth, ack) =>
      Obj(map[
        State := Str(Tag("consistent")), Port := Num(port as real), PlatformName := Str(name), Protocol := Str(protocol),
        Account := Str(account), Label := Str(caption), Enabled := Bool(enabled), AuthRequired := Bool(auth),
        Acknowledged := Bool(ack)])
    case MissingPort(port, name, protocol, account, caption, auth, since, ack) =>
      Obj(map[
        State := Str(Tag("missingOnResin")), Port := Num(port as real), PlatformName := Str(name),
        Protocol := Str(protocol), Account := Str(account), Label := Str(caption), AuthRequired := Bool(auth),
        DivergentSince := OptNum(since), Acknowledged := Bool(ack)])
  }

  function RouteJson(r: RouteRow): Value {
    match r
    case ConsistentRoute(process, port, ack) =>
      Obj(map[State := Str(Tag("consistent")), Process := Str(process), TargetPort := Num(port as real),
              Acknowledged := Bool(ack)])
    case MissingRoute(process, port, since, ack) =>
      Obj(map[State := Str(Tag("missingOnResin")), Process := Str(process), TargetPort := Num(port as real),
              DivergentSince := OptNum(since), Acknowledged := Bool(ack)])
  }

  function SubscriptionJson(s: SubscriptionRow): Value {
    Obj(map[Name := Str(s.name), NodeCount := Num(s.nodes), HealthyNodeCount := Num(s.healthy),
            ConsumedBy := Strs(s.consumedBy), Resolvable := Bool(s.resolvable)])
  }

  function CascadeJson(c: Cascade): Value {
    Obj(map[Stage := Str(c.stage), Reason := Str(c.reason), RollbackActions := Strs(c.actions)])
  }

  function OptCascade(c: Option<Cascade>): Value { if c.Some? then CascadeJson(c.value) else Missing }

  function PhaseJson(p: PhaseRow): Value {
    Obj(map[Name := Str(p.name), Phase := Str(p.phase), Stage := OptStr(p.stage), PhaseError := OptStr(p.phaseError),
            LastCascadeError := OptCascade(p.cascade)])
  }

  function RowsJson<T>(rows: seq<T>, f: T -> Value): Value { Arr(seq(|rows|, i requires 0 <= i < |rows| => f(rows[i]))) }

  function SnapshotJson(s: Snapshot): Value {
    Obj(map[
      StrategyVersion := Num(s.strategyVersion as real), Platforms := RowsJson(s.platforms, PlatformJson),
      Ports := RowsJson(s.ports, PortJson), Routes := RowsJson(s.routes, RouteJson),
      Subscriptions := RowsJson(s.subscriptions, SubscriptionJson), SubscriptionPhases := RowsJson(s.phases, PhaseJson),
      ResinReachable := Bool(s.resinReachable), LastCheckedAt := Num(s.lastCheckedAt),
      StrategyGeneration := Num(s.strategyGeneration), StrategyAppliedGeneration := Num(s.appliedGeneration),
      ConvergePhase := Str(s.convergePhase), LastApplyAt := OptNum(s.lastApplyAt),
      LastApplyError := OptStr(s.lastApplyError)])
  }

  // ---------------------------------------------------------------------
  // Sanitizing again
  // ---------------------------------------------------------------------

  lemma {:induction false} AcceptedBack<T>(rows: seq<T>, items: seq<Value>, f: Value -> Option<T>)
    requires |items| == |rows| && forall i :: 0 <= i < |rows| ==> f(items[i]) == Some(rows[i])
    ensures Accepted(items, f) == rows
  {
    if rows != [] {
      AcceptedBack(rows[1..], items[1..], f);
    }
  }

  lemma {:induction false} TryAcceptedBack<T>(rows: seq<T>, items: seq<Value>, f: Value -> Try<Option<T>>)
    requires |items| == |rows| && forall i :: 0 <= i < |rows| ==> f(items[i]) == Done(Some(rows[i]))
    ensures TryAccepted(items, f) == Done(rows)
  {
    if rows != [] {
      TryAcceptedBack(rows[1..], items[1..], f);
      assert rows == [rows[0]] + rows[1..];
    }
  }

  lemma StrsBack(a: seq<Text>)
    requires ArrOk(a)
    ensures SnapStrArr(Strs(a)) == a
  {
    forall i | 0 <= i < |a| ensures NonEmptyStr(Strs(a).items[i]) == Some(a[i]) {
    }
    AcceptedBack(a, Strs(a).items, NonEmptyStr);
  }

  /** What the reader sees of a printed platform, in every state. */
  predicate PlatformReads(v: Value, p: Platform) {
    && v.Obj?
    && Get(v, PlatformName) == Str(p.name) && Get(v, PlatformId) == Str(p.id)
    && Get(v, AClass) == Str(p.aClass) && Get(v, BClass) == Str(p.bClass)
    && Get(v, ManualNodes) == Strs(p.manualNodes) && Get(v, Subscriptions) == Strs(p.subscriptions)
    && Get(v, Acknowledged) == Bool(p.acknowledged)
  }

  /** And what it sees in the platform's own state. */
  predicate PlatformStateReads(v: Value, p: Platform) {
    match p
    case ConsistentPlatform(_, _, regions, policy, _, _, _, _, _) =>
      && Get(v, State) == Str(Tag("consistent")) && Get(v, Regions) == Strs(regions)
      && Get(v, AllocationPolicy) == Str(policy)
    case DivergentPlatform(_, _, whitebox, resin, policy, _, _, _, _, since, _) =>
      && Get(v, State) == Str(Tag("divergent")) && Get(v, WhiteboxRegions) == Strs(whitebox)
      && Get(v, ResinRegions) == Strs(resin) && Get(v, AllocationPolicy) == Str(policy)
      && Get(v, DivergentSince) == OptNum(since)
    case MissingPlatform(_, _, regions, _, _, _, _, since, _) =>
      && Get(v, State) == Str(Tag("missingOnResin")) && Get(v, Regions) == Strs(regions)
      && Get(v, DivergentSince) == OptNum(since)
  }

  lemma ConsistentPlatformReads(p: Platform)
    requires p.ConsistentPlatform?
    ensures PlatformReads(PlatformJson(p), p)
  {}

  lemma DivergentPlatformReads(p: Platform)
    requires p.DivergentPlatform?
    ensures PlatformReads(PlatformJson(p), p)
  {}

  lemma MissingPlatformReads(p: Platform)
    requires p.MissingPlatform?
    ensures PlatformReads(PlatformJson(p), p)
  {}

  lemma ConsistentPlatformStateReads(p: Platform)
    requires p.ConsistentPlatform?
    ensures PlatformStateReads(PlatformJson(p), p)
  {}

  lemma DivergentPlatformStateReads(p: Platform)
    requires p.DivergentPlatform?
    ensures PlatformStateReads(PlatformJson(p), p)
  {}

  lemma MissingPlatformStateReads(p: Platform)
    requires p.MissingPlatform?
    ensures PlatformStateReads(PlatformJson(p), p)
  {}

  lemma ConsistentPlatformFrom(v: Value, p: Platform, conv: Conversion)
    requires p.ConsistentPlatform? && PlatformOk(p) && PlatformReads(v, p) && PlatformStateReads(v, p)
    ensures SnapPlatform(v, conv) == Done(Some(p))
  {
    StrsBack(p.manualNodes);
    StrsBack(p.subscriptions);
    StrsBack(p.regions);
  }

  lemma DivergentPlatformFrom(v: Value, p: Platform, conv: Conversion)
    requires p.DivergentPlatform? && PlatformOk(p) && PlatformReads(v, p) && PlatformStateReads(v, p)
    ensures SnapPlatform(v, conv) == Done(Some(p))
  {
    StrsBack(p.manualNodes);
    StrsBack(p.subscriptions);
    StrsBack(p.whiteboxRegions);
    StrsBack(p.resinRegions);
  }

  lemma MissingPlatformFrom(v: Value, p: Platform, conv: Conversion)
    requires p.MissingPlatform? && PlatformOk(p) && PlatformReads(v, p) && PlatformStateReads(v, p)
    ensures SnapPlatform(v, conv) == Done(Some(p))
  {
    StrsBack(p.manualNodes);
    StrsBack(p.subscriptions);
    StrsBack(p.regions);
  }

  lemma PlatformBack(p: Platform, conv: Conversion)
    requires PlatformOk(p)
    ensures SnapPlatform(PlatformJson(p), conv) == Done(Some(p))
  {
    var v := PlatformJson(p);
    if p.ConsistentPlatform? {
      ConsistentPlatformReads(p);
      ConsistentPlatformStateReads(p);
      ConsistentPlatformFrom(v, p, conv);
    } else if p.DivergentPlatform? {
      DivergentPlatformReads(p);
      DivergentPlatformStateReads(p);
      DivergentPlatformFrom(v, p, conv);
    } else {
      MissingPlatformReads(p);
      MissingPlatformStateReads(p);
      MissingPlatformFrom(v, p, conv);
    }
  }

  predicate PortReads(v: Value, p: PortRow) {
    && v.Obj? && Get(v, Port) == Num(p.port as real) && Get(v, PlatformName) == Str(p.name)
    && Get(v, Protocol) == Str(p.protocol) && Get(v, Account) == Str(p.account) && Get(v, Label) == Str(p.caption)
    && Get(v, AuthRequired) == Bool(p.auth) && Get(v, Acknowledged) == Bool(p.acknowledged)
    && match p
       case ConsistentPort(_, _, _, _, _, enabled, _, _) =>
         Get(v, State) == Str(Tag("consistent")) && Get(v, Enabled) == Bool(enabled)
       case MissingPort(_, _, _, _, _, _, since, _) =>
         Get(v, State) == Str(Tag("missingOnResin")) && Get(v, DivergentSince) == OptNum(since)
  }

  lemma ConsistentPortReads(p: PortRow)
    requires p.ConsistentPort?
    ensures PortReads(PortJson(p), p)
  {}

  lemma MissingPortReads(p: PortRow)
    requires p.MissingPort?
    ensures PortReads(PortJson(p), p)
  {}

  lemma PortFrom(v: Value, p: PortRow, conv: Conversion)
    requires PortOk(p) && PortReads(v, p)
    ensures SnapPort(v, conv) == Done(Some(p))
  {}

  lemma PortBack(p: PortRow, conv: Conversion)
    requires PortOk(p)
    ensures SnapPort(PortJson(p), conv) == Done(Some(p))
  {
    if p.ConsistentPort? {
      ConsistentPortReads(p);
    } else {
      MissingPortReads(p);
    }
    PortFrom(PortJson(p), p, conv);
  }

  predicate RouteReads(v: Value, r: RouteRow) {
    && v.Obj? && Get(v, Process) == Str(r.process) && Get(v, TargetPort) == Num(r.port as real)
    && Get(v, Acknowledged) == Bool(r.acknowledged)
    && match r
       case ConsistentRoute(_, _, _) => Get(v, State) == Str(Tag("consistent"))
       case MissingRoute(_, _, since, _) =>
         Get(v, State) == Str(Tag("missingOnResin")) && Get(v, DivergentSince) == OptNum(since)
  }

  lemma RouteJsonReads(r: RouteRow)
    ensures RouteReads(RouteJson(r), r)
  {}

  lemma RouteFrom(v: Value, r: RouteRow, conv: Conversion)
    requires RouteOk(r) && RouteReads(v, r)
    ensures SnapRoute(v, conv) == Done(Some(r))
  {}

  lemma RouteBack(r: RouteRow, conv: Conversion)
    requires RouteOk(r)
    ensures SnapRoute(RouteJson(r), conv) == Done(Some(r))
  {
    RouteJsonReads(r);
    RouteFrom(RouteJson(r), r, conv);
  }

  predicate SubscriptionReads(v: Value, s: SubscriptionRow) {
    && v.Obj? && Get(v, Name) == Str(s.name) && Get(v, NodeCount) == Num(s.nodes)
    && Get(v, HealthyNodeCount) == Num(s.healthy) && Get(v, ConsumedBy) == Strs(s.consumedBy)
    && Get(v, Resolvable) == Bool(s.resolvable)
  }

  lemma SubscriptionJsonReads(s: SubscriptionRow)
    ensures SubscriptionReads(SubscriptionJson(s), s)
  {}

  lemma SubscriptionFrom(v: Value, s: SubscriptionRow, conv: Conversion)
    requires SubscriptionOk(s) && SubscriptionReads(v, s)
    ensures SnapSubscription(v, conv) == Done(Some(s))
  {
    StrsBack(s.consumedBy);
  }

  lemma SubscriptionBack(s: SubscriptionRow, conv: Conversion)
    requires SubscriptionOk(s)
    ensures SnapSubscription(SubscriptionJson(s), conv) == Done(Some(s))
  {
    SubscriptionJsonReads(s);
    SubscriptionFrom(SubscriptionJson(s), s, conv);
  }

  lemma RowsBack<T>(rows: seq<T>, toJson: T -> Value, f: Value -> Try<Option<T>>)
    requires |rows| <= MAX_SNAPSHOT_ENTRIES && forall i :: 0 <= i < |rows| ==> f(toJson(rows[i])) == Done(Some(rows[i]))
    ensures Rows(RowsJson(rows, toJson), f) == Done(rows)
  {
    TryAcceptedBack(rows, RowsJson(rows, toJson).items, f);
  }

  // ---------------------------------------------------------------------
  // What the second pass does to cascade texts
  // ---------------------------------------------------------------------

  // The first pass trims before it cuts, so a cut can leave white space at the end; the second pass trims that off.

  function TidyTexts(a: seq<Text>): (r: seq<Text>)
    ensures |r| == |a|
  {
    seq(|a|, i requires 0 <= i < |a| => Trim(a[i]))
  }

  function TidyCascade(c: Cascade): Cascade { Cascade(c.stage, Trim(c.reason), TidyTexts(c.actions)) }

  function TidyPhase(p: PhaseRow): PhaseRow {
    if p.cascade.None? then p else p.(cascade := Some(TidyCascade(p.cascade.value)))
  }

  function TidyPhases(rows: seq<PhaseRow>): (r: seq<PhaseRow>)
    ensures |r| == |rows|
  {
    seq(|rows|, i requires 0 <= i < |rows| => TidyPhase(rows[i]))
  }

  function Tidy(s: Snapshot): Snapshot { s.(phases := TidyPhases(s.phases)) }

  lemma ActionBack(t: Text)
    requires ActionOk(t)
    ensures CleanAction(Str(t)) == Some(Trim(t))
  {
    assert Blank(t) == t;
    TrimShrinks(t);
  }

  lemma ActionsBack(a: seq<Text>)
    requires forall i :: 0 <= i < |a| ==> ActionOk(a[i])
    ensures Accepted(Strs(a).items, CleanAction) == TidyTexts(a)
  {
    forall i | 0 <= i < |a| ensures CleanAction(Strs(a).items[i]) == Some(TidyTexts(a)[i]) { ActionBack(a[i]); }
    AcceptedBack(TidyTexts(a), Strs(a).items, CleanAction);
  }

  lemma ReasonBack(t: Text)
    requires t != [] && |t| <= REASON_MAX && !White(t[0])
    ensures Slice(Trim(t), REASON_MAX) == Trim(t) != []
  {
    TrimShrinks(t);
    TrimHead(t);
  }

  predicate CascadeReads(v: Value, c: Cascade) {
    v.Obj? && Get(v, Stage) == Str(c.stage) && Get(v, Reason) == Str(c.reason) && Get(v, RollbackActions) == Strs(c.actions)
  }

  lemma CascadeJsonReads(c: Cascade)
    ensures CascadeReads(CascadeJson(c), c)
  {}

  lemma CascadeBack(c: Cascade)
    requires CascadeOk(c)
    ensures SnapCascade(CascadeJson(c)) == Some(TidyCascade(c))
  {
    CascadeJsonReads(c);
    ReasonBack(c.reason);
    ActionsBack(c.actions);
  }

  predicate PhaseReads(v: Value, p: PhaseRow) {
    && v.Obj? && Get(v, Name) == Str(p.name) && Get(v, Phase) == Str(p.phase) && Get(v, Stage) == OptStr(p.stage)
    && Get(v, PhaseError) == OptStr(p.phaseError) && Get(v, LastCascadeError) == OptCascade(p.cascade)
  }

  lemma PhaseJsonReads(p: PhaseRow)
    ensures PhaseReads(PhaseJson(p), p)
  {}

  lemma PhaseFrom(v: Value, p: PhaseRow)
    requires PhaseOk(p) && PhaseReads(v, p)
    ensures SnapPhase(v) == Some(p.(cascade := SnapCascade(OptCascade(p.cascade))))
  {}

  lemma PhaseBack(p: PhaseRow)
    requires PhaseOk(p)
    ensures SnapPhase(PhaseJson(p)) == Some(TidyPhase(p))
  {
    PhaseJsonReads(p);
    PhaseFrom(PhaseJson(p), p);
    if p.cascade.Some? {
      CascadeBack(p.cascade.value);
    }
  }

  lemma PhasesBack(rows: seq<PhaseRow>)
    requires AllOk(rows, PhaseOk)
    ensures Phases(RowsJson(rows, PhaseJson)) == TidyPhases(rows)
  {
    var items := RowsJson(rows, PhaseJson).items;
    forall i | 0 <= i < |rows| ensures SnapPhase(items[i]) == Some(TidyPhases(rows)[i]) { PhaseBack(rows[i]); }
    AcceptedBack(TidyPhases(rows), items, SnapPhase);
  }

  // ---------------------------------------------------------------------
  // The whole snapshot again
  // ---------------------------------------------------------------------

  lemma PlatformsBack(rows: seq<Platform>, conv: Conversion)
    requires AllOk(rows, PlatformOk)
    ensures Rows(RowsJson(rows, PlatformJson), PlatformReader(conv)) == Done(rows)
  {
    forall i | 0 <= i < |rows| ensures PlatformReader(conv)(PlatformJson(rows[i])) == Done(Some(rows[i])) {
      PlatformBack(rows[i], conv);
    }
    RowsBack(rows, PlatformJson, PlatformReader(conv));
  }

  lemma PortsBack(rows: seq<PortRow>, conv: Conversion)
    requires AllOk(rows, PortOk)
    ensures Rows(RowsJson(rows, PortJson), PortReader(conv)) == Done(rows)
  {
    forall i | 0 <= i < |rows| ensures PortReader(conv)(PortJson(rows[i])) == Done(Some(rows[i])) {
      PortBack(rows[i], conv);
    }
    RowsBack(rows, PortJson, PortReader(conv));
  }

  lemma RoutesBack(rows: seq<RouteRow>, conv: Conversion)
    requires AllOk(rows, RouteOk)
    ensures Rows(RowsJson(rows, RouteJson), RouteReader(conv)) == Done(rows)
  {
    forall i | 0 <= i < |rows| ensures RouteReader(conv)(RouteJson(rows[i])) == Done(Some(rows[i])) {
      RouteBack(rows[i], conv);
    }
    RowsBack(rows, RouteJson, RouteReader(conv));
  }

  lemma SubscriptionsBack(rows: seq<SubscriptionRow>, conv: Conversion)
    requires AllOk(rows, SubscriptionOk)
    ensures Rows(RowsJson(rows, SubscriptionJson), SubscriptionReader(conv)) == Done(rows)
  {
    forall i | 0 <= i < |rows| ensures SubscriptionReader(conv)(SubscriptionJson(rows[i])) == Done(Some(rows[i])) {
      SubscriptionBack(rows[i], conv);
    }
    RowsBack(rows, SubscriptionJson, SubscriptionReader(conv));
  }

  predicate RowsRead(v: Value, s: Snapshot) {
    && Get(v, Platforms) == RowsJson(s.platforms, PlatformJson) && Get(v, Ports) == RowsJson(s.ports, PortJson)
    && Get(v, Routes) == RowsJson(s.routes, RouteJson)
    && Get(v, Subscriptions) == RowsJson(s.subscriptions, SubscriptionJson)
    && Get(v, SubscriptionPhases) == RowsJson(s.phases, PhaseJson)
  }

  predicate ScalarsRead(v: Value, s: Snapshot) {
    && Get(v, StrategyVersion) == Num(s.strategyVersion as real) && Get(v, ResinReachable) == Bool(s.resinReachable)
    && Get(v, LastCheckedAt) == Num(s.lastCheckedAt) && Get(v, StrategyGeneration) == Num(s.strategyGeneration)
    && Get(v, StrategyAppliedGeneration) == Num(s.appliedGeneration) && Get(v, ConvergePhase) == Str(s.convergePhase)
    && Get(v, LastApplyAt) == OptNum(s.lastApplyAt) && Get(v, LastApplyError) == OptStr(s.lastApplyError)
  }

  lemma RowsJsonRead(s: Snapshot)
    ensures RowsRead(SnapshotJson(s), s)
  {}

  lemma ScalarsJsonRead(s: Snapshot)
    ensures ScalarsRead(SnapshotJson(s), s)
  {}

  /** The row families and the scalars of s, as the sanitizer computes them from v. */
  ghost predicate RowsCome(v: Value, conv: Conversion, s: Snapshot) {
    && Rows(Get(v, Platforms), PlatformReader(conv)) == Done(s.platforms)
    && Rows(Get(v, Ports), PortReader(conv)) == Done(s.ports)
    && Rows(Get(v, Routes), RouteReader(conv)) == Done(s.routes)
    && Rows(Get(v, Subscriptions), SubscriptionReader(conv)) == Done(s.subscriptions)
    && Phases(Get(v, SubscriptionPhases)) == TidyPhases(s.phases)
  }

  ghost predicate ScalarsCome(v: Value, conv: Conversion, s: Snapshot) {
    && Number(Get(v, StrategyVersion), conv) == Done(Some(s.strategyVersion as real)) && s.strategyVersion <= 1
    && IsTrue(Get(v, ResinReachable)) == s.resinReachable
    && SnapTs(Get(v, LastCheckedAt), conv) == Done(Some(s.lastCheckedAt))
    && SnapCounter(Get(v, StrategyGeneration), conv) == Done(s.strategyGeneration)
    && SnapCounter(Get(v, StrategyAppliedGeneration), conv) == Done(s.appliedGeneration)
    && SnapConvergePhase(Get(v, ConvergePhase)) == s.convergePhase
    && SnapTs(Get(v, LastApplyAt), conv) == Done(s.lastApplyAt)
    && SnapMessage(Get(v, LastApplyError)) == s.lastApplyError
  }

  lemma RowsFrom(v: Value, s: Snapshot, conv: Conversion)
    requires SnapshotOk(s) && RowsRead(v, s)
    ensures RowsCome(v, conv, s)
  {
    PlatformsBack(s.platforms, conv);
    PortsBack(s.ports, conv);
    RoutesBack(s.routes, conv);
    SubscriptionsBack(s.subscriptions, conv);
    PhasesBack(s.phases);
  }

  lemma ScalarsFrom(v: Value, s: Snapshot, conv: Conversion)
    requires ScalarsOk(s) && ScalarsRead(v, s)
    ensures ScalarsCome(v, conv, s)
  {}

  lemma Assembled(v: Value, s: Snapshot, conv: Conversion)
    requires RowsCome(v, conv, s) && ScalarsCome(v, conv, s)
    ensures SnapSnapshot(v, conv) == Done(Tidy(s))
  {}

  /** Sanitizing a bounded snapshot again never throws, and gives the snapshot with its cascade texts tidied. */
  lemma BoundedSnapshotBack(s: Snapshot, conv: Conversion)
    requires SnapshotOk(s)
    ensures SnapSnapshot(SnapshotJson(s), conv) == Done(Tidy(s))
  {
    var v := SnapshotJson(s);
    RowsJsonRead(s);
    ScalarsJsonRead(s);
    RowsFrom(v, s, conv);
    ScalarsFrom(v, s, conv);
    Assembled(v, s, conv);
  }
}
