/** What is in a sanitized snapshot, for every response: which rows are kept and in what order, and what each field is. */
module SnapshotContents {
  import opened Optional
  import opened JsText
  import opened JsonValue
  import opened SnapshotWire
  import opened SnapshotSanitizer
  import opened SnapshotBounds

  // ---------------------------------------------------------------------
  // Rows kept
  // ---------------------------------------------------------------------

  /** How many of the items g accepts. */
  function Count<T>(items: seq<Value>, g: Value -> Option<T>): nat {
    if items == [] then 0 else (if g(items[0]).Some? then 1 else 0) + Count(items[1..], g)
  }

  /** The rows are the accepted items and no others, in order: an accepted item sits at the number of accepted items
    * before it. */
  ghost predicate ExactlyAccepted<T>(items: seq<Value>, g: Value -> Option<T>, rows: seq<T>) {
    && |rows| == Count(items, g)
    && (forall i :: 0 <= i < |items| && g(items[i]).Some? ==>
          Count(items[..i], g) < |rows| && rows[Count(items[..i], g)] == g(items[i]).value)
  }

  lemma CountPrefix<T>(items: seq<Value>, g: Value -> Option<T>, i: nat)
    requires 0 < i <= |items|
    ensures Count(items[..i], g) == (if g(items[0]).Some? then 1 else 0) + Count(items[1..][..i - 1], g)
  {
    assert items[..i][1..] == items[1..][..i - 1];
  }

  lemma {:induction false} AcceptedExactly<T>(items: seq<Value>, g: Value -> Option<T>)
    ensures ExactlyAccepted(items, g, Accepted(items, g))
  {
    if items != [] {
      var rest, rows, tail := items[1..], Accepted(items, g), Accepted(items[1..], g);
      AcceptedExactly(rest, g);
      var first := if g(items[0]).Some? then 1 else 0;
      assert |rows| == first + |tail| && rows[first..] == tail;
      forall i | 0 <= i < |items| && g(items[i]).Some?
        ensures Count(items[..i], g) < |rows| && rows[Count(items[..i], g)] == g(items[i]).value
      {
        if i > 0 {
          CountPrefix(items, g, i);
          assert items[i] == rest[i - 1];
          assert tail[Count(rest[..i - 1], g)] == rows[first..][Count(rest[..i - 1], g)];
        }
      }
    }
  }

  /** A reader that may throw, where it did not. */
  function Taken<T>(f: Value -> Try<Option<T>>): Value -> Option<T> {
    w => if f(w).Done? then f(w).value else None
  }

  lemma {:induction false} TryIsAccepted<T>(items: seq<Value>, f: Value -> Try<Option<T>>)
    ensures TryAccepted(items, f).Done? ==> TryAccepted(items, f).value == Accepted(items, Taken(f))
  {
    if items != [] {
      TryIsAccepted(items[1..], f);
    }
  }

  /** The items of an array up to a limit; none when it is not an array. */
  function UpTo(v: Value, max: nat): seq<Value> {
    if !v.Arr? then [] else v.items[..if |v.items| < max then |v.items| else max]
  }

  lemma FirstAreUpTo(v: Value, max: nat)
    ensures FirstItems(v, max) == UpTo(v, max)
  {}

  lemma RowsExactly<T>(v: Value, f: Value -> Try<Option<T>>, rows: seq<T>)
    requires Rows(v, f) == Done(rows)
    ensures ExactlyAccepted(UpTo(v, 4096), Taken(f), rows)
  {
    FirstAreUpTo(v, 4096);
    TryIsAccepted(UpTo(v, 4096), f);
    AcceptedExactly(UpTo(v, 4096), Taken(f));
  }

  lemma PhasesExactly(v: Value)
    ensures ExactlyAccepted(UpTo(v, 4096), SnapPhase, Phases(v))
  {
    FirstAreUpTo(v, 4096);
    AcceptedExactly(UpTo(v, 4096), SnapPhase);
  }

  lemma StringsExactly(v: Value)
    ensures ExactlyAccepted(UpTo(v, 64), NonEmptyStr, SnapStrArr(v))
  {
    FirstAreUpTo(v, 64);
    AcceptedExactly(UpTo(v, 64), NonEmptyStr);
  }

  lemma FamiliesOf(v: Value, conv: Conversion, s: Snapshot)
    requires SnapSnapshot(v, conv) == Done(s)
    ensures Rows(Get(v, Platforms), PlatformReader(conv)) == Done(s.platforms)
    ensures Rows(Get(v, Ports), PortReader(conv)) == Done(s.ports)
    ensures Rows(Get(v, Routes), RouteReader(conv)) == Done(s.routes)
    ensures Rows(Get(v, Subscriptions), SubscriptionReader(conv)) == Done(s.subscriptions)
    ensures s.phases == Phases(Get(v, SubscriptionPhases))
  {}

  /** Each family of a returned snapshot holds exactly the acceptable rows among its first 4096, in order: a row that
    * cannot be read costs no other row. */
  lemma FamiliesExactly(v: Value, conv: Conversion, s: Snapshot)
    requires SnapSnapshot(v, conv) == Done(s)
    ensures ExactlyAccepted(UpTo(Get(v, Platforms), 4096), Taken(PlatformReader(conv)), s.platforms)
    ensures ExactlyAccepted(UpTo(Get(v, Ports), 4096), Taken(PortReader(conv)), s.ports)
    ensures ExactlyAccepted(UpTo(Get(v, Routes), 4096), Taken(RouteReader(conv)), s.routes)
    ensures ExactlyAccepted(UpTo(Get(v, Subscriptions), 4096), Taken(SubscriptionReader(conv)), s.subscriptions)
    ensures ExactlyAccepted(UpTo(Get(v, SubscriptionPhases), 4096), SnapPhase, s.phases)
  {
    FamiliesOf(v, conv, s);
    RowsExactly(Get(v, Platforms), PlatformReader(conv), s.platforms);
    RowsExactly(Get(v, Ports), PortReader(conv), s.ports);
    RowsExactly(Get(v, Routes), RouteReader(conv), s.routes);
    RowsExactly(Get(v, Subscriptions), SubscriptionReader(conv), s.subscriptions);
    PhasesExactly(Get(v, SubscriptionPhases));
  }

  // ---------------------------------------------------------------------
  // Fields
  // ---------------------------------------------------------------------

  /** r is the longest prefix of t of at most `max` code units. */
  predicate Cut(r: Text, t: Text, max: nat) { r <= t && |r| == if |t| < max then |t| else max }

  /** Strings are cut at 512, anything else is empty; flags are true for `true` alone. */
  lemma TextsExactly(v: Value)
    ensures Cut(SnapStr(v), if v.Str? then v.text else [], 512)
    ensures SnapMessage(v).Some? <==> v.Str? && v.text != []
    ensures SnapMessage(v).Some? ==> Cut(SnapMessage(v).value, v.text, 512)
    ensures IsTrue(v) <==> v.Bool? && v.flag
  {}

  /** A timestamp is a number from 0 to the year 2100, a counter one up to 2^53 - 1 (else 0), a port an integer up to
    * 65535. */
  lemma NumbersExactly(v: Value, conv: Conversion, x: real)
    ensures SnapTs(v, conv) == Done(Some(x)) <==>
            !v.Missing? && !v.Null? && Number(v, conv) == Done(Some(x)) && 0.0 <= x <= 4_102_444_800.0
    ensures 0.0 < x ==>
            (SnapCounter(v, conv) == Done(x) <==> Number(v, conv) == Done(Some(x)) && x <= 9_007_199_254_740_991.0)
    ensures SnapCounter(v, conv).Done? <==> Number(v, conv).Done?
    ensures SnapPortNumber(v, conv).Done? <==> Number(v, conv).Done?
  {}

  lemma PortNumbersExactly(v: Value, conv: Conversion, n: nat)
    ensures SnapPortNumber(v, conv) == Done(Some(n)) <==> n <= 65535 && Number(v, conv) == Done(Some(n as real))
  {}

  // ---------------------------------------------------------------------
  // Rows, field by field
  // ---------------------------------------------------------------------

  predicate StateIs(v: Value, tag: string) { Get(v, State) == Str(Tag(tag)) }

  predicate Flag(v: Value, f: Field) { Get(v, f).Bool? && Get(v, f).flag }

  /** A platform row that does not throw is kept exactly when it is an object in one of the three states. */
  lemma PlatformKept(v: Value, conv: Conversion)
    requires SnapPlatform(v, conv).Done?
    ensures SnapPlatform(v, conv).value.Some? <==>
            IsObject(v) && (StateIs(v, "consistent") || StateIs(v, "divergent") || StateIs(v, "missingOnResin"))
  {}

  /** A port row: an object with a port number, consistent or missing on the engine. */
  lemma PortKept(v: Value, conv: Conversion)
    requires SnapPort(v, conv).Done?
    ensures SnapPort(v, conv).value.Some? <==>
            && IsObject(v) && SnapPortNumber(Get(v, Port), conv).Done? && SnapPortNumber(Get(v, Port), conv).value.Some?
            && (StateIs(v, "consistent") || StateIs(v, "missingOnResin"))
  {}

  /** A route row: the same, with a process. */
  lemma RouteKept(v: Value, conv: Conversion)
    requires SnapRoute(v, conv).Done?
    ensures SnapRoute(v, conv).value.Some? <==>
            && IsObject(v) && SnapStr(Get(v, Process)) != []
            && SnapPortNumber(Get(v, TargetPort), conv).Done? && SnapPortNumber(Get(v, TargetPort), conv).value.Some?
            && (StateIs(v, "consistent") || StateIs(v, "missingOnResin"))
  {}

  /** A subscription row or phase row: an object with a name. */
  lemma NamedKept(v: Value, conv: Conversion)
    ensures SnapSubscription(v, conv).Done? ==>
              (SnapSubscription(v, conv).value.Some? <==> IsObject(v) && Get(v, Name).Str? && Get(v, Name).text != [])
    ensures SnapPhase(v).Some? <==> IsObject(v) && Get(v, Name).Str? && Get(v, Name).text != []
  {}

  /** A cascade record: an object, not an array, with a known stage and a reason that is not blank. */
  lemma CascadeKept(v: Value)
    ensures SnapCascade(v).Some? <==>
            && v.Obj? && Get(v, Stage).Str? && Get(v, Stage).text in STAGES
            && Get(v, Reason).Str? && Trim(Get(v, Reason).text) != []
    ensures SnapCascade(v).Some? ==>
            var c := SnapCascade(v).value;
            && c.stage == Get(v, Stage).text && Cut(c.reason, Trim(Get(v, Reason).text), 1024)
            && (if Get(v, RollbackActions).Arr? then ExactlyAccepted(Get(v, RollbackActions).items, CleanAction, c.actions)
                else c.actions == [])
  {
    if Get(v, RollbackActions).Arr? {
      AcceptedExactly(Get(v, RollbackActions).items, CleanAction);
    }
  }

  /** The fields of p are the sanitized fields of v. */
  predicate PlatformOf(v: Value, conv: Conversion, p: Platform) {
    && p.name == SnapStr(Get(v, PlatformName)) && p.id == SnapStr(Get(v, PlatformId))
    && p.aClass == SnapStr(Get(v, AClass)) && p.bClass == SnapStr(Get(v, BClass))
    && p.manualNodes == SnapStrArr(Get(v, ManualNodes)) && p.subscriptions == SnapStrArr(Get(v, Subscriptions))
    && p.acknowledged == Flag(v, Acknowledged)
    && match p
       case ConsistentPlatform(_, _, regions, policy, _, _, _, _, _) =>
         && StateIs(v, "consistent") && regions == SnapStrArr(Get(v, Regions))
         && policy == SnapStr(Get(v, AllocationPolicy))
       case DivergentPlatform(_, _, whitebox, resin, policy, _, _, _, _, since, _) =>
         && StateIs(v, "divergent") && whitebox == SnapStrArr(Get(v, WhiteboxRegions))
         && resin == SnapStrArr(Get(v, ResinRegions)) && policy == SnapStr(Get(v, AllocationPolicy))
         && SnapTs(Get(v, DivergentSince), conv) == Done(since)
       case MissingPlatform(_, _, regions, _, _, _, _, since, _) =>
         && StateIs(v, "missingOnResin") && regions == SnapStrArr(Get(v, Regions))
         && SnapTs(Get(v, DivergentSince), conv) == Done(since)
  }

  lemma PlatformFields(v: Value, conv: Conversion, p: Platform)
    requires SnapPlatform(v, conv) == Done(Some(p))
    ensures PlatformOf(v, conv, p)
  {}

  predicate PortOf(v: Value, conv: Conversion, p: PortRow) {
    && SnapPortNumber(Get(v, Port), conv) == Done(Some(p.port)) && p.name == SnapStr(Get(v, PlatformName))
    && p.protocol == SnapStr(Get(v, Protocol)) && p.account == SnapStr(Get(v, Account))
    && p.caption == SnapStr(Get(v, Label)) && p.auth == Flag(v, AuthRequired) && p.acknowledged == Flag(v, Acknowledged)
    && match p
       case ConsistentPort(_, _, _, _, _, enabled, _, _) => StateIs(v, "consistent") && enabled == Flag(v, Enabled)
       case MissingPort(_, _, _, _, _, _, since, _) =>
         StateIs(v, "missingOnResin") && SnapTs(Get(v, DivergentSince), conv) == Done(since)
  }

  lemma PortFields(v: Value, conv: Conversion, p: PortRow)
    requires SnapPort(v, conv) == Done(Some(p))
    ensures PortOf(v, conv, p)
  {}

  predicate RouteOf(v: Value, conv: Conversion, r: RouteRow) {
    && r.process == SnapStr(Get(v, Process)) && SnapPortNumber(Get(v, TargetPort), conv) == Done(Some(r.port))
    && r.acknowledged == Flag(v, Acknowledged)
    && match r
       case ConsistentRoute(_, _, _) => StateIs(v, "consistent")
       case MissingRoute(_, _, since, _) =>
         StateIs(v, "missingOnResin") && SnapTs(Get(v, DivergentSince), conv) == Done(since)
  }

  lemma RouteFields(v: Value, conv: Conversion, r: RouteRow)
    requires SnapRoute(v, conv) == Done(Some(r))
    ensures RouteOf(v, conv, r)
  {}

  lemma SubscriptionFields(v: Value, conv: Conversion, s: SubscriptionRow)
    requires SnapSubscription(v, conv) == Done(Some(s))
    ensures s.name == SnapStr(Get(v, Name)) && s.consumedBy == SnapStrArr(Get(v, ConsumedBy))
    ensures SnapCounter(Get(v, NodeCount), conv) == Done(s.nodes)
    ensures SnapCounter(Get(v, HealthyNodeCount), conv) == Done(s.healthy)
    ensures s.resolvable == Flag(v, Resolvable)
  {}

  /** An unknown phase reads as "Never" and an unknown stage as none. */
  lemma PhaseFields(v: Value, p: PhaseRow)
    requires SnapPhase(v) == Some(p)
    ensures p.name == SnapStr(Get(v, Name)) && p.phaseError == SnapMessage(Get(v, PhaseError))
    ensures p.phase == if Get(v, Phase).Str? && Get(v, Phase).text in PHASES then Get(v, Phase).text else Tag("Never")
    ensures p.stage == if Get(v, Stage).Str? && Get(v, Stage).text in STAGES then Some(Get(v, Stage).text) else None
    ensures p.cascade == SnapCascade(Get(v, LastCascadeError))
  {}

  /** The scalars of a returned snapshot: an unknown converge phase reads as "Unknown", a timestamp or counter that
    * cannot be used as 0 or as none. */
  lemma ScalarFields(v: Value, conv: Conversion, s: Snapshot)
    requires SnapSnapshot(v, conv) == Done(s)
    ensures s.strategyVersion == if Number(Get(v, StrategyVersion), conv) == Done(Some(1.0)) then 1 else 0
    ensures s.resinReachable == Flag(v, ResinReachable)
    ensures SnapTs(Get(v, LastCheckedAt), conv) == Done(Some(s.lastCheckedAt)) ||
            (SnapTs(Get(v, LastCheckedAt), conv) == Done(None) && s.lastCheckedAt == 0.0)
    ensures SnapCounter(Get(v, StrategyGeneration), conv) == Done(s.strategyGeneration)
    ensures SnapCounter(Get(v, StrategyAppliedGeneration), conv) == Done(s.appliedGeneration)
    ensures s.convergePhase == ConvergePhaseOf(Get(v, ConvergePhase))
    ensures SnapTs(Get(v, LastApplyAt), conv) == Done(s.lastApplyAt)
    ensures s.lastApplyError == SnapMessage(Get(v, LastApplyError))
  {
    ScalarsAreTheirs(v, conv, s);
    ConvergePhaseExactly(Get(v, ConvergePhase));
  }

  function ConvergePhaseOf(v: Value): Text {
    if v.Str? && v.text in CONVERGE_PHASES then v.text else Tag("Unknown")
  }

  lemma ConvergePhaseExactly(v: Value)
    ensures SnapConvergePhase(v) == ConvergePhaseOf(v)
  {}
}
