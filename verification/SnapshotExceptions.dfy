/** Exactly when the snapshot sanitizer throws. */
module SnapshotExceptions {
  import opened Optional
  import opened JsText
  import opened JsonValue
  import opened SnapshotWire
  import opened SnapshotSanitizer

  /** Row by row: a conversion is reached and its value is unconvertible. */
  predicate PlatformThrows(v: Value) {
    && IsObject(v)
    && (Get(v, State) == Str(Tag("divergent")) || Get(v, State) == Str(Tag("missingOnResin")))
    && Unconvertible(Get(v, DivergentSince))
  }

  /** v reads as a port number. */
  predicate HasPort(v: Value, conv: Conversion) {
    SnapPortNumber(v, conv).Done? && SnapPortNumber(v, conv).value.Some?
  }

  predicate PortThrows(v: Value, conv: Conversion) {
    && IsObject(v)
    && (|| Unconvertible(Get(v, Port))
        || (&& HasPort(Get(v, Port), conv)
            && Get(v, State) == Str(Tag("missingOnResin"))
            && Unconvertible(Get(v, DivergentSince))))
  }

  predicate RouteThrows(v: Value, conv: Conversion) {
    && IsObject(v) && SnapStr(Get(v, Process)) != []
    && (|| Unconvertible(Get(v, TargetPort))
        || (&& HasPort(Get(v, TargetPort), conv)
            && Get(v, State) == Str(Tag("missingOnResin"))
            && Unconvertible(Get(v, DivergentSince))))
  }

  predicate SubscriptionThrows(v: Value) {
    && IsObject(v) && SnapStr(Get(v, Name)) != []
    && (Unconvertible(Get(v, NodeCount)) || Unconvertible(Get(v, HealthyNodeCount)))
  }

  predicate RowThrows(v: Value, throws: Value -> bool) {
    exists i :: 0 <= i < |FirstItems(v, MAX_SNAPSHOT_ENTRIES)| && throws(FirstItems(v, MAX_SNAPSHOT_ENTRIES)[i])
  }

  predicate ScalarThrows(v: Value) {
    || Unconvertible(Get(v, StrategyVersion)) || Unconvertible(Get(v, LastCheckedAt))
    || Unconvertible(Get(v, StrategyGeneration)) || Unconvertible(Get(v, StrategyAppliedGeneration))
    || Unconvertible(Get(v, LastApplyAt))
  }

  predicate SnapshotThrows(v: Value, conv: Conversion) {
    || ScalarThrows(v)
    || RowThrows(Get(v, Platforms), PlatformThrows)
    || RowThrows(Get(v, Ports), w => PortThrows(w, conv))
    || RowThrows(Get(v, Routes), w => RouteThrows(w, conv))
    || RowThrows(Get(v, Subscriptions), SubscriptionThrows)
  }

  lemma ScalarsThrowExactly(v: Value, conv: Conversion)
    ensures SnapTs(v, conv).Threw? <==> Unconvertible(v)
    ensures SnapCounter(v, conv).Threw? <==> Unconvertible(v)
    ensures SnapPortNumber(v, conv).Threw? <==> Unconvertible(v)
  {
    NumberThrowsExactly(v, conv);
  }

  lemma PlatformThrowsExactly(v: Value, conv: Conversion)
    ensures SnapPlatform(v, conv).Threw? <==> PlatformThrows(v)
  {
    ScalarsThrowExactly(Get(v, DivergentSince), conv);
  }

  lemma PortThrowsExactly(v: Value, conv: Conversion)
    ensures SnapPort(v, conv).Threw? <==> PortThrows(v, conv)
  {
    ScalarsThrowExactly(Get(v, Port), conv);
    ScalarsThrowExactly(Get(v, DivergentSince), conv);
  }

  lemma RouteThrowsExactly(v: Value, conv: Conversion)
    ensures SnapRoute(v, conv).Threw? <==> RouteThrows(v, conv)
  {
    ScalarsThrowExactly(Get(v, TargetPort), conv);
    ScalarsThrowExactly(Get(v, DivergentSince), conv);
  }

  lemma SubscriptionThrowsExactly(v: Value, conv: Conversion)
    ensures SnapSubscription(v, conv).Threw? <==> SubscriptionThrows(v)
  {
    ScalarsThrowExactly(Get(v, NodeCount), conv);
    ScalarsThrowExactly(Get(v, HealthyNodeCount), conv);
  }

  lemma {:induction false} AcceptedThrows<T>(items: seq<Value>, f: Value -> Try<Option<T>>, throws: Value -> bool)
    requires forall w :: f(w).Threw? <==> throws(w)
    ensures TryAccepted(items, f).Threw? <==> exists i :: 0 <= i < |items| && throws(items[i])
  {
    if items != [] {
      var rest := items[1..];
      AcceptedThrows(rest, f, throws);
      if i :| 0 <= i < |rest| && throws(rest[i]) {
        assert throws(items[i + 1]);
      }
      if i :| 0 < i < |items| && throws(items[i]) {
        assert throws(rest[i - 1]);
      }
    }
  }

  /** A family of rows throws exactly when one of its first 4096 rows does. */
  lemma RowsThrow<T>(v: Value, f: Value -> Try<Option<T>>, throws: Value -> bool)
    requires forall w :: f(w).Threw? <==> throws(w)
    ensures Rows(v, f).Threw? <==> RowThrows(v, throws)
  {
    AcceptedThrows(FirstItems(v, MAX_SNAPSHOT_ENTRIES), f, throws);
  }

  lemma PlatformsThrow(v: Value, conv: Conversion)
    ensures Rows(v, PlatformReader(conv)).Threw? <==> RowThrows(v, PlatformThrows)
  {
    forall w ensures PlatformReader(conv)(w).Threw? <==> PlatformThrows(w) { PlatformThrowsExactly(w, conv); }
    RowsThrow(v, PlatformReader(conv), PlatformThrows);
  }

  lemma PortsThrow(v: Value, conv: Conversion)
    ensures Rows(v, PortReader(conv)).Threw? <==> RowThrows(v, w => PortThrows(w, conv))
  {
    forall w ensures PortReader(conv)(w).Threw? <==> PortThrows(w, conv) { PortThrowsExactly(w, conv); }
    RowsThrow(v, PortReader(conv), w => PortThrows(w, conv));
  }

  lemma RoutesThrow(v: Value, conv: Conversion)
    ensures Rows(v, RouteReader(conv)).Threw? <==> RowThrows(v, w => RouteThrows(w, conv))
  {
    forall w ensures RouteReader(conv)(w).Threw? <==> RouteThrows(w, conv) { RouteThrowsExactly(w, conv); }
    RowsThrow(v, RouteReader(conv), w => RouteThrows(w, conv));
  }

  lemma SubscriptionsThrow(v: Value, conv: Conversion)
    ensures Rows(v, SubscriptionReader(conv)).Threw? <==> RowThrows(v, SubscriptionThrows)
  {
    forall w ensures SubscriptionReader(conv)(w).Threw? <==> SubscriptionThrows(w) { SubscriptionThrowsExactly(w, conv); }
    RowsThrow(v, SubscriptionReader(conv), SubscriptionThrows);
  }

  /** The sanitizer throws exactly when some conversion it reaches meets an unconvertible value. */
  lemma SnapshotThrowsExactly(v: Value, conv: Conversion)
    ensures SnapSnapshot(v, conv).Threw? <==> SnapshotThrows(v, conv)
  {
    PlatformsThrow(Get(v, Platforms), conv);
    PortsThrow(Get(v, Ports), conv);
    RoutesThrow(Get(v, Routes), conv);
    SubscriptionsThrow(Get(v, Subscriptions), conv);
    NumberThrowsExactly(Get(v, StrategyVersion), conv);
    ScalarsThrowExactly(Get(v, LastCheckedAt), conv);
    ScalarsThrowExactly(Get(v, StrategyGeneration), conv);
    ScalarsThrowExactly(Get(v, StrategyAppliedGeneration), conv);
    ScalarsThrowExactly(Get(v, LastApplyAt), conv);
  }

  /** No object anywhere inside v has a `toString` key. */
  predicate Plain(v: Value) {
    match v
    case Obj(fields) => Other("toString") !in fields && forall f :: f in fields ==> Plain(fields[f])
    case Arr(items) => forall i :: 0 <= i < |items| ==> Plain(items[i])
    case _ => true
  }

  lemma {:induction false} PlainConverts(v: Value)
    requires Plain(v)
    ensures !Unconvertible(v)
  {
    if v.Arr? {
      forall i | 0 <= i < |v.items| ensures !Unconvertible(v.items[i]) { PlainConverts(v.items[i]); }
    }
  }

  lemma PlainFieldConverts(v: Value, f: Field)
    requires Plain(v)
    ensures Plain(Get(v, f)) && !Unconvertible(Get(v, f))
  {
    PlainConverts(Get(v, f));
  }

  lemma PlainRow(v: Value, conv: Conversion)
    requires Plain(v)
    ensures !PlatformThrows(v) && !PortThrows(v, conv) && !RouteThrows(v, conv) && !SubscriptionThrows(v)
  {
    PlainFieldConverts(v, DivergentSince);
    PlainFieldConverts(v, Port);
    PlainFieldConverts(v, TargetPort);
    PlainFieldConverts(v, NodeCount);
    PlainFieldConverts(v, HealthyNodeCount);
  }

  lemma PlainRows(v: Value, throws: Value -> bool)
    requires Plain(v) && forall w :: Plain(w) ==> !throws(w)
    ensures !RowThrows(v, throws)
  {}

  lemma PlainScalars(v: Value)
    requires Plain(v)
    ensures !ScalarThrows(v)
  {
    PlainFieldConverts(v, StrategyVersion);
    PlainFieldConverts(v, LastCheckedAt);
    PlainFieldConverts(v, StrategyGeneration);
    PlainFieldConverts(v, StrategyAppliedGeneration);
    PlainFieldConverts(v, LastApplyAt);
  }

  /** The sanitizer returns on every JSON value in which no object has a `toString` key. */
  lemma TotalOnPlainValues(v: Value, conv: Conversion)
    requires Plain(v)
    ensures SnapSnapshot(v, conv).Done?
  {
    SnapshotThrowsExactly(v, conv);
    PlainScalars(v);
    forall w | Plain(w)
      ensures !PlatformThrows(w) && !PortThrows(w, conv) && !RouteThrows(w, conv) && !SubscriptionThrows(w)
    { PlainRow(w, conv); }
    PlainFieldConverts(v, Platforms);
    PlainFieldConverts(v, Ports);
    PlainFieldConverts(v, Routes);
    PlainFieldConverts(v, Subscriptions);
    PlainRows(Get(v, Platforms), PlatformThrows);
    PlainRows(Get(v, Ports), w => PortThrows(w, conv));
    PlainRows(Get(v, Routes), w => RouteThrows(w, conv));
    PlainRows(Get(v, Subscriptions), SubscriptionThrows);
  }

  /** It is not total on all of them: one small response makes it throw. */
  lemma NotTotal(conv: Conversion) returns (v: Value)
    ensures SnapSnapshot(v, conv).Threw?
  {
    v := Obj(map[LastCheckedAt := Obj(map[Other("toString") := Null])]);
    assert Get(v, LastCheckedAt) == Obj(map[Other("toString") := Null]);
    SnapshotThrowsExactly(v, conv);
  }
}
