/** How often the snapshot sanitizer must be applied to its own output before it changes nothing: once for most
  * responses, never more than twice, and exactly which. */
module SnapshotFixpoint {
  import opened Optional
  import opened JsText
  import opened JsonValue
  import opened SnapshotWire
  import opened SnapshotSanitizer
  import opened SnapshotBounds
  import opened SnapshotStability
  import SnapshotContents

  /** Cutting the text did not leave white space at its end. */
  predicate Settled(t: Text) { t == [] || !White(t[|t| - 1]) }

  ghost predicate All<T>(s: seq<T>, p: T -> bool) { forall i :: 0 <= i < |s| ==> p(s[i]) }

  ghost predicate CascadeSettled(c: Cascade) { Settled(c.reason) && All(c.actions, Settled) }

  ghost predicate PhaseSettled(p: PhaseRow) { p.cascade.Some? ==> CascadeSettled(p.cascade.value) }

  // ---------------------------------------------------------------------
  // Tidying changes only cascade texts, and settled ones not at all
  // ---------------------------------------------------------------------

  /** q is p but for the texts of its cascade record. */
  ghost predicate SameButTexts(p: PhaseRow, q: PhaseRow) {
    && q.(cascade := p.cascade) == p
    && (q.cascade.Some? <==> p.cascade.Some?)
    && (p.cascade.Some? ==>
          q.cascade.value.stage == p.cascade.value.stage && |q.cascade.value.actions| == |p.cascade.value.actions|)
  }

  lemma TidyTouchesTexts(s: Snapshot)
    ensures Tidy(s).(phases := s.phases) == s
    ensures forall i :: 0 <= i < |s.phases| ==> SameButTexts(s.phases[i], Tidy(s).phases[i])
  {}

  lemma TrimSettled(t: Text)
    requires t != [] ==> !White(t[0])
    ensures Trim(t) == t <==> Settled(t)
  {
    TrimShrinks(t);
  }

  lemma TidyTextsSettled(a: seq<Text>)
    requires forall i :: 0 <= i < |a| ==> ActionOk(a[i])
    ensures TidyTexts(a) == a <==> All(a, Settled)
  {
    forall i | 0 <= i < |a| ensures Trim(a[i]) == a[i] <==> Settled(a[i]) { TrimSettled(a[i]); }
    if TidyTexts(a) == a {
      assert forall i :: 0 <= i < |a| ==> TidyTexts(a)[i] == Trim(a[i]);
    }
  }

  lemma TidyPhaseSettled(p: PhaseRow)
    requires PhaseOk(p)
    ensures TidyPhase(p) == p <==> PhaseSettled(p)
  {
    if p.cascade.Some? {
      var c := p.cascade.value;
      TrimSettled(c.reason);
      TidyTextsSettled(c.actions);
      assert TidyCascade(c) == c <==> CascadeSettled(c);
    }
  }

  lemma TidySettled(s: Snapshot)
    requires SnapshotOk(s)
    ensures Tidy(s) == s <==> All(s.phases, p => PhaseSettled(p))
  {
    var rows := s.phases;
    forall i | 0 <= i < |rows| ensures TidyPhase(rows[i]) == rows[i] <==> PhaseSettled(rows[i]) {
      TidyPhaseSettled(rows[i]);
    }
    if TidyPhases(rows) == rows {
      assert forall i :: 0 <= i < |rows| ==> TidyPhases(rows)[i] == TidyPhase(rows[i]);
    }
  }

  // ---------------------------------------------------------------------
  // A tidied snapshot is bounded and settled
  // ---------------------------------------------------------------------

  lemma TrimActionOk(t: Text)
    requires ActionOk(t)
    ensures ActionOk(Trim(t)) && Settled(Trim(t))
  {
    TrimShrinks(t);
    TrimKeeps(t);
  }

  lemma TidyCascadeOk(c: Cascade)
    requires CascadeOk(c)
    ensures CascadeOk(TidyCascade(c)) && CascadeSettled(TidyCascade(c))
  {
    TrimShrinks(c.reason);
    TrimHead(c.reason);
    forall i | 0 <= i < |c.actions| ensures ActionOk(TidyTexts(c.actions)[i]) && Settled(TidyTexts(c.actions)[i]) {
      TrimActionOk(c.actions[i]);
    }
  }

  lemma TidyPhaseOk(p: PhaseRow)
    requires PhaseOk(p)
    ensures PhaseOk(TidyPhase(p)) && PhaseSettled(TidyPhase(p))
  {
    if p.cascade.Some? {
      TidyCascadeOk(p.cascade.value);
    }
  }

  lemma TidyOk(s: Snapshot)
    requires SnapshotOk(s)
    ensures SnapshotOk(Tidy(s)) && Tidy(Tidy(s)) == Tidy(s)
  {
    var t := Tidy(s);
    forall i | 0 <= i < |t.phases| ensures PhaseOk(t.phases[i]) && PhaseSettled(t.phases[i]) {
      TidyPhaseOk(s.phases[i]);
    }
    TidySettled(t);
  }

  // ---------------------------------------------------------------------
  // The condition on the input
  // ---------------------------------------------------------------------

  /** Cutting the trimmed text at `max` does not cut right after white space. */
  predicate CleanCut(t: Text, max: nat)
    requires max > 0
  {
    |Trim(t)| <= max || !White(Trim(t)[max - 1])
  }

  predicate ActionCutsCleanly(v: Value) { v.Str? ==> CleanCut(Blank(v.text), ACTION_MAX) }

  /** q holds of each item that f accepts. */
  ghost predicate AllKept<T>(items: seq<Value>, f: Value -> Option<T>, q: Value -> bool) {
    forall i :: 0 <= i < |items| && f(items[i]).Some? ==> q(items[i])
  }

  /** The texts of a cascade record that is kept. */
  ghost predicate CascadeCutsCleanly(v: Value) {
    SnapCascade(v).Some? && Get(v, Reason).Str? ==>
      && CleanCut(Get(v, Reason).text, REASON_MAX)
      && (Get(v, RollbackActions).Arr? ==> AllKept(Get(v, RollbackActions).items, CleanAction, ActionCutsCleanly))
  }

  /** Of the phase rows read, each one that is kept cuts its cascade texts cleanly. */
  ghost predicate CutsCleanly(v: Value) {
    AllKept(FirstItems(Get(v, SubscriptionPhases), MAX_SNAPSHOT_ENTRIES), SnapPhase,
            row => CascadeCutsCleanly(Get(row, LastCascadeError)))
  }

  lemma AllCons<T>(s: seq<T>, p: T -> bool)
    requires s != []
    ensures All(s, p) <==> p(s[0]) && All(s[1..], p)
  {
    if p(s[0]) && All(s[1..], p) {
      forall i | 0 <= i < |s| ensures p(s[i]) { assert i > 0 ==> s[i] == s[1..][i - 1]; }
    }
    if All(s, p) {
      forall i | 0 <= i < |s[1..]| ensures p(s[1..][i]) { assert s[1..][i] == s[i + 1]; }
    }
  }

  lemma AllKeptCons<T>(items: seq<Value>, f: Value -> Option<T>, q: Value -> bool)
    requires items != []
    ensures AllKept(items, f, q) <==> (f(items[0]).Some? ==> q(items[0])) && AllKept(items[1..], f, q)
  {
    AllCons(items, w => f(w).Some? ==> q(w));
  }

  /** A property of everything accepted is a property of every item accepted. */
  lemma {:induction false} AcceptedHave<T>(items: seq<Value>, f: Value -> Option<T>, p: T -> bool, q: Value -> bool)
    requires forall w :: f(w).Some? ==> (p(f(w).value) <==> q(w))
    ensures All(Accepted(items, f), p) <==> AllKept(items, f, q)
  {
    if items != [] {
      AcceptedHave(items[1..], f, p, q);
      AllKeptCons(items, f, q);
      if f(items[0]).Some? {
        var all := Accepted(items, f);
        assert all[0] == f(items[0]).value && all[1..] == Accepted(items[1..], f);
        AllCons(all, p);
      }
    }
  }

  lemma CutSettled(t: Text, max: nat)
    requires max > 0
    ensures Settled(Slice(Trim(t), max)) <==> CleanCut(t, max)
  {}

  lemma ActionsSettledExactly(items: seq<Value>)
    ensures All(Accepted(items, CleanAction), Settled) <==> AllKept(items, CleanAction, ActionCutsCleanly)
  {
    forall w | CleanAction(w).Some? ensures Settled(CleanAction(w).value) <==> ActionCutsCleanly(w) {
      CutSettled(Blank(w.text), ACTION_MAX);
    }
    AcceptedHave(items, CleanAction, Settled, ActionCutsCleanly);
  }

  lemma CascadeSettledExactly(v: Value)
    requires SnapCascade(v).Some?
    ensures CascadeSettled(SnapCascade(v).value) <==> CascadeCutsCleanly(v)
  {
    CutSettled(Get(v, Reason).text, REASON_MAX);
    if Get(v, RollbackActions).Arr? {
      ActionsSettledExactly(Get(v, RollbackActions).items);
    }
  }

  lemma PhaseSettledExactly(row: Value)
    requires SnapPhase(row).Some?
    ensures PhaseSettled(SnapPhase(row).value) <==> CascadeCutsCleanly(Get(row, LastCascadeError))
  {
    if SnapCascade(Get(row, LastCascadeError)).Some? {
      CascadeSettledExactly(Get(row, LastCascadeError));
    }
  }

  lemma PhasesSettledExactly(v: Value)
    ensures All(Phases(Get(v, SubscriptionPhases)), p => PhaseSettled(p)) <==> CutsCleanly(v)
  {
    forall w | SnapPhase(w).Some?
      ensures PhaseSettled(SnapPhase(w).value) <==> CascadeCutsCleanly(Get(w, LastCascadeError))
    { PhaseSettledExactly(w); }
    AcceptedHave(FirstItems(Get(v, SubscriptionPhases), MAX_SNAPSHOT_ENTRIES), SnapPhase, p => PhaseSettled(p),
                 row => CascadeCutsCleanly(Get(row, LastCascadeError)));
  }

  // ---------------------------------------------------------------------
  // Main results
  // ---------------------------------------------------------------------

  /** The sanitizer on its own output, for every JSON value on which it returns: it returns again, and the two
    * snapshots are alike but for cascade texts; they are equal exactly when no cascade text of the input that is kept
    * is cut right after white space. */
  lemma SanitizeTwice(v: Value, conv: Conversion, s: Snapshot)
    requires SnapSnapshot(v, conv) == Done(s)
    ensures SnapSnapshot(SnapshotJson(s), conv) == Done(Tidy(s))
    ensures Tidy(s).(phases := s.phases) == s && |Tidy(s).phases| == |s.phases|
    ensures forall i :: 0 <= i < |s.phases| ==> SameButTexts(s.phases[i], Tidy(s).phases[i])
    ensures SnapSnapshot(SnapshotJson(s), conv) == Done(s) <==> CutsCleanly(v)
  {
    SnapshotBounded(v, conv, s);
    BoundedSnapshotBack(s, conv);
    TidyTouchesTexts(s);
    TidySettled(s);
    PhasesSettledExactly(v);
    SnapshotContents.FamiliesOf(v, conv, s);
  }

  /** Two passes always suffice: whatever the response, the third changes nothing. */
  lemma SanitizeThrice(v: Value, conv: Conversion, s: Snapshot)
    requires SnapSnapshot(v, conv) == Done(s)
    ensures SnapSnapshot(SnapshotJson(s), conv) == Done(Tidy(s))
    ensures SnapSnapshot(SnapshotJson(Tidy(s)), conv) == Done(Tidy(s))
  {
    SnapshotBounded(v, conv, s);
    BoundedSnapshotBack(s, conv);
    TidyOk(s);
    BoundedSnapshotBack(Tidy(s), conv);
  }

  // ---------------------------------------------------------------------
  // A response for which one pass is not enough
  // ---------------------------------------------------------------------

  const LETTER: CodeUnit := 0x61
  const BLANK: CodeUnit := 0x20

  /** 1023 letters, a blank and a letter: cut after the blank. */
  const LONG_REASON: Text := seq(REASON_MAX + 1, i => if i == REASON_MAX - 1 then BLANK else LETTER)

  const UNSETTLED_CASCADE: Value := Obj(map[Stage := Str(Tag("import")), Reason := Str(LONG_REASON)])
  const UNSETTLED_ROW: Value := Obj(map[Name := Str([LETTER]), LastCascadeError := UNSETTLED_CASCADE])
  const UNSETTLED: Value := Obj(map[SubscriptionPhases := Arr([UNSETTLED_ROW])])

  lemma UnsettledCascade()
    ensures SnapCascade(UNSETTLED_CASCADE).Some? && !CascadeCutsCleanly(UNSETTLED_CASCADE)
  {
    assert STAGES[0] == Tag("import");
    assert Trim(LONG_REASON) == LONG_REASON;
    assert Get(UNSETTLED_CASCADE, Reason) == Str(LONG_REASON);
    assert Get(UNSETTLED_CASCADE, Stage) == Str(Tag("import"));
  }

  lemma UnsettledInput()
    ensures !CutsCleanly(UNSETTLED)
  {
    UnsettledCascade();
    var rows := FirstItems(Get(UNSETTLED, SubscriptionPhases), MAX_SNAPSHOT_ENTRIES);
    assert Get(UNSETTLED, SubscriptionPhases) == Arr([UNSETTLED_ROW]);
    assert rows == [UNSETTLED_ROW];
    assert Get(UNSETTLED_ROW, Name) == Str([LETTER]);
    assert Get(UNSETTLED_ROW, LastCascadeError) == UNSETTLED_CASCADE;
    assert SnapPhase(rows[0]).Some? && !CascadeCutsCleanly(Get(rows[0], LastCascadeError));
  }

  /** Everything the sanitizer reads apart from the phases is absent. */
  predicate OnlyPhases(v: Value) {
    && Get(v, StrategyVersion) == Missing && Get(v, Platforms) == Missing && Get(v, Ports) == Missing
    && Get(v, Routes) == Missing && Get(v, Subscriptions) == Missing && Get(v, LastCheckedAt) == Missing
    && Get(v, StrategyGeneration) == Missing && Get(v, StrategyAppliedGeneration) == Missing
    && Get(v, LastApplyAt) == Missing
  }

  lemma OnlyPhasesReturns(v: Value, conv: Conversion)
    requires OnlyPhases(v)
    ensures SnapSnapshot(v, conv).Done?
  {}

  lemma UnsettledIsOnlyPhases()
    ensures OnlyPhases(UNSETTLED)
  {}

  lemma ChangesAgain(v: Value, conv: Conversion) returns (s: Snapshot)
    requires OnlyPhases(v) && !CutsCleanly(v)
    ensures SnapSnapshot(v, conv) == Done(s)
    ensures SnapSnapshot(SnapshotJson(s), conv) != Done(s)
  {
    OnlyPhasesReturns(v, conv);
    s := SnapSnapshot(v, conv).value;
    SanitizeTwice(v, conv, s);
  }

  /** One pass is not always enough. */
  lemma NotIdempotent(conv: Conversion) returns (s: Snapshot)
    ensures SnapSnapshot(UNSETTLED, conv) == Done(s)
    ensures SnapSnapshot(SnapshotJson(s), conv) != Done(s)
  {
    UnsettledInput();
    UnsettledIsOnlyPhases();
    s := ChangesAgain(UNSETTLED, conv);
  }
}
