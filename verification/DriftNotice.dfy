/** The drift-episode notice of the tray (`src-tauri/src/tray.rs`): one notice per episode of
  * unacknowledged drift, ignoring snapshots taken while the engine was unreachable. */
module DriftNotice {
  import opened MaximalRuns

  datatype Entry = Entry(consistent: bool, acknowledged: bool)

  datatype Snapshot = Snapshot(reachable: bool, platforms: seq<Entry>, ports: seq<Entry>, routes: seq<Entry>)

  /** An entry that is neither consistent nor acknowledged. */
  predicate Notifiable(e: Entry) { !e.consistent && !e.acknowledged }

  function CountFamily(entries: seq<Entry>): nat {
    if entries == [] then 0
    else CountFamily(entries[1..]) + if Notifiable(entries[0]) then 1 else 0
  }

  function CountUnacknowledged(s: Snapshot): nat {
    CountFamily(s.platforms) + CountFamily(s.ports) + CountFamily(s.routes)
  }

  lemma {:induction false} CountFamilyPositive(entries: seq<Entry>)
    ensures CountFamily(entries) > 0 <==> exists e :: e in entries && Notifiable(e)
  {
    if entries != [] {
      CountFamilyPositive(entries[1..]);
      assert entries == [entries[0]] + entries[1..];
      if Notifiable(entries[0]) {
        assert entries[0] in entries;
      }
    }
  }

  /** Drift is there exactly when some entry of some family is neither consistent nor acknowledged. */
  lemma DriftMeansSomeEntry(s: Snapshot)
    ensures Drifted(s) <==> exists e :: e in s.platforms + s.ports + s.routes && !e.consistent && !e.acknowledged
  {
    CountFamilyPositive(s.platforms);
    CountFamilyPositive(s.ports);
    CountFamilyPositive(s.routes);
    var all := s.platforms + s.ports + s.routes;
    forall e ensures e in all <==> e in s.platforms || e in s.ports || e in s.routes {
    }
  }

  predicate Drifted(s: Snapshot) { CountUnacknowledged(s) > 0 }

  predicate ShouldFire(hasDrift: bool, prevHasDrift: bool) { hasDrift && !prevHasDrift }

  /** The reachable snapshots' verdicts, in order: true = clean, false = drifted. */
  function CleanFlags(snaps: seq<Snapshot>): seq<bool> {
    if snaps == [] then []
    else
      var last := snaps[|snaps| - 1];
      CleanFlags(snaps[..|snaps| - 1]) + if last.reachable then [!Drifted(last)] else []
  }

  /** Number of non-empty runs. */
  function NonEmpty(runs: seq<nat>): nat {
    if runs == [] then 0 else NonEmpty(Front(runs)) + if Last(runs) > 0 then 1 else 0
  }

  /** Number of maximal blocks of drifted snapshots among the reachable ones. */
  function DriftBlocks(snaps: seq<Snapshot>): nat { NonEmpty(Runs(CleanFlags(snaps))) }

  lemma BlocksStep(runs: seq<nat>, clean: bool)
    requires |runs| > 0
    ensures NonEmpty(if clean then runs + [0] else Front(runs) + [Last(runs) + 1]) ==
            NonEmpty(runs) + if !clean && Last(runs) == 0 then 1 else 0
  {
    if clean {
      assert Front(runs + [0]) == runs;
    } else {
      assert Front(Front(runs) + [Last(runs) + 1]) == Front(runs);
    }
  }

  /** Blocks so far, and whether the last reachable snapshot was drifted, grown one snapshot at a time. */
  datatype Progress = Progress(blocks: nat, drifted: bool)

  function ProgressOf(snaps: seq<Snapshot>): Progress {
    if snaps == [] then Progress(0, false)
    else
      var p, s := ProgressOf(snaps[..|snaps| - 1]), snaps[|snaps| - 1];
      if !s.reachable then p
      else Progress(if Drifted(s) && !p.drifted then p.blocks + 1 else p.blocks, Drifted(s))
  }

  lemma ProgressStep(front: seq<Snapshot>, s: Snapshot, runs: seq<nat>)
    requires runs == Runs(CleanFlags(front))
    requires ProgressOf(front) == Progress(NonEmpty(runs), Last(runs) > 0)
    ensures ProgressOf(front + [s]) == Progress(DriftBlocks(front + [s]), Last(Runs(CleanFlags(front + [s]))) > 0)
  {
    var clean := !Drifted(s);
    assert (front + [s])[..|front|] == front;
    if s.reachable {
      RunsSnoc(CleanFlags(front), clean);
      BlocksStep(runs, clean);
      assert CleanFlags(front + [s]) == CleanFlags(front) + [clean];
    } else {
      assert CleanFlags(front + [s]) == CleanFlags(front);
    }
  }

  lemma {:induction false} ProgressCountsBlocks(snaps: seq<Snapshot>)
    ensures ProgressOf(snaps) == Progress(DriftBlocks(snaps), Last(Runs(CleanFlags(snaps))) > 0)
  {
    if snaps == [] {
      assert Runs(CleanFlags(snaps)) == [0] && Front([0]) == [];
    } else {
      var front := snaps[..|snaps| - 1];
      ProgressCountsBlocks(front);
      ProgressStep(front, snaps[|snaps| - 1], Runs(CleanFlags(front)));
      assert snaps == front + [snaps[|snaps| - 1]];
    }
  }

  /** The process-wide notify state. */
  class Notifier {
    var prevHasDrift: bool

    constructor ()
      ensures !prevHasDrift
    {
      prevHasDrift := false;
    }

    /** The decision part of `fire_drift_notification`; showing the toast is a foreign call. */
    method Observe(s: Snapshot) returns (fire: bool)
      modifies this
      ensures !s.reachable ==> !fire && prevHasDrift == old(prevHasDrift)
      ensures s.reachable ==> prevHasDrift == Drifted(s)
      ensures fire <==> s.reachable && Drifted(s) && !old(prevHasDrift)
    {
      if !s.reachable {
        return false;
      }
      var hasDrift := CountUnacknowledged(s) > 0;
      fire := ShouldFire(hasDrift, prevHasDrift);
      prevHasDrift := hasDrift;
    }
  }

  /** Position k holds a reachable snapshot without unacknowledged drift, strictly between i and j. */
  predicate Clears(snaps: seq<Snapshot>, i: nat, k: nat, j: nat) {
    i < k < j && k < |snaps| && snaps[k].reachable && !Drifted(snaps[k])
  }

  ghost predicate ClearedBetween(snaps: seq<Snapshot>, i: nat, j: nat) { exists k :: Clears(snaps, i, k, j) }

  /** The notices fired at drifted, reachable snapshots, and between neighbours something cleared. */
  ghost predicate Separated(snaps: seq<Snapshot>, fired: seq<nat>) {
    var n := |fired|;
    n > 0 ==>
      && fired[n - 1] < |snaps| && snaps[fired[n - 1]].reachable && Drifted(snaps[fired[n - 1]])
      && (n > 1 ==> ClearedBetween(snaps, fired[n - 2], fired[n - 1]))
      && Separated(snaps, fired[..n - 1])
  }

  lemma SeparatedSnoc(snaps: seq<Snapshot>, fired: seq<nat>, i: nat, cleared: nat)
    requires Separated(snaps, fired) && i < |snaps| && snaps[i].reachable && Drifted(snaps[i])
    requires fired != [] ==> Clears(snaps, fired[|fired| - 1], cleared, i)
    ensures Separated(snaps, fired + [i])
  {
    assert (fired + [i])[..|fired|] == fired;
  }

  /** Every snapshot of a process's life, in order. `fired` lists the positions at which a notice fired. */
  method ObserveAll(snaps: seq<Snapshot>) returns (fired: seq<nat>)
    ensures |fired| == DriftBlocks(snaps)
    ensures Separated(snaps, fired)
  {
    var n := new Notifier();
    ghost var lastClear := 0;
    fired := [];
    for i := 0 to |snaps|
      invariant ProgressOf(snaps[..i]) == Progress(|fired|, n.prevHasDrift)
      invariant Separated(snaps, fired) && (fired != [] ==> fired[|fired| - 1] < i)
      invariant !n.prevHasDrift && fired != [] ==> Clears(snaps, fired[|fired| - 1], lastClear, i)
    {
      assert snaps[..i + 1][..i] == snaps[..i];
      var fire := n.Observe(snaps[i]);
      if fire {
        SeparatedSnoc(snaps, fired, i, lastClear);
        fired := fired + [i];
      }
      if snaps[i].reachable && !Drifted(snaps[i]) {
        lastClear := i;
      }
    }
    assert snaps[..|snaps|] == snaps;
    ProgressCountsBlocks(snaps);
  }

  /** Any two notices, not just neighbours, are separated by a clean reachable snapshot. */
  lemma {:induction false} NoticesSeparated(snaps: seq<Snapshot>, fired: seq<nat>, a: nat, b: nat)
    requires Separated(snaps, fired) && a < b < |fired|
    ensures ClearedBetween(snaps, fired[a], fired[b])
  {
    var n := |fired|;
    if b < n - 1 {
      NoticesSeparated(snaps, fired[..n - 1], a, b);
    } else {
      var k :| Clears(snaps, fired[n - 2], k, fired[n - 1]);
      if a < n - 2 {
        NoticesSeparated(snaps, fired[..n - 1], a, n - 2);
      }
      assert Clears(snaps, fired[a], k, fired[b]);
    }
  }
}
