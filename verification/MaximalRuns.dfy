/** Maximal runs of `false` in a sequence of booleans: the reference against which the health poll
  * (runs of failed polls) and the drift notice (runs of drifted snapshots) are measured. */
module MaximalRuns {
  /** Length of the run of `false` that ends the sequence. */
  function TrailingRun(s: seq<bool>): (n: nat)
    ensures n <= |s|
  {
    if s == [] || s[|s| - 1] then 0 else 1 + TrailingRun(s[..|s| - 1])
  }

  /** It is the longest such run: only `false`, and a `true` (if anything) just before it. */
  lemma {:induction false} TrailingRunIsMaximal(s: seq<bool>)
    ensures forall i :: |s| - TrailingRun(s) <= i < |s| ==> !s[i]
    ensures TrailingRun(s) < |s| ==> s[|s| - TrailingRun(s) - 1]
  {
    if s != [] && !s[|s| - 1] {
      TrailingRunIsMaximal(s[..|s| - 1]);
    }
  }

  /** The lengths of the maximal runs of `false`, in order: n values `true` separate n + 1 (possibly empty) runs. */
  function Runs(s: seq<bool>): (r: seq<nat>)
    ensures |r| > 0
    decreases |s|
  {
    var n := TrailingRun(s);
    if n == |s| then [n] else Runs(s[..|s| - n - 1]) + [n]
  }

  /** The last run, and the runs before it. */
  function Last(runs: seq<nat>): nat requires |runs| > 0 { runs[|runs| - 1] }
  function Front(runs: seq<nat>): seq<nat> requires |runs| > 0 { runs[..|runs| - 1] }

  /** `true` opens a new empty run; `false` lengthens the last one. */
  function NextRuns(runs: seq<nat>, b: bool): seq<nat>
    requires |runs| > 0
  {
    if b then runs + [0] else Front(runs) + [Last(runs) + 1]
  }

  lemma RunsSnoc(s: seq<bool>, b: bool)
    ensures Runs(s + [b]) == NextRuns(Runs(s), b)
  {
    var t := s + [b];
    assert t[..|t| - 1] == s;
    if b {
      assert t[..|t| - 0 - 1] == s;
    } else {
      var n := TrailingRun(s);
      assert TrailingRun(t) == n + 1;
      if n < |s| {
        assert t[..|t| - (n + 1) - 1] == s[..|s| - n - 1];
      }
    }
  }
}
