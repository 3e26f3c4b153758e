/** The inference job state machine and outcome rule (src/robot_dh/ai_tasks/state.py). */
module JobState {

  datatype Status = CREATED | QUEUED | RUNNING | SUCCEEDED | FAILED | RETRYING | CANCELLED | DEAD_LETTER

  /** VALID_TRANSITIONS. */
  function Successors(s: Status): set<Status> {
    match s
    case CREATED => {QUEUED, RUNNING, CANCELLED}
    case QUEUED => {RUNNING, CANCELLED}
    case RUNNING => {SUCCEEDED, FAILED, RETRYING, CANCELLED}
    case RETRYING => {RUNNING, FAILED, DEAD_LETTER, CANCELLED}
    case FAILED => {RETRYING, DEAD_LETTER}
    case SUCCEEDED => {}
    case CANCELLED => {}
    case DEAD_LETTER => {}
  }

  predicate CanTransition(src: Status, dst: Status) { dst in Successors(src) }

  /** TERMINAL_STATUSES. */
  predicate IsTerminal(s: Status) { s in {SUCCEEDED, FAILED, CANCELLED, DEAD_LETTER} }

  /** A history in which every status follows the one before it. */
  predicate ValidPath(p: seq<Status>) {
    forall i :: 0 < i < |p| ==> CanTransition(p[i - 1], p[i])
  }

  /** A valid history that passes a terminal status and goes on does so through FAILED,
      so FAILED is the one terminal status that is not final. */
  lemma TerminalButNotFinal(p: seq<Status>, i: nat)
    requires ValidPath(p) && i + 1 < |p| && IsTerminal(p[i])
    ensures p[i] == FAILED && p[i + 1] in {RETRYING, DEAD_LETTER}
  {
    assert CanTransition(p[i + 1 - 1], p[i + 1]);
  }

  /** Nothing ever follows this status in a valid history. */
  ghost predicate Final(s: Status) {
    forall p: seq<Status>, i: nat :: ValidPath(p) && i < |p| && p[i] == s ==> i == |p| - 1
  }

  /** The terminal statuses are the final ones and FAILED, which is not final: a run may
      fail and be retried. */
  lemma TerminalIsFinalIff(s: Status)
    ensures IsTerminal(s) <==> Final(s) || s == FAILED
    ensures !Final(FAILED)
  {
    var p := [QUEUED, RUNNING, FAILED, RETRYING, RUNNING, SUCCEEDED];
    assert ValidPath(p) && p[2] == FAILED && 2 != |p| - 1;
    if !IsTerminal(s) {
      var next := if s == CREATED || s == QUEUED || s == RETRYING then RUNNING else SUCCEEDED;
      assert ValidPath([s, next]) && [s, next][0] == s && 0 != |[s, next]| - 1;
    } else if s != FAILED {
      forall p: seq<Status>, i: nat | ValidPath(p) && i < |p| && p[i] == s ensures i == |p| - 1 {
        if i + 1 < |p| { TerminalButNotFinal(p, i); }
      }
    }
  }

  /** Along any valid history, nothing ever comes back to CREATED or QUEUED. */
  lemma NoWayBack(p: seq<Status>, i: nat)
    requires ValidPath(p) && i < |p|
    ensures p[i] == CREATED ==> i == 0
    ensures p[i] == QUEUED ==> i == 0 || (i == 1 && p[0] == CREATED)
  {
    if i > 0 { assert CanTransition(p[i - 1], p[i]); }
    if i > 1 { assert CanTransition(p[i - 2], p[i - 2 + 1]); }
  }

  lemma SucceededIsLast(p: seq<Status>, i: nat)
    requires ValidPath(p) && i < |p| && p[i] == SUCCEEDED
    ensures i == |p| - 1
  {
    if i + 1 < |p| { TerminalButNotFinal(p, i); }
  }

  datatype Outcome = Outcome(status: Status, warn: bool, exitCode: int, errorRate: real)

  function ErrorRate(total: nat, failed: nat): real {
    if total > 0 then failed as real / total as real else if failed > 0 then 1.0 else 0.0
  }

  /** evaluate_job_outcome. */
  function Evaluate(total: nat, failed: nat, maxErrorRate: real, failFast: bool): Outcome {
    var rate := ErrorRate(total, failed);
    if failFast || rate > maxErrorRate then Outcome(FAILED, false, 1, rate)
    else Outcome(SUCCEEDED, failed > 0, 0, rate)
  }

  /** The worker's own threshold, over the error rate of `compute_metrics`. */
  function WorkerVerdict(total: nat, failed: nat): Status {
    var rate := if total > 0 then failed as real / total as real else 0.0;
    if rate <= 0.5 then SUCCEEDED else FAILED
  }

  /** The worker and the CLI judge every run alike at the default threshold, and both
      fail it exactly when strictly more than half of the samples failed. */
  lemma VerdictsAgree(total: nat, failed: nat)
    requires failed <= total
    ensures WorkerVerdict(total, failed) == Evaluate(total, failed, 0.5, false).status
    ensures WorkerVerdict(total, failed) == FAILED <==> 2 * failed > total
  {
    if total > 0 {
      HalfOf(failed, total);
    }
  }

  lemma HalfOf(failed: nat, total: nat)
    requires total > 0
    ensures failed as real / total as real <= 0.5 <==> 2 * failed <= total
  {
    var q := failed as real / total as real;
    assert q * total as real == failed as real;
    if q <= 0.5 { assert q * total as real <= 0.5 * total as real; }
    if q > 0.5 { assert q * total as real > 0.5 * total as real; }
  }

  /** For every threshold: without fail-fast a run fails exactly when its failures exceed
      that share of its samples; a run without samples fails exactly when it has failures
      and the threshold is below one, or when the threshold is negative. */
  lemma FailsIff(total: nat, failed: nat, maxErrorRate: real)
    ensures total > 0 ==>
      (Evaluate(total, failed, maxErrorRate, false).status == FAILED <==> failed as real > maxErrorRate * total as real)
    ensures total > 0 ==> Evaluate(total, failed, maxErrorRate, false).errorRate * total as real == failed as real
    ensures total == 0 ==>
      (Evaluate(total, failed, maxErrorRate, false).status == FAILED <==>
        maxErrorRate < if failed > 0 then 1.0 else 0.0)
    ensures Evaluate(total, failed, maxErrorRate, true).status == FAILED
  {
    if total > 0 {
      var t, rate := total as real, failed as real / total as real;
      assert rate * t == failed as real;
      if rate > maxErrorRate { ScaleUp(maxErrorRate, rate, t); } else { ScaleUpEqual(rate, maxErrorRate, t); }
    }
  }

  lemma ScaleUp(a: real, b: real, t: real)
    requires a < b && t > 0.0
    ensures a * t < b * t
  {
    assert (b - a) * t > 0.0;
  }

  lemma ScaleUpEqual(a: real, b: real, t: real)
    requires a <= b && t > 0.0
    ensures a * t <= b * t
  {
    if a < b { ScaleUp(a, b, t); }
  }

  /** Exit code, status and warning of an outcome always agree. */
  lemma OutcomeConsistent(total: nat, failed: nat, maxErrorRate: real, failFast: bool)
    ensures var o := Evaluate(total, failed, maxErrorRate, failFast);
      (o.exitCode == 0 <==> o.status == SUCCEEDED) && CanTransition(RUNNING, o.status) &&
      (o.warn <==> o.status == SUCCEEDED && failed > 0)
  {}

  // ---------- subsequences of a history ----------

  /** `a` is what is left of `b` when some of its entries are lost. */
  predicate Subsequence(a: seq<Status>, b: seq<Status>) {
    a == [] ||
    (b != [] && (Subsequence(a, b[..|b| - 1]) ||
                 (a[|a| - 1] == b[|b| - 1] && Subsequence(a[..|a| - 1], b[..|b| - 1]))))
  }

  lemma SubsequenceGrows(a: seq<Status>, b: seq<Status>, x: Status)
    requires Subsequence(a, b)
    ensures Subsequence(a, b + [x])
    ensures Subsequence(a + [x], b + [x])
  {
    assert (b + [x])[..|b|] == b;
    assert (a + [x])[..|a|] == a;
  }

  lemma {:induction false} SubsequenceRefl(a: seq<Status>)
    ensures Subsequence(a, a)
  {
    if a != [] { SubsequenceRefl(a[..|a| - 1]); }
  }
}
