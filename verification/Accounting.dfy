/**
 Counting a finished run: output and failure records, error summary, outcome
 (src/robot_dh/inference/runner.py, lines 176-206; inference/metrics.py, lines 60-67).
 */
module Accounting {
  import opened JobState
  import opened Schemas
  import opened Executor
  import opened BatchRuns
  import Failures

  type Summary = map<string, nat>

  /** The sum of all counts of a summary. */
  ghost function Total(m: Summary): nat {
    if m == map[] then 0
    else
      var k :| k in m;
      m[k] + Total(m - {k})
  }

  /** The sum does not depend on the order in which the counts are added. */
  lemma {:induction false} TotalWithout(m: Summary, k: string)
    requires k in m
    ensures Total(m) == m[k] + Total(m - {k})
    decreases |m|
  {
    var c :| c in m && Total(m) == m[c] + Total(m - {c});
    if c != k {
      assert |(m - {c}).Keys| < |m.Keys| by { assert (m - {c}).Keys == m.Keys - {c}; }
      assert |(m - {k}).Keys| < |m.Keys| by { assert (m - {k}).Keys == m.Keys - {k}; }
      TotalWithout(m - {c}, k);
      TotalWithout(m - {k}, c);
      assert m - {c} - {k} == m - {k} - {c};
    }
  }

  function CountIn(m: Summary, k: string): nat { if k in m then m[k] else 0 }

  lemma TotalBump(m: Summary, k: string)
    ensures Total(m[k := CountIn(m, k) + 1]) == Total(m) + 1
  {
    var m' := m[k := CountIn(m, k) + 1];
    TotalWithout(m', k);
    if k in m {
      TotalWithout(m, k);
      assert m' - {k} == m - {k};
    } else {
      assert m' - {k} == m;
    }
  }

  /** `error_summary[fr.error_type or "UNKNOWN"] += 1`: every failed record is counted
      under its type once, so the counts add up to the number of failures. */
  method Summarize(types: seq<string>) returns (summary: Summary)
    ensures Total(summary) == |types|
    ensures forall k :: k != "" && k != "UNKNOWN" ==> CountIn(summary, k) == multiset(types)[k]
    ensures CountIn(summary, "UNKNOWN") == multiset(types)[""] + multiset(types)["UNKNOWN"]
  {
    summary := map[];
    for i := 0 to |types|
      invariant Total(summary) == i
      invariant forall k :: k != "" && k != "UNKNOWN" ==> CountIn(summary, k) == multiset(types[..i])[k]
      invariant CountIn(summary, "UNKNOWN") == multiset(types[..i])[""] + multiset(types[..i])["UNKNOWN"]
    {
      var key := Named(types[i]);
      TotalBump(summary, key);
      summary := summary[key := CountIn(summary, key) + 1];
      assert types[..i + 1] == types[..i] + [types[i]];
    }
    assert types[..|types|] == types;
  }

  function Named(errorType: string): string { if errorType == "" then "UNKNOWN" else errorType }

  function Failed(preds: seq<Prediction>): seq<Prediction> {
    if preds == [] then []
    else
      var rest := Failed(preds[..|preds| - 1]);
      if preds[|preds| - 1].ok then rest else rest + [preds[|preds| - 1]]
  }

  lemma {:induction false} OkPlusFailed(preds: seq<Prediction>)
    ensures CountOk(preds) + |Failed(preds)| == |preds|
    ensures |Failed(preds)| == 0 <==> AllOk(preds)
  {
    if preds != [] {
      var n := |preds| - 1;
      OkPlusFailed(preds[..n]);
      assert preds == preds[..n] + [preds[n]];
    }
  }

  /** The error types of the failure records, in order. */
  function ErrorTypes(alnum: char -> bool, failed: seq<Prediction>): (types: seq<string>)
    ensures |types| == |failed|
  {
    seq(|failed|, i requires 0 <= i < |failed| => Failures.ErrorType(alnum, failed[i].message))
  }

  datatype Run = Run(records: nat, succeeded: nat, failed: nat, summary: Summary, outcome: Outcome)

  /** The types of the failure records, and the number of successes. */
  method Classify(preds: seq<Prediction>, alnum: char -> bool) returns (types: seq<string>, succeeded: nat)
    ensures types == ErrorTypes(alnum, Failed(preds)) && succeeded == CountOk(preds)
  {
    types, succeeded := [], 0;
    for i := 0 to |preds|
      invariant types == ErrorTypes(alnum, Failed(preds[..i])) && succeeded == CountOk(preds[..i])
    {
      assert preds[..i + 1][..i] == preds[..i];
      if preds[i].ok {
        succeeded := succeeded + 1;
      } else {
        types := types + [Failures.ErrorType(alnum, preds[i].message)];
      }
    }
    assert preds[..|preds|] == preds;
  }

  /** Everything `run_inference` derives from the predictions of an execution. */
  method Account(samples: seq<Sample>, preds: seq<Prediction>, alnum: char -> bool, maxErrorRate: real, failFast: bool)
    returns (run: Run)
    requires |preds| == |samples|
    ensures run.succeeded + run.failed == run.records == |samples|
    ensures run.failed == |Failed(preds)| == Total(run.summary)
    ensures forall k :: k != "" && k != "UNKNOWN" ==>
      CountIn(run.summary, k) == multiset(ErrorTypes(alnum, Failed(preds)))[k]
    ensures run.failed == 0 <==> AllOk(preds)
    ensures run.outcome == Evaluate(|samples|, run.failed, maxErrorRate, failFast)
  {
    var types, succeeded := Classify(preds, alnum);
    OkPlusFailed(preds);
    var summary := Summarize(types);
    run := Run(|samples|, succeeded, |preds| - succeeded, summary,
               Evaluate(|preds|, |preds| - succeeded, maxErrorRate, failFast));
  }

  lemma {:induction false} SkipsAllFail(xs: seq<Sample>, preds: seq<Prediction>)
    ensures |Failed(preds + Skips(xs))| == |Failed(preds)| + |xs|
  {
    if xs == [] {
      assert preds + Skips(xs) == preds;
    } else {
      var n := |xs| - 1;
      SkipsAllFail(xs[..n], preds);
      var all := preds + Skips(xs);
      assert all[..|all| - 1] == preds + Skips(xs[..n]);
    }
  }

  /** A fail-fast run counts at least one real failure and every unsent sample as failed,
      and always ends FAILED with exit code 1. */
  lemma FailFastAccounting(sent: seq<Prediction>, unsent: seq<Sample>, maxErrorRate: real)
    requires !AllOk(sent)
    ensures var preds := sent + Skips(unsent);
      |Failed(preds)| == |Failed(sent)| + |unsent| && |Failed(sent)| > 0 &&
      Evaluate(|preds|, |Failed(preds)|, maxErrorRate, true).status == FAILED &&
      Evaluate(|preds|, |Failed(preds)|, maxErrorRate, true).exitCode == 1
  {
    SkipsAllFail(unsent, sent);
    OkPlusFailed(sent);
  }
}
