/**
 Which failures are sent again (src/robot_dh/inference/runner.py, lines 303-311). The
 documentation promises retries for failures that failures.py classifies as retryable;
 the loop never asks. Here is exactly when that makes no difference.
 */
module Resends {
  import opened Wrappers
  import opened Schemas
  import opened Executor
  import Failures

  /** The failures documented as worth another attempt; `alnum` is the character class. */
  function Worth(alnum: char -> bool): Prediction -> bool {
    (p: Prediction) => Failures.IsRetryable(Failures.ErrorType(alnum, p.message))
  }

  // The results hold for any notion of `worth`, and so for Worth(alnum).

  /** The failing samples whose stored failure is worth a retry. */
  function WorthResending(worth: Prediction -> bool, byId: ById, xs: seq<Sample>): seq<Sample> {
    if xs == [] then []
    else
      var rest := WorthResending(worth, byId, xs[..|xs| - 1]);
      var s := xs[|xs| - 1];
      if s.id in byId && !byId[s.id].ok && worth(byId[s.id]) then rest + [s] else rest
  }

  /** A round re-sends what it should if and only if every stored failure is worth a retry;
      otherwise it re-sends more. */
  lemma {:induction false} ResendsWorthIff(worth: Prediction -> bool, byId: ById, xs: seq<Sample>)
    ensures |WorthResending(worth, byId, xs)| <= |NotOk(byId, xs)|
    ensures NotOk(byId, xs) == WorthResending(worth, byId, xs) <==>
      forall s :: s in xs && s.id in byId && !byId[s.id].ok ==> worth(byId[s.id])
  {
    if xs != [] {
      var n := |xs| - 1;
      ResendsWorthIff(worth, byId, xs[..n]);
      assert xs == xs[..n] + [xs[n]];
      var all, some := NotOk(byId, xs[..n]), WorthResending(worth, byId, xs[..n]);
      if NotOk(byId, xs) == WorthResending(worth, byId, xs) && xs[n].id in byId && !byId[xs[n].id].ok {
        assert worth(byId[xs[n].id]);
        assert all == (all + [xs[n]])[..|all|] && some == (some + [xs[n]])[..|some|];
      }
    }
  }

  /** How often a sample is sent when retries stop at a failure not worth one. */
  function SentWorth(answer: Answer, worth: Prediction -> bool, s: Sample, tries: nat): nat {
    if tries <= 1 then tries
    else
      var n := SentWorth(answer, worth, s, tries - 1);
      if n < tries - 1 || answer(s, n - 1).ok || !worth(answer(s, n - 1)) then n else n + 1
  }

  /** Over a whole run, a sample is sent no more often than documented if and only if every
      failure it was re-sent after was worth a retry. */
  lemma {:induction false} SentWorthIff(answer: Answer, worth: Prediction -> bool, s: Sample, tries: nat)
    requires tries > 0
    ensures 0 < SentWorth(answer, worth, s, tries) <= Sent(answer, s, tries) <= tries
    ensures SentWorth(answer, worth, s, tries) == Sent(answer, s, tries) <==>
      forall k :: 0 <= k < Sent(answer, s, tries) - 1 ==> worth(answer(s, k))
  {
    if tries > 1 {
      SentWorthIff(answer, worth, s, tries - 1);
      if Latest(answer, s, tries - 1).ok {
        var k := FirstOk(answer, s, tries - 1);
        var n := SentWorth(answer, worth, s, tries - 1);
        if n == tries - 1 { assert k == n - 1; }
      } else {
        StillFailing(answer, s, tries - 1);
      }
    }
  }

  /** A contract violation of the endpoint is re-sent although it is not worth it. */
  lemma BadResponseIsResent(alnum: char -> bool, s: Sample)
    ensures var bad := Prediction(s.id, false, Failures.BAD_RESPONSE, 0, None);
      NotOk(map[s.id := bad], [s]) == [s] && WorthResending(Worth(alnum), map[s.id := bad], [s]) == []
  {
    var bad := Prediction(s.id, false, Failures.BAD_RESPONSE, 0, None);
    Failures.BadResponseIsFinal(alnum);
    assert [s][..0] == [];
    assert NotOk(map[s.id := bad], []) == [] && WorthResending(Worth(alnum), map[s.id := bad], []) == [];
  }
}
