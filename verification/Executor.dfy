/**
 One batch with retries (src/robot_dh/inference/runner.py, lines 296-313).
 The backend is per-sample: what it answers on a sample may depend on how often that
 sample's identifier was sent before, and on nothing else. The reference is "predict each
 sample on its own, up to retry + 1 times".
 */
module Executor {
  import opened Wrappers
  import opened Schemas

  /** `answer(s, k)`: what the backend says about `s` when sent for the k-th time, k >= 0. */
  type Answer = (Sample, nat) -> Prediction

  /** The backend contract: a prediction carries its sample's identifier. */
  ghost predicate Honest(answer: Answer) { forall s, k :: answer(s, k).id == s.id }

  // ---------- the reference: one sample at a time ----------

  /** What is known of a sample after up to `tries` attempts (at least one). */
  function Latest(answer: Answer, s: Sample, tries: nat): Prediction
    requires tries > 0
  {
    if tries == 1 then answer(s, 0)
    else
      var p := Latest(answer, s, tries - 1);
      if p.ok then p else answer(s, tries - 1)
  }

  /** How often the sample was sent for that. */
  function Sent(answer: Answer, s: Sample, tries: nat): nat {
    if tries <= 1 then tries
    else if Latest(answer, s, tries - 1).ok then Sent(answer, s, tries - 1) else tries
  }

  function Tries(retry: int): (n: nat)
    ensures n > 0
  {
    if retry > 0 then retry + 1 else 1
  }

  function Finals(answer: Answer, xs: seq<Sample>, retry: int): (r: seq<Prediction>)
    ensures |r| == |xs|
  {
    seq(|xs|, i requires 0 <= i < |xs| => Latest(answer, xs[i], Tries(retry)))
  }

  /** While nothing was OK, every attempt has been made and the last one counts. */
  lemma {:induction false} StillFailing(answer: Answer, s: Sample, tries: nat)
    requires tries > 0 && !Latest(answer, s, tries).ok
    ensures Latest(answer, s, tries) == answer(s, tries - 1) && Sent(answer, s, tries) == tries
    ensures forall k :: 0 <= k < tries ==> !answer(s, k).ok
  {
    if tries > 1 { StillFailing(answer, s, tries - 1); }
  }

  /** The attempt an OK result came from: the first OK one. */
  lemma {:induction false} FirstOk(answer: Answer, s: Sample, tries: nat) returns (k: nat)
    requires tries > 0 && Latest(answer, s, tries).ok
    ensures k < tries && answer(s, k).ok && forall j :: 0 <= j < k ==> !answer(s, j).ok
    ensures Latest(answer, s, tries) == answer(s, k) && Sent(answer, s, tries) == k + 1
  {
    if tries > 1 && Latest(answer, s, tries - 1).ok {
      k := FirstOk(answer, s, tries - 1);
    } else {
      k := tries - 1;
      if tries > 1 { StillFailing(answer, s, tries - 1); }
    }
  }

  /** A sample ends OK exactly when one of its attempts is OK; then the result is the
      first OK attempt, so an OK result is never overwritten. */
  lemma {:induction false} FirstOkWins(answer: Answer, s: Sample, tries: nat)
    requires tries > 0
    ensures Latest(answer, s, tries).ok <==> exists k :: 0 <= k < tries && answer(s, k).ok
    ensures forall k :: 0 <= k < tries && answer(s, k).ok && (forall j :: 0 <= j < k ==> !answer(s, j).ok) ==>
      Latest(answer, s, tries) == answer(s, k) && Sent(answer, s, tries) == k + 1
    ensures !Latest(answer, s, tries).ok ==>
      Latest(answer, s, tries) == answer(s, tries - 1) && Sent(answer, s, tries) == tries
  {
    if Latest(answer, s, tries).ok {
      var k := FirstOk(answer, s, tries);
    } else {
      StillFailing(answer, s, tries);
    }
  }

  /** The reference in terms of the answers alone: a sample ends OK exactly when one of its
      first 1 + max(0, retry) answers is OK, then with the first such answer, and else with
      the last one it was given. */
  lemma FinalsMean(answer: Answer, xs: seq<Sample>, retry: int, i: nat)
    requires i < |xs|
    ensures var n := if retry > 0 then retry else 0;
      var end := Finals(answer, xs, retry)[i];
      (end.ok <==> exists k :: 0 <= k <= n && answer(xs[i], k).ok) &&
      (forall k :: 0 <= k <= n && answer(xs[i], k).ok && (forall j :: 0 <= j < k ==> !answer(xs[i], j).ok) ==>
        end == answer(xs[i], k)) &&
      (!end.ok ==> end == answer(xs[i], n))
  {
    FirstOkWins(answer, xs[i], Tries(retry));
  }

  lemma FinalsMeanAll(answer: Answer, xs: seq<Sample>, retry: int)
    ensures forall i :: 0 <= i < |xs| ==>
      (Finals(answer, xs, retry)[i].ok <==>
        exists k :: 0 <= k <= (if retry > 0 then retry else 0) && answer(xs[i], k).ok)
  {
    forall i | 0 <= i < |xs|
      ensures Finals(answer, xs, retry)[i].ok <==>
        exists k :: 0 <= k <= (if retry > 0 then retry else 0) && answer(xs[i], k).ok
    {
      FinalsMean(answer, xs, retry, i);
    }
  }

  lemma {:induction false} SentBounds(answer: Answer, s: Sample, tries: nat)
    ensures tries > 0 ==> 0 < Sent(answer, s, tries) <= tries
  {
    if tries > 1 { SentBounds(answer, s, tries - 1); }
  }

  // ---------- one call of the backend ----------

  /** How often each identifier was sent. */
  type Counts = map<string, nat>

  function CountIn(sent: Counts, id: string): nat { if id in sent then sent[id] else 0 }

  /** How often each identifier was sent, after a call with `xs`. */
  function Sends(sent: Counts, xs: seq<Sample>): Counts {
    if xs == [] then sent
    else
      var before, id := Sends(sent, xs[..|xs| - 1]), xs[|xs| - 1].id;
      before[id := CountIn(before, id) + 1]
  }

  /** The answers of that call: each sample gets its identifier's next attempt. */
  function Answers(answer: Answer, sent: Counts, xs: seq<Sample>): (r: seq<Prediction>)
    ensures |r| == |xs|
  {
    if xs == [] then []
    else
      var n := |xs| - 1;
      Answers(answer, sent, xs[..n]) + [answer(xs[n], CountIn(Sends(sent, xs[..n]), xs[n].id))]
  }

  lemma {:induction false} AnswerIds(answer: Answer, sent: Counts, xs: seq<Sample>)
    requires Honest(answer)
    ensures forall i :: 0 <= i < |xs| ==> Answers(answer, sent, xs)[i].id == xs[i].id
  {
    if xs != [] { AnswerIds(answer, sent, xs[..|xs| - 1]); }
  }

  lemma {:induction false} SendsOthers(sent: Counts, xs: seq<Sample>, id: string)
    requires forall i :: 0 <= i < |xs| ==> xs[i].id != id
    ensures CountIn(Sends(sent, xs), id) == CountIn(sent, id)
  {
    if xs != [] { SendsOthers(sent, xs[..|xs| - 1], id); }
  }

  /** With distinct identifiers every sample is simply sent once more. */
  lemma {:induction false} DistinctCall(answer: Answer, sent: Counts, xs: seq<Sample>)
    requires DistinctIds(xs)
    ensures forall i :: 0 <= i < |xs| ==> Answers(answer, sent, xs)[i] == answer(xs[i], CountIn(sent, xs[i].id))
    ensures forall i :: 0 <= i < |xs| ==> CountIn(Sends(sent, xs), xs[i].id) == CountIn(sent, xs[i].id) + 1
  {
    if xs != [] {
      var n := |xs| - 1;
      DistinctCall(answer, sent, xs[..n]);
      SendsOthers(sent, xs[..n], xs[n].id);
      assert forall i :: 0 <= i < n ==> xs[..n][i] == xs[i];
    }
  }

  /** The backend, with the number of times each identifier was sent so far. */
  class Backend {
    const answer: Answer
    var sent: Counts

    constructor (answer: Answer)
      ensures this.answer == answer && sent == map[]
    {
      this.answer := answer;
      sent := map[];
    }

    /** One call: every sample is answered, in order, with its next attempt. */
    method PredictBatch(xs: seq<Sample>) returns (preds: seq<Prediction>)
      modifies this`sent
      ensures preds == Answers(answer, old(sent), xs) && sent == Sends(old(sent), xs)
    {
      preds := [];
      for i := 0 to |xs|
        invariant preds == Answers(answer, old(sent), xs[..i]) && sent == Sends(old(sent), xs[..i])
      {
        assert xs[..i + 1][..i] == xs[..i];
        preds := preds + [answer(xs[i], CountIn(sent, xs[i].id))];
        sent := sent[xs[i].id := CountIn(sent, xs[i].id) + 1];
      }
      assert xs[..|xs|] == xs;
    }
  }

  // ---------- the id-keyed dictionary ----------

  type ById = map<string, Prediction>

  /** `by_id[p.sample_id] = p` for each prediction, in order. */
  function Store(byId: ById, preds: seq<Prediction>): ById {
    if preds == [] then byId else Store(byId, preds[..|preds| - 1])[preds[|preds| - 1].id := preds[|preds| - 1]]
  }

  /** The dictionary answers for every sample, each entry under its own identifier. */
  predicate Known(byId: ById, xs: seq<Sample>) {
    forall i :: 0 <= i < |xs| ==> xs[i].id in byId && byId[xs[i].id].id == xs[i].id
  }

  /** The samples whose stored prediction is not OK. */
  function NotOk(byId: ById, xs: seq<Sample>): seq<Sample> {
    if xs == [] then []
    else
      var rest := NotOk(byId, xs[..|xs| - 1]);
      var s := xs[|xs| - 1];
      if s.id in byId && !byId[s.id].ok then rest + [s] else rest
  }

  /** `[by_id[s.sample_id] for s in batch]`. */
  function Lookup(byId: ById, xs: seq<Sample>): (r: seq<Prediction>)
    requires Known(byId, xs)
    ensures |r| == |xs|
  {
    seq(|xs|, i requires 0 <= i < |xs| => byId[xs[i].id])
  }

  method StoreAll(byId: ById, preds: seq<Prediction>) returns (r: ById)
    ensures r == Store(byId, preds)
  {
    r := byId;
    for i := 0 to |preds|
      invariant r == Store(byId, preds[..i])
    {
      assert preds[..i + 1][..i] == preds[..i];
      r := r[preds[i].id := preds[i]];
    }
    assert preds[..|preds|] == preds;
  }

  method SelectFailing(byId: ById, batch: seq<Sample>) returns (again: seq<Sample>)
    ensures again == NotOk(byId, batch)
  {
    again := [];
    for i := 0 to |batch|
      invariant again == NotOk(byId, batch[..i])
    {
      assert batch[..i + 1][..i] == batch[..i];
      if batch[i].id in byId && !byId[batch[i].id].ok { again := again + [batch[i]]; }
    }
    assert batch[..|batch|] == batch;
  }

  /** Exactly the failing samples are re-sent, in batch order. */
  lemma {:induction false} NotOkMembers(byId: ById, xs: seq<Sample>)
    ensures forall s :: multiset(NotOk(byId, xs))[s] == if s.id in byId && !byId[s.id].ok then multiset(xs)[s] else 0
  {
    if xs != [] {
      var n := |xs| - 1;
      NotOkMembers(byId, xs[..n]);
      assert xs == xs[..n] + [xs[n]];
    }
  }

  method Collect(byId: ById, batch: seq<Sample>) returns (results: seq<Prediction>)
    requires Known(byId, batch)
    ensures results == Lookup(byId, batch)
  {
    results := [];
    for i := 0 to |batch|
      invariant results == Lookup(byId, batch)[..i]
    {
      results := results + [byId[batch[i].id]];
    }
  }

  /** Storing keeps what is known and adds the new predictions under their identifiers. */
  lemma {:induction false} StoreKnows(byId: ById, preds: seq<Prediction>, id: string)
    requires id in byId ==> byId[id].id == id
    ensures id in Store(byId, preds) <==> id in byId || exists i :: 0 <= i < |preds| && preds[i].id == id
    ensures id in Store(byId, preds) ==> Store(byId, preds)[id].id == id
  {
    if preds != [] {
      var n := |preds| - 1;
      StoreKnows(byId, preds[..n], id);
      assert forall i :: 0 <= i < n ==> preds[..n][i] == preds[i];
      if i :| 0 <= i < |preds| && preds[i].id == id { if i < n { assert preds[..n][i].id == id; } }
    }
  }

  lemma {:induction false} StoreGives(byId: ById, preds: seq<Prediction>)
    requires forall i, j :: 0 <= i < j < |preds| ==> preds[i].id != preds[j].id
    ensures forall i :: 0 <= i < |preds| ==>
      preds[i].id in Store(byId, preds) && Store(byId, preds)[preds[i].id] == preds[i]
    ensures forall id :: (forall i :: 0 <= i < |preds| ==> preds[i].id != id) ==>
      (id in Store(byId, preds) <==> id in byId) && (id in byId ==> Store(byId, preds)[id] == byId[id])
  {
    if preds != [] {
      var n := |preds| - 1;
      StoreGives(byId, preds[..n]);
      assert forall i :: 0 <= i < n ==> preds[..n][i] == preds[i];
    }
  }

  /** These are predictions for these samples. */
  predicate For(preds: seq<Prediction>, xs: seq<Sample>) {
    |preds| == |xs| && forall i :: 0 <= i < |xs| ==> preds[i].id == xs[i].id
  }

  lemma KnownAfter(byId: ById, preds: seq<Prediction>, again: seq<Sample>, xs: seq<Sample>)
    requires For(preds, again) && (Known(byId, xs) || (again == xs && byId == map[]))
    ensures Known(Store(byId, preds), xs)
  {
    forall i | 0 <= i < |xs|
      ensures xs[i].id in Store(byId, preds) && Store(byId, preds)[xs[i].id].id == xs[i].id
    {
      StoreKnows(byId, preds, xs[i].id);
    }
  }

  /** The dictionary gives back every list of predictions for these samples if and only if
      no two samples share an identifier. */
  lemma DictionaryFaithfulIff(xs: seq<Sample>)
    ensures DistinctIds(xs) <==>
      forall preds: seq<Prediction> :: For(preds, xs) ==>
        Known(Store(map[], preds), xs) && Lookup(Store(map[], preds), xs) == preds
  {
    if DistinctIds(xs) {
      forall preds: seq<Prediction> | For(preds, xs)
        ensures Known(Store(map[], preds), xs) && Lookup(Store(map[], preds), xs) == preds
      {
        KnownAfter(map[], preds, xs, xs);
        StoreGives(map[], preds);
      }
    } else {
      var i, j :| 0 <= i < j < |xs| && xs[i].id == xs[j].id;
      var preds := seq(|xs|, k requires 0 <= k < |xs| => Prediction(xs[k].id, true, "", k, None));
      assert preds[i] != preds[j];
      if Known(Store(map[], preds), xs) {
        assert Lookup(Store(map[], preds), xs)[i] == Lookup(Store(map[], preds), xs)[j];
      }
      assert For(preds, xs);
    }
  }

  // ---------- one batch with retries ----------

  /** What is known, and how often each identifier was sent. */
  datatype Progress = Progress(byId: ById, sent: Counts)

  function Resend(answer: Answer, xs: seq<Sample>, p: Progress): Progress {
    Progress(Store(p.byId, Answers(answer, p.sent, xs)), Sends(p.sent, xs))
  }

  /** Up to `left` more rounds, each re-sending what is not OK, stopping when all is. */
  function Rounds(answer: Answer, batch: seq<Sample>, p: Progress, left: nat): Progress
    decreases left
  {
    var again := NotOk(p.byId, batch);
    if left == 0 || again == [] then p else Rounds(answer, batch, Resend(answer, again, p), left - 1)
  }

  function BatchProgress(answer: Answer, sent: Counts, batch: seq<Sample>, retry: int): Progress {
    Rounds(answer, batch, Resend(answer, batch, Progress(map[], sent)), Tries(retry) - 1)
  }

  lemma ResendKnows(answer: Answer, again: seq<Sample>, p: Progress, xs: seq<Sample>)
    requires Honest(answer) && (Known(p.byId, xs) || (again == xs && p.byId == map[]))
    ensures Known(Resend(answer, again, p).byId, xs)
  {
    AnswerIds(answer, p.sent, again);
    KnownAfter(p.byId, Answers(answer, p.sent, again), again, xs);
  }

  lemma {:induction false} RoundsKnow(answer: Answer, batch: seq<Sample>, p: Progress, left: nat)
    requires Honest(answer) && Known(p.byId, batch)
    ensures Known(Rounds(answer, batch, p, left).byId, batch)
    decreases left
  {
    var again := NotOk(p.byId, batch);
    if left > 0 && again != [] {
      ResendKnows(answer, again, p, batch);
      RoundsKnow(answer, batch, Resend(answer, again, p), left - 1);
    }
  }

  /** Nobody's prediction is missing, whatever identifiers repeat. */
  lemma BatchKnows(answer: Answer, sent: Counts, batch: seq<Sample>, retry: int)
    requires Honest(answer)
    ensures Known(BatchProgress(answer, sent, batch, retry).byId, batch)
  {
    ResendKnows(answer, batch, Progress(map[], sent), batch);
    RoundsKnow(answer, batch, Resend(answer, batch, Progress(map[], sent)), Tries(retry) - 1);
  }

  /** What a batch yields, for any samples and any counts so far. */
  ghost function BatchResults(answer: Answer, sent: Counts, batch: seq<Sample>, retry: int): (r: seq<Prediction>)
    requires Honest(answer)
    ensures For(r, batch)
  {
    BatchKnows(answer, sent, batch, retry);
    Lookup(BatchProgress(answer, sent, batch, retry).byId, batch)
  }

  ghost function BatchSent(answer: Answer, sent: Counts, batch: seq<Sample>, retry: int): Counts {
    BatchProgress(answer, sent, batch, retry).sent
  }

  /** One call, then re-send what is not OK, at most `retry` times. */
  method RetryLoop(backend: Backend, batch: seq<Sample>, retry: int) returns (results: seq<Prediction>)
    requires Honest(backend.answer)
    modifies backend`sent
    ensures results == BatchResults(backend.answer, old(backend.sent), batch, retry)
    ensures backend.sent == BatchSent(backend.answer, old(backend.sent), batch, retry)
  {
    ghost var goal := BatchProgress(backend.answer, backend.sent, batch, retry);
    var preds := backend.PredictBatch(batch);
    var byId := StoreAll(map[], preds);
    var left: nat := if retry > 0 then retry else 0;
    while left > 0
      invariant Rounds(backend.answer, batch, Progress(byId, backend.sent), left) == goal
    {
      var again := SelectFailing(byId, batch);
      if again == [] { break; }
      preds := backend.PredictBatch(again);
      byId := StoreAll(byId, preds);
      left := left - 1;
    }
    BatchKnows(backend.answer, old(backend.sent), batch, retry);
    results := Collect(byId, batch);
  }

  /** _predict_with_retry: one call, then re-send what is not OK, at most `retry` times. */
  method PredictWithRetry(backend: Backend, batch: seq<Sample>, retry: int) returns (results: seq<Prediction>)
    requires Honest(backend.answer)
    modifies backend`sent
    ensures results == BatchResults(backend.answer, old(backend.sent), batch, retry)
    ensures backend.sent == BatchSent(backend.answer, old(backend.sent), batch, retry)
    ensures DistinctIds(batch) && Fresh(batch, old(backend.sent)) ==> results == Finals(backend.answer, batch, retry)
    ensures DistinctIds(batch) && (forall s :: s in batch ==> s.id !in old(backend.sent)) ==>
      forall i :: 0 <= i < |batch| ==>
        (results[i].ok <==> exists k :: 0 <= k <= (if retry > 0 then retry else 0) && backend.answer(batch[i], k).ok) &&
        batch[i].id in backend.sent && backend.sent[batch[i].id] <= 1 + (if retry > 0 then retry else 0)
  {
    results := RetryLoop(backend, batch, retry);
    if DistinctIds(batch) {
      if Fresh(batch, old(backend.sent)) { BatchIsReference(backend.answer, old(backend.sent), batch, retry); }
      if forall s :: s in batch ==> s.id !in old(backend.sent) {
        BatchMeans(backend.answer, old(backend.sent), batch, retry);
      }
    }
  }

  // ---------- with distinct identifiers that is the reference ----------

  /** None of these samples was sent yet. */
  predicate Fresh(xs: seq<Sample>, sent: Counts) { forall s :: s in xs ==> CountIn(sent, s.id) == 0 }

  /** The samples of a batch still failing after `tries` attempts. */
  function Failing(answer: Answer, xs: seq<Sample>, tries: nat): seq<Sample>
    requires tries > 0
  {
    if xs == [] then []
    else
      var rest := Failing(answer, xs[..|xs| - 1], tries);
      if Latest(answer, xs[|xs| - 1], tries).ok then rest else rest + [xs[|xs| - 1]]
  }

  lemma {:induction false} FailingMembers(answer: Answer, xs: seq<Sample>, tries: nat)
    requires tries > 0 && DistinctIds(xs)
    ensures DistinctIds(Failing(answer, xs, tries))
    ensures forall s :: s in Failing(answer, xs, tries) <==> s in xs && !Latest(answer, s, tries).ok
  {
    if xs != [] {
      var n := |xs| - 1;
      FailingMembers(answer, xs[..n], tries);
      var rest := Failing(answer, xs[..n], tries);
      assert xs == xs[..n] + [xs[n]];
      forall i | 0 <= i < |rest| ensures rest[i].id != xs[n].id {
        assert rest[i] in rest;
        var k :| 0 <= k < n && xs[..n][k] == rest[i];
      }
    }
  }

  /** After `tries` rounds the dictionary knows the sample's latest result, and the
      backend has been asked exactly as often as the reference says. */
  predicate SampleDone(answer: Answer, s: Sample, tries: nat, p: Progress)
    requires tries > 0
  {
    s.id in p.byId && p.byId[s.id] == Latest(answer, s, tries) && CountIn(p.sent, s.id) == Sent(answer, s, tries)
  }

  predicate RoundDone(answer: Answer, batch: seq<Sample>, tries: nat, p: Progress)
    requires tries > 0
  {
    forall s :: s in batch ==> SampleDone(answer, s, tries, p)
  }

  lemma {:induction false} OkIsStable(answer: Answer, s: Sample, tries: nat, later: nat)
    requires 0 < tries <= later && Latest(answer, s, tries).ok
    ensures Latest(answer, s, later) == Latest(answer, s, tries)
    ensures Sent(answer, s, later) == Sent(answer, s, tries)
  {
    if tries < later { OkIsStable(answer, s, tries, later - 1); }
  }

  /** With every latest result in the dictionary, what it calls failing is failing. */
  lemma {:induction false} NotOkIsFailing(answer: Answer, p: Progress, xs: seq<Sample>, tries: nat)
    requires tries > 0 && RoundDone(answer, xs, tries, p)
    ensures NotOk(p.byId, xs) == Failing(answer, xs, tries)
  {
    if xs != [] {
      var n := |xs| - 1;
      assert xs[n] in xs && SampleDone(answer, xs[n], tries, p);
      forall s | s in xs[..n] ensures SampleDone(answer, s, tries, p) { assert s in xs; }
      NotOkIsFailing(answer, p, xs[..n], tries);
    }
  }

  lemma SameIdSameSample(xs: seq<Sample>, s: Sample, t: Sample)
    requires DistinctIds(xs) && s in xs && t in xs
    ensures s.id == t.id ==> s == t
  {
    var i :| 0 <= i < |xs| && xs[i] == s;
    var j :| 0 <= j < |xs| && xs[j] == t;
  }

  lemma AllOkSettles(answer: Answer, batch: seq<Sample>, tries: nat, later: nat, p: Progress)
    requires DistinctIds(batch) && 0 < tries <= later && RoundDone(answer, batch, tries, p)
    requires Failing(answer, batch, tries) == []
    ensures RoundDone(answer, batch, later, p)
  {
    FailingMembers(answer, batch, tries);
    forall s | s in batch ensures SampleDone(answer, s, later, p) {
      assert SampleDone(answer, s, tries, p);
      assert s !in Failing(answer, batch, tries);
      OkIsStable(answer, s, tries, later);
    }
  }

  /** Sending a sample stores its next attempt. */
  lemma ResentSample(answer: Answer, xs: seq<Sample>, p: Progress, i: nat)
    requires Honest(answer) && DistinctIds(xs) && i < |xs|
    ensures var q, s := Resend(answer, xs, p), xs[i];
      s.id in q.byId && q.byId[s.id] == answer(s, CountIn(p.sent, s.id)) &&
      CountIn(q.sent, s.id) == CountIn(p.sent, s.id) + 1
  {
    var preds := Answers(answer, p.sent, xs);
    AnswerIds(answer, p.sent, xs);
    DistinctCall(answer, p.sent, xs);
    forall a, b | 0 <= a < b < |preds| ensures preds[a].id != preds[b].id { assert xs[a].id != xs[b].id; }
    StoreGives(p.byId, preds);
    assert preds[i].id == xs[i].id;
  }

  /** Not sending it changes nothing about it. */
  lemma KeptSample(answer: Answer, xs: seq<Sample>, p: Progress, id: string)
    requires Honest(answer) && DistinctIds(xs) && forall i :: 0 <= i < |xs| ==> xs[i].id != id
    requires id in p.byId
    ensures var q := Resend(answer, xs, p);
      id in q.byId && q.byId[id] == p.byId[id] && CountIn(q.sent, id) == CountIn(p.sent, id)
  {
    var preds := Answers(answer, p.sent, xs);
    AnswerIds(answer, p.sent, xs);
    SendsOthers(p.sent, xs, id);
    forall a, b | 0 <= a < b < |preds| ensures preds[a].id != preds[b].id { assert xs[a].id != xs[b].id; }
    StoreGives(p.byId, preds);
    assert forall i :: 0 <= i < |preds| ==> preds[i].id != id;
  }

  lemma FirstRound(answer: Answer, batch: seq<Sample>, sent: Counts)
    requires Honest(answer) && DistinctIds(batch) && Fresh(batch, sent)
    ensures RoundDone(answer, batch, 1, Resend(answer, batch, Progress(map[], sent)))
  {
    forall s | s in batch ensures SampleDone(answer, s, 1, Resend(answer, batch, Progress(map[], sent))) {
      var i :| 0 <= i < |batch| && batch[i] == s;
      ResentSample(answer, batch, Progress(map[], sent), i);
    }
  }

  lemma NextRoundOf(answer: Answer, batch: seq<Sample>, again: seq<Sample>, tries: nat, p: Progress, s: Sample)
    requires Honest(answer) && DistinctIds(batch) && tries > 0 && s in batch && SampleDone(answer, s, tries, p)
    requires again == Failing(answer, batch, tries)
    ensures SampleDone(answer, s, tries + 1, Resend(answer, again, p))
  {
    FailingMembers(answer, batch, tries);
    if Latest(answer, s, tries).ok {
      forall i | 0 <= i < |again| ensures again[i].id != s.id {
        assert again[i] in again;
        SameIdSameSample(batch, again[i], s);
      }
      KeptSample(answer, again, p, s.id);
    } else {
      var i :| 0 <= i < |again| && again[i] == s;
      FirstOkWins(answer, s, tries);
      ResentSample(answer, again, p, i);
    }
  }

  /** Re-sending the failing samples and storing their answers completes one more round. */
  lemma NextRound(answer: Answer, batch: seq<Sample>, tries: nat, p: Progress)
    requires Honest(answer) && DistinctIds(batch) && tries > 0 && RoundDone(answer, batch, tries, p)
    ensures NotOk(p.byId, batch) == Failing(answer, batch, tries)
    ensures RoundDone(answer, batch, tries + 1, Resend(answer, NotOk(p.byId, batch), p))
  {
    NotOkIsFailing(answer, p, batch, tries);
    var again := NotOk(p.byId, batch);
    forall s | s in batch ensures SampleDone(answer, s, tries + 1, Resend(answer, again, p)) {
      assert SampleDone(answer, s, tries, p);
      NextRoundOf(answer, batch, again, tries, p, s);
    }
  }

  lemma {:induction false} RoundsReach(answer: Answer, batch: seq<Sample>, tries: nat, p: Progress, left: nat)
    requires Honest(answer) && DistinctIds(batch) && tries > 0 && RoundDone(answer, batch, tries, p)
    ensures RoundDone(answer, batch, tries + left, Rounds(answer, batch, p, left))
    decreases left
  {
    var again := NotOk(p.byId, batch);
    NextRound(answer, batch, tries, p);
    if again == [] {
      AllOkSettles(answer, batch, tries, tries + left, p);
    } else if left > 0 {
      RoundsReach(answer, batch, tries + 1, Resend(answer, again, p), left - 1);
    }
  }

  lemma BatchDone(answer: Answer, sent: Counts, batch: seq<Sample>, retry: int)
    requires Honest(answer) && DistinctIds(batch) && Fresh(batch, sent)
    ensures RoundDone(answer, batch, Tries(retry), BatchProgress(answer, sent, batch, retry))
  {
    FirstRound(answer, batch, sent);
    RoundsReach(answer, batch, 1, Resend(answer, batch, Progress(map[], sent)), Tries(retry) - 1);
  }

  /** One batch with retries equals predicting its samples one at a time, and asks the
      backend exactly as often. */
  lemma BatchIsReference(answer: Answer, sent: Counts, batch: seq<Sample>, retry: int)
    requires Honest(answer) && DistinctIds(batch) && Fresh(batch, sent)
    ensures BatchResults(answer, sent, batch, retry) == Finals(answer, batch, retry)
    ensures forall s :: s in batch ==>
      CountIn(BatchSent(answer, sent, batch, retry), s.id) == Sent(answer, s, Tries(retry))
  {
    var p := BatchProgress(answer, sent, batch, retry);
    BatchDone(answer, sent, batch, retry);
    forall i | 0 <= i < |batch|
      ensures BatchResults(answer, sent, batch, retry)[i] == Finals(answer, batch, retry)[i]
    {
      assert SampleDone(answer, batch[i], Tries(retry), p);
    }
    forall s | s in batch ensures CountIn(p.sent, s.id) == Sent(answer, s, Tries(retry)) {
      assert SampleDone(answer, s, Tries(retry), p);
    }
  }

  lemma ResultMeans(answer: Answer, sent: Counts, batch: seq<Sample>, retry: int, i: nat)
    requires Honest(answer) && DistinctIds(batch) && Fresh(batch, sent) && i < |batch|
    ensures BatchResults(answer, sent, batch, retry)[i].ok <==>
      exists k :: 0 <= k <= (if retry > 0 then retry else 0) && answer(batch[i], k).ok
  {
    BatchIsReference(answer, sent, batch, retry);
    FinalsMean(answer, batch, retry, i);
  }

  lemma CountMeans(answer: Answer, sent: Counts, batch: seq<Sample>, retry: int, i: nat)
    requires Honest(answer) && DistinctIds(batch) && Fresh(batch, sent) && i < |batch|
    ensures var after := BatchSent(answer, sent, batch, retry);
      batch[i].id in after && 0 < after[batch[i].id] <= 1 + (if retry > 0 then retry else 0)
  {
    BatchIsReference(answer, sent, batch, retry);
    SentBounds(answer, batch[i], Tries(retry));
    assert batch[i] in batch;
  }

  /** The same in terms of the answers and counts alone. */
  lemma BatchMeans(answer: Answer, sent: Counts, batch: seq<Sample>, retry: int)
    requires Honest(answer) && DistinctIds(batch) && forall s :: s in batch ==> s.id !in sent
    ensures var results, after := BatchResults(answer, sent, batch, retry), BatchSent(answer, sent, batch, retry);
      forall i :: 0 <= i < |batch| ==>
        (results[i].ok <==> exists k :: 0 <= k <= (if retry > 0 then retry else 0) && answer(batch[i], k).ok) &&
        batch[i].id in after && 0 < after[batch[i].id] <= 1 + (if retry > 0 then retry else 0)
  {
    forall i | 0 <= i < |batch|
      ensures BatchResults(answer, sent, batch, retry)[i].ok <==>
        exists k :: 0 <= k <= (if retry > 0 then retry else 0) && answer(batch[i], k).ok
      ensures batch[i].id in BatchSent(answer, sent, batch, retry)
      ensures 0 < BatchSent(answer, sent, batch, retry)[batch[i].id] <= 1 + (if retry > 0 then retry else 0)
    {
      ResultMeans(answer, sent, batch, retry, i);
      CountMeans(answer, sent, batch, retry, i);
    }
  }
}
