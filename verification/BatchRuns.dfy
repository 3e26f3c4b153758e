/**
 Many batches, one after the other: sequential and fail-fast execution
 (src/robot_dh/inference/runner.py, lines 246-294 and 316-326).
 */
module BatchRuns {
  import opened Wrappers
  import opened Schemas
  import opened Executor

  // ---------- the predictions of all batches ----------

  /** Identifiers outside `batch` were not sent. */
  ghost predicate Untouched(batch: seq<Sample>, before: Counts, after: Counts) {
    forall id :: (forall s :: s in batch ==> s.id != id) ==> CountIn(after, id) == CountIn(before, id)
  }

  lemma {:induction false} RoundsUntouched(answer: Answer, batch: seq<Sample>, p: Progress, left: nat)
    ensures Untouched(batch, p.sent, Rounds(answer, batch, p, left).sent)
    decreases left
  {
    var again := NotOk(p.byId, batch);
    if left > 0 && again != [] {
      RoundsUntouched(answer, batch, Resend(answer, again, p), left - 1);
      NotOkMembers(p.byId, batch);
      SomeUntouched(batch, again, p.sent);
    }
  }

  lemma SomeUntouched(batch: seq<Sample>, some: seq<Sample>, sent: Counts)
    requires forall s :: multiset(some)[s] <= multiset(batch)[s]
    ensures Untouched(batch, sent, Sends(sent, some))
  {
    forall id | forall s :: s in batch ==> s.id != id ensures CountIn(Sends(sent, some), id) == CountIn(sent, id) {
      forall i | 0 <= i < |some| ensures some[i].id != id {
        assert some[i] in multiset(some);
        assert some[i] in multiset(batch);
      }
      SendsOthers(sent, some, id);
    }
  }

  lemma BatchUntouched(answer: Answer, sent: Counts, batch: seq<Sample>, retry: int)
    ensures Untouched(batch, sent, BatchSent(answer, sent, batch, retry))
  {
    SomeUntouched(batch, batch, sent);
    RoundsUntouched(answer, batch, Resend(answer, batch, Progress(map[], sent)), Tries(retry) - 1);
  }

  /** The counts after these batches, one after the other. */
  ghost function AllSent(answer: Answer, sent: Counts, batches: seq<seq<Sample>>, retry: int): Counts {
    if batches == [] then sent
    else
      var n := |batches| - 1;
      BatchSent(answer, AllSent(answer, sent, batches[..n], retry), batches[n], retry)
  }

  /** Their predictions, glued: one per sample, in order, whatever identifiers repeat. */
  ghost function AllResults(answer: Answer, sent: Counts, batches: seq<seq<Sample>>, retry: int)
    : (r: seq<Prediction>)
    requires Honest(answer)
    ensures For(r, Flatten(batches))
  {
    if batches == [] then []
    else
      var n := |batches| - 1;
      AllResults(answer, sent, batches[..n], retry) +
      BatchResults(answer, AllSent(answer, sent, batches[..n], retry), batches[n], retry)
  }

  lemma AllStep(answer: Answer, sent: Counts, batches: seq<seq<Sample>>, retry: int, b: nat)
    requires Honest(answer) && b < |batches|
    ensures var before := AllSent(answer, sent, batches[..b], retry);
      AllSent(answer, sent, batches[..b + 1], retry) == BatchSent(answer, before, batches[b], retry) &&
      AllResults(answer, sent, batches[..b + 1], retry) ==
        AllResults(answer, sent, batches[..b], retry) + BatchResults(answer, before, batches[b], retry) &&
      Flatten(batches[..b + 1]) == Flatten(batches[..b]) + batches[b]
  {
    assert batches[..b + 1][..b] == batches[..b];
  }

  lemma {:induction false} AllUntouched(answer: Answer, sent: Counts, batches: seq<seq<Sample>>, retry: int)
    ensures Untouched(Flatten(batches), sent, AllSent(answer, sent, batches, retry))
  {
    if batches != [] {
      var n := |batches| - 1;
      AllUntouched(answer, sent, batches[..n], retry);
      var before := AllSent(answer, sent, batches[..n], retry);
      BatchUntouched(answer, before, batches[n], retry);
      UntouchedChain(Flatten(batches[..n]), batches[n], sent, before, AllSent(answer, sent, batches, retry));
    }
  }

  lemma UntouchedChain(done: seq<Sample>, batch: seq<Sample>, start: Counts,
                       before: Counts, after: Counts)
    requires Untouched(done, start, before) && Untouched(batch, before, after)
    ensures Untouched(done + batch, start, after)
  {
    forall id | forall s :: s in done + batch ==> s.id != id ensures CountIn(after, id) == CountIn(start, id) {
      forall s | s in done ensures s.id != id { assert s in done + batch; }
      forall s | s in batch ensures s.id != id { assert s in done + batch; }
    }
  }

  lemma {:induction false} FlattenPrefix(batches: seq<seq<Sample>>, b: nat)
    requires b < |batches|
    ensures Flatten(batches[..b + 1]) == Flatten(batches[..b]) + batches[b]
    ensures Flatten(batches[..b + 1]) <= Flatten(batches)
    decreases |batches| - b
  {
    assert batches[..b + 1][..b] == batches[..b];
    if b + 1 == |batches| {
      assert batches[..b + 1] == batches;
    } else {
      FlattenPrefix(batches, b + 1);
    }
  }

  lemma FinalsConcat(answer: Answer, xs: seq<Sample>, ys: seq<Sample>, retry: int)
    ensures Finals(answer, xs + ys, retry) == Finals(answer, xs, retry) + Finals(answer, ys, retry)
  {}

  /** The next batch: distinct inside, and disjoint from everything already done. */
  lemma NextBatch(batches: seq<seq<Sample>>, b: nat)
    requires DistinctIds(Flatten(batches)) && b < |batches|
    ensures DistinctIds(batches[b])
    ensures forall s, t :: s in Flatten(batches[..b]) && t in batches[b] ==> s.id != t.id
    ensures Flatten(batches[..b + 1]) == Flatten(batches[..b]) + batches[b]
  {
    FlattenPrefix(batches, b);
    DistinctParts(Flatten(batches), Flatten(batches[..b]), batches[b]);
  }

  lemma DistinctParts(all: seq<Sample>, done: seq<Sample>, batch: seq<Sample>)
    requires DistinctIds(all) && done + batch <= all
    ensures DistinctIds(batch)
    ensures forall s, t :: s in done && t in batch ==> s.id != t.id
  {
    var n := |done|;
    forall i | 0 <= i < |batch| ensures batch[i] == all[n + i] {
      assert (done + batch)[n + i] == batch[i];
    }
    forall i, j | 0 <= i < j < |batch| ensures batch[i].id != batch[j].id {
      assert all[n + i].id != all[n + j].id;
    }
    forall s, t | s in done && t in batch ensures s.id != t.id {
      var i :| 0 <= i < n && done[i] == s;
      var j :| 0 <= j < |batch| && batch[j] == t;
      assert all[i] == (done + batch)[i] == s;
      assert all[i].id != all[n + j].id;
    }
  }

  lemma NewBatchIsReference(answer: Answer, done: seq<Sample>, batch: seq<Sample>, sent: Counts, retry: int)
    requires Honest(answer) && DistinctIds(batch) && Untouched(done, map[], sent)
    requires forall s, t :: s in done && t in batch ==> s.id != t.id
    ensures BatchResults(answer, sent, batch, retry) == Finals(answer, batch, retry)
  {
    forall t | t in batch ensures CountIn(sent, t.id) == 0 {
      assert CountIn(sent, t.id) == CountIn(map[], t.id);
    }
    BatchIsReference(answer, sent, batch, retry);
  }

  /** Batch after batch, with distinct identifiers, is the reference. */
  lemma {:induction false} AllIsReference(answer: Answer, batches: seq<seq<Sample>>, retry: int, b: nat)
    requires Honest(answer) && DistinctIds(Flatten(batches)) && b <= |batches|
    ensures AllResults(answer, map[], batches[..b], retry) == Finals(answer, Flatten(batches[..b]), retry)
    decreases b
  {
    if b > 0 {
      AllIsReference(answer, batches, retry, b - 1);
      AllStep(answer, map[], batches, retry, b - 1);
      NextBatch(batches, b - 1);
      AllUntouched(answer, map[], batches[..b - 1], retry);
      var done, before := Flatten(batches[..b - 1]), AllSent(answer, map[], batches[..b - 1], retry);
      NewBatchIsReference(answer, done, batches[b - 1], before, retry);
      FinalsConcat(answer, done, batches[b - 1], retry);
    }
  }

  /** What both ways of execution do with a batch. */
  method PredictOneBatch(backend: Backend, batch: seq<Sample>, retry: int) returns (preds: seq<Prediction>)
    requires Honest(backend.answer)
    modifies backend`sent
    ensures preds == BatchResults(backend.answer, old(backend.sent), batch, retry)
    ensures backend.sent == BatchSent(backend.answer, old(backend.sent), batch, retry)
  {
    preds := PredictWithRetry(backend, batch, retry);
  }

  /** Non-fail-fast with one worker: `[fn(b) for b in batches]`, flattened. */
  method RunSequential(backend: Backend, batches: seq<seq<Sample>>, retry: int) returns (predictions: seq<Prediction>)
    requires Honest(backend.answer)
    modifies backend`sent
    ensures predictions == AllResults(backend.answer, old(backend.sent), batches, retry)
    ensures For(predictions, Flatten(batches))
    ensures DistinctIds(Flatten(batches)) && old(backend.sent) == map[] ==>
      predictions == Finals(backend.answer, Flatten(batches), retry) &&
      forall i :: 0 <= i < |predictions| ==>
        (predictions[i].ok <==>
          exists k :: 0 <= k <= (if retry > 0 then retry else 0) && backend.answer(Flatten(batches)[i], k).ok)
  {
    predictions := [];
    for b := 0 to |batches|
      invariant predictions == AllResults(backend.answer, old(backend.sent), batches[..b], retry)
      invariant backend.sent == AllSent(backend.answer, old(backend.sent), batches[..b], retry)
    {
      AllStep(backend.answer, old(backend.sent), batches, retry, b);
      var preds := PredictOneBatch(backend, batches[b], retry);
      predictions := predictions + preds;
    }
    assert batches[..|batches|] == batches;
    if DistinctIds(Flatten(batches)) {
      AllIsReference(backend.answer, batches, retry, |batches|);
      FinalsMeanAll(backend.answer, Flatten(batches), retry);
    }
  }

  // ---------- fail-fast ----------

  const SKIPPED := "SKIPPED: fail-fast 提前终止"

  /** The placeholders for samples that fail-fast never sent. */
  function Skips(xs: seq<Sample>): (r: seq<Prediction>)
    ensures For(r, xs)
  {
    seq(|xs|, i requires 0 <= i < |xs| => Prediction(xs[i].id, false, SKIPPED, 0, None))
  }

  /** The first batch with a failing sample, if there is one. */
  ghost predicate FirstFailing(answer: Answer, sent: Counts, batches: seq<seq<Sample>>, retry: int, b: nat)
    requires Honest(answer) && b < |batches|
  {
    AllOk(AllResults(answer, sent, batches[..b], retry)) &&
    !AllOk(BatchResults(answer, AllSent(answer, sent, batches[..b], retry), batches[b], retry))
  }

  /** Fail-fast: in order, stopping after the first batch with a failing sample. Later
      batches are never sent, and there is still one prediction per sample. */
  method RunFailFast(backend: Backend, batches: seq<seq<Sample>>, retry: int)
    returns (predictions: seq<Prediction>, triggered: bool, ghost sentBatches: nat)
    requires Honest(backend.answer)
    modifies backend`sent
    ensures For(predictions, Flatten(batches)) && sentBatches <= |batches|
    ensures backend.sent == AllSent(backend.answer, old(backend.sent), batches[..sentBatches], retry)
    ensures predictions == AllResults(backend.answer, old(backend.sent), batches[..sentBatches], retry) +
                           Skips(Flatten(batches[sentBatches..]))
    ensures forall i :: |Flatten(batches[..sentBatches])| <= i < |predictions| ==>
      !predictions[i].ok && predictions[i].message == SKIPPED && predictions[i].latency.None?
    ensures triggered <==> !AllOk(predictions)
    ensures triggered ==>
      sentBatches > 0 && FirstFailing(backend.answer, old(backend.sent), batches, retry, sentBatches - 1)
    ensures !triggered ==> sentBatches == |batches|
  {
    predictions, triggered, sentBatches := [], false, 0;
    for b := 0 to |batches|
      invariant sentBatches == b
      invariant predictions == AllResults(backend.answer, old(backend.sent), batches[..b], retry) && AllOk(predictions)
      invariant backend.sent == AllSent(backend.answer, old(backend.sent), batches[..b], retry)
    {
      AllStep(backend.answer, old(backend.sent), batches, retry, b);
      var preds := PredictOneBatch(backend, batches[b], retry);
      ghost var before := predictions;
      predictions := predictions + preds;
      sentBatches := b + 1;
      if exists i :: 0 <= i < |preds| && !preds[i].ok {
        triggered := true;
        SkipTheRest(batches, b + 1, predictions);
        SomeFails(before, preds, Skips(Flatten(batches)[|predictions|..]));
        predictions := predictions + Skips(Flatten(batches)[|predictions|..]);
        return;
      }
    }
    assert batches[..|batches|] == batches && batches[|batches|..] == [];
  }

  lemma SomeFails(before: seq<Prediction>, preds: seq<Prediction>, skips: seq<Prediction>)
    requires !AllOk(preds)
    ensures !AllOk(before + preds + skips)
  {
    var i :| 0 <= i < |preds| && !preds[i].ok;
    assert (before + preds + skips)[|before| + i] == preds[i];
  }

  /** Placeholders for what is left make up one prediction per sample. */
  lemma SkipTheRest(batches: seq<seq<Sample>>, b: nat, done: seq<Prediction>)
    requires b <= |batches| && For(done, Flatten(batches[..b]))
    ensures |done| <= |Flatten(batches)| && Flatten(batches)[|done|..] == Flatten(batches[b..])
    ensures For(done + Skips(Flatten(batches[b..])), Flatten(batches))
  {
    FlattenSplit(batches, b);
  }

  lemma {:induction false} FlattenSplit(batches: seq<seq<Sample>>, b: nat)
    requires b <= |batches|
    ensures Flatten(batches) == Flatten(batches[..b]) + Flatten(batches[b..])
    decreases |batches|
  {
    if b == |batches| {
      assert batches[..b] == batches && batches[b..] == [];
    } else {
      var n := |batches| - 1;
      FlattenSplit(batches[..n], b);
      assert batches[..n][..b] == batches[..b];
      assert batches[b..][..|batches[b..]| - 1] == batches[..n][b..];
    }
  }
}
