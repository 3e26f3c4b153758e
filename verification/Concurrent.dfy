/**
 Many batches at once (src/robot_dh/inference/batch.py, lines 178-197): pool threads run
 `_predict_with_retry` on different batches and interleave at every single sample, all
 asking the same backend. A schedule is any list of thread numbers, so every pool size
 and every completion order is covered.
 */
module Concurrent {
  import opened Wrappers
  import opened Schemas
  import opened Executor
  import opened BatchRuns

  /** One future: completed rounds, the call in progress (samples still to send and the
      answers so far), the id-keyed dictionary, and the result once there is one. */
  datatype Task = Task(batch: seq<Sample>, rounds: nat, pending: seq<Sample>, got: seq<Prediction>,
                       byId: ById, result: Option<seq<Prediction>>)

  datatype Pool = Pool(tasks: seq<Task>, sent: Counts)

  function Start(batches: seq<seq<Sample>>): Pool {
    Pool(seq(|batches|, i requires 0 <= i < |batches| => Task(batches[i], 0, batches[i], [], map[], None)), map[])
  }

  /** A thread that has nothing left to send in its call: store, then stop or re-send. */
  function EndOfCall(t: Task, retry: int): Task {
    var byId := Store(t.byId, t.got);
    var again := NotOk(byId, t.batch);
    if t.rounds + 1 < Tries(retry) && again != [] then Task(t.batch, t.rounds + 1, again, [], byId, None)
    else if Known(byId, t.batch) then t.(result := Some(Lookup(byId, t.batch)))
    else t
  }

  /** Thread `i` makes one move: send one sample, or finish a backend call. */
  function Move(answer: Answer, retry: int, p: Pool, i: nat): Pool {
    if i >= |p.tasks| || p.tasks[i].result.Some? then p
    else
      var t := p.tasks[i];
      if t.pending == [] then p.(tasks := p.tasks[i := EndOfCall(t, retry)])
      else
        var s := t.pending[0];
        var n := CountIn(p.sent, s.id);
        Pool(p.tasks[i := t.(pending := t.pending[1..], got := t.got + [answer(s, n)])], p.sent[s.id := n + 1])
  }

  function RunFrom(answer: Answer, retry: int, p: Pool, schedule: seq<nat>): Pool
    decreases schedule
  {
    if schedule == [] then p else RunFrom(answer, retry, Move(answer, retry, p, schedule[0]), schedule[1..])
  }

  function Run(answer: Answer, retry: int, batches: seq<seq<Sample>>, schedule: seq<nat>): Pool {
    RunFrom(answer, retry, Start(batches), schedule)
  }

  // ---------- what one thread knows ----------

  /** The samples a call in round `rounds` sends. */
  function Queue(answer: Answer, batch: seq<Sample>, rounds: nat): seq<Sample> {
    if rounds == 0 then batch else Failing(answer, batch, rounds)
  }

  /** The call in progress has answered the first |got| samples of its queue. */
  ghost predicate CallOk(answer: Answer, t: Task) {
    var q := Queue(answer, t.batch, t.rounds);
    |t.got| <= |q| && t.pending == q[|t.got|..] &&
    forall k :: 0 <= k < |t.got| ==> t.got[k] == answer(q[k], t.rounds)
  }

  /** How often the backend has been asked about each sample of the batch. */
  ghost predicate CountsOk(answer: Answer, t: Task, sent: Counts) {
    var q := Queue(answer, t.batch, t.rounds);
    |t.got| <= |q| &&
    forall s :: s in t.batch ==>
      CountIn(sent, s.id) == Sent(answer, s, t.rounds) + if s in q[..|t.got|] then 1 else 0
  }

  ghost predicate TaskOk(answer: Answer, retry: int, t: Task, sent: Counts) {
    if t.result.Some? then t.result.value == Finals(answer, t.batch, retry)
    else
      t.rounds < Tries(retry) && CallOk(answer, t) && CountsOk(answer, t, sent) &&
      (t.rounds > 0 ==> forall s :: s in t.batch ==> s.id in t.byId && t.byId[s.id] == Latest(answer, s, t.rounds))
  }

  lemma QueueMembers(answer: Answer, batch: seq<Sample>, rounds: nat)
    requires DistinctIds(batch)
    ensures DistinctIds(Queue(answer, batch, rounds))
    ensures forall s :: s in Queue(answer, batch, rounds) <==>
      s in batch && (rounds > 0 ==> !Latest(answer, s, rounds).ok)
  {
    if rounds > 0 { FailingMembers(answer, batch, rounds); }
  }

  /** A sample still in the queue has been sent exactly once per completed round. */
  lemma QueuedCount(answer: Answer, batch: seq<Sample>, rounds: nat, s: Sample)
    requires DistinctIds(batch) && s in Queue(answer, batch, rounds)
    ensures Sent(answer, s, rounds) == rounds
  {
    QueueMembers(answer, batch, rounds);
    if rounds > 0 { FirstOkWins(answer, s, rounds); }
  }

  // ---------- sending one sample ----------

  lemma SendKeepsCall(answer: Answer, retry: int, t: Task, sent: Counts)
    requires DistinctIds(t.batch) && TaskOk(answer, retry, t, sent) && t.result.None? && t.pending != []
    ensures var s := t.pending[0];
      s in t.batch && CountIn(sent, s.id) == t.rounds &&
      CallOk(answer, t.(pending := t.pending[1..], got := t.got + [answer(s, t.rounds)]))
  {
    var q, n := Queue(answer, t.batch, t.rounds), |t.got|;
    var s := q[n];
    QueueMembers(answer, t.batch, t.rounds);
    assert s in q;
    QueuedCount(answer, t.batch, t.rounds, s);
    forall k | 0 <= k < n ensures q[..n][k] != s { assert q[k].id != q[n].id; }
  }

  lemma SendKeepsCounts(answer: Answer, retry: int, t: Task, sent: Counts)
    requires DistinctIds(t.batch) && TaskOk(answer, retry, t, sent) && t.result.None? && t.pending != []
    ensures var s := t.pending[0];
      CountsOk(answer, t.(pending := t.pending[1..], got := t.got + [answer(s, t.rounds)]), sent[s.id := t.rounds + 1])
  {
    var q, n := Queue(answer, t.batch, t.rounds), |t.got|;
    var s := q[n];
    SendKeepsCall(answer, retry, t, sent);
    QueueMembers(answer, t.batch, t.rounds);
    QueuedCount(answer, t.batch, t.rounds, s);
    assert q[..n + 1] == q[..n] + [s];
    forall r | r in t.batch
      ensures CountIn(sent[s.id := t.rounds + 1], r.id) == Sent(answer, r, t.rounds) + if r in q[..n + 1] then 1 else 0
    {
      SameIdSameSample(t.batch, r, s);
    }
  }

  // ---------- finishing a call ----------

  /** When a call is over, the dictionary holds every sample's latest result. */
  lemma StoredLatest(answer: Answer, retry: int, t: Task, sent: Counts, s: Sample)
    requires Honest(answer) && DistinctIds(t.batch) && TaskOk(answer, retry, t, sent)
    requires t.result.None? && t.pending == [] && s in t.batch
    ensures SampleDone(answer, s, t.rounds + 1, Executor.Progress(Store(t.byId, t.got), sent))
  {
    var q := Queue(answer, t.batch, t.rounds);
    QueueMembers(answer, t.batch, t.rounds);
    assert |t.got| == |q| && q[..|t.got|] == q;
    forall i, j | 0 <= i < j < |t.got| ensures t.got[i].id != t.got[j].id {
      assert t.got[i] == answer(q[i], t.rounds) && t.got[j] == answer(q[j], t.rounds);
      assert q[i].id != q[j].id;
    }
    StoreGives(t.byId, t.got);
    if s in q {
      var k :| 0 <= k < |q| && q[k] == s;
      assert t.got[k].id == s.id;
      QueuedCount(answer, t.batch, t.rounds, s);
    } else {
      forall i | 0 <= i < |t.got| ensures t.got[i].id != s.id {
        assert q[i] in q;
        SameIdSameSample(t.batch, q[i], s);
      }
    }
  }

  lemma EndKeepsTask(answer: Answer, retry: int, t: Task, sent: Counts)
    requires Honest(answer) && DistinctIds(t.batch) && TaskOk(answer, retry, t, sent)
    requires t.result.None? && t.pending == []
    ensures TaskOk(answer, retry, EndOfCall(t, retry), sent)
  {
    var byId, tries := Store(t.byId, t.got), t.rounds + 1;
    var p := Executor.Progress(byId, sent);
    forall s | s in t.batch ensures SampleDone(answer, s, tries, p) { StoredLatest(answer, retry, t, sent, s); }
    NotOkIsFailing(answer, p, t.batch, tries);
    var again := NotOk(byId, t.batch);
    if tries < Tries(retry) && again != [] {
      forall s | s in t.batch ensures s.id in byId && byId[s.id] == Latest(answer, s, tries) &&
                                      CountIn(sent, s.id) == Sent(answer, s, tries) {
        assert SampleDone(answer, s, tries, p);
      }
      assert again[..0] == [] && again[0..] == again;
    } else {
      EndSettles(answer, retry, t.batch, tries, p);
      assert forall i :: 0 <= i < |t.batch| ==> SampleDone(answer, t.batch[i], Tries(retry), p);
    }
  }

  lemma EndSettles(answer: Answer, retry: int, batch: seq<Sample>, tries: nat, p: Executor.Progress)
    requires DistinctIds(batch) && 0 < tries <= Tries(retry) && RoundDone(answer, batch, tries, p)
    requires tries == Tries(retry) || NotOk(p.byId, batch) == []
    ensures RoundDone(answer, batch, Tries(retry), p)
  {
    if tries < Tries(retry) {
      NotOkIsFailing(answer, p, batch, tries);
      AllOkSettles(answer, batch, tries, Tries(retry), p);
    }
  }

  // ---------- all threads together ----------

  /** No identifier occurs in two batches, or twice in one. */
  ghost predicate Disjoint(batches: seq<seq<Sample>>) {
    (forall i :: 0 <= i < |batches| ==> DistinctIds(batches[i])) &&
    forall i, j, s, t :: 0 <= i < |batches| && 0 <= j < |batches| && i != j && s in batches[i] && t in batches[j] ==>
      s.id != t.id
  }

  ghost predicate PoolOk(answer: Answer, retry: int, batches: seq<seq<Sample>>, p: Pool) {
    |p.tasks| == |batches| &&
    forall i :: 0 <= i < |batches| ==> p.tasks[i].batch == batches[i] && TaskOk(answer, retry, p.tasks[i], p.sent)
  }

  /** A thread that does not own `id` does not notice that it was sent. */
  lemma OtherTaskKept(answer: Answer, retry: int, t: Task, sent: Counts, id: string, n: nat)
    requires TaskOk(answer, retry, t, sent) && forall s :: s in t.batch ==> s.id != id
    ensures TaskOk(answer, retry, t, sent[id := n])
  {}

  /** The thread that moved. */
  lemma MoverKept(answer: Answer, retry: int, batches: seq<seq<Sample>>, p: Pool, i: nat)
    requires Honest(answer) && Disjoint(batches) && PoolOk(answer, retry, batches, p)
    requires i < |p.tasks| && p.tasks[i].result.None?
    ensures var q := Move(answer, retry, p, i);
      |q.tasks| == |batches| && q.tasks[i].batch == batches[i] && TaskOk(answer, retry, q.tasks[i], q.sent)
  {
    var t := p.tasks[i];
    if t.pending == [] {
      EndKeepsTask(answer, retry, t, p.sent);
    } else {
      SendKeepsCall(answer, retry, t, p.sent);
      SendKeepsCounts(answer, retry, t, p.sent);
    }
  }

  /** The other threads. */
  lemma OthersKept(answer: Answer, retry: int, batches: seq<seq<Sample>>, p: Pool, i: nat, j: nat)
    requires Honest(answer) && Disjoint(batches) && PoolOk(answer, retry, batches, p)
    requires i < |p.tasks| && p.tasks[i].result.None? && j < |batches| && j != i
    ensures var q := Move(answer, retry, p, i); q.tasks[j] == p.tasks[j] && TaskOk(answer, retry, q.tasks[j], q.sent)
  {
    var t := p.tasks[i];
    if t.pending != [] {
      SendKeepsCall(answer, retry, t, p.sent);
      OtherTaskKept(answer, retry, p.tasks[j], p.sent, t.pending[0].id, t.rounds + 1);
    }
  }

  lemma MoveKeepsPool(answer: Answer, retry: int, batches: seq<seq<Sample>>, p: Pool, i: nat)
    requires Honest(answer) && Disjoint(batches) && PoolOk(answer, retry, batches, p)
    ensures PoolOk(answer, retry, batches, Move(answer, retry, p, i))
  {
    if i < |p.tasks| && p.tasks[i].result.None? {
      MoverKept(answer, retry, batches, p, i);
      var q := Move(answer, retry, p, i);
      forall j | 0 <= j < |batches|
        ensures q.tasks[j].batch == batches[j] && TaskOk(answer, retry, q.tasks[j], q.sent)
      {
        if j != i { OthersKept(answer, retry, batches, p, i, j); }
      }
    }
  }

  lemma {:induction false} RunKeepsPool(answer: Answer, retry: int, batches: seq<seq<Sample>>, p: Pool,
                                        schedule: seq<nat>)
    requires Honest(answer) && Disjoint(batches) && PoolOk(answer, retry, batches, p)
    ensures PoolOk(answer, retry, batches, RunFrom(answer, retry, p, schedule))
    decreases schedule
  {
    if schedule != [] {
      MoveKeepsPool(answer, retry, batches, p, schedule[0]);
      RunKeepsPool(answer, retry, batches, Move(answer, retry, p, schedule[0]), schedule[1..]);
    }
  }

  lemma StartOk(answer: Answer, retry: int, batches: seq<seq<Sample>>)
    ensures PoolOk(answer, retry, batches, Start(batches))
  {
    forall i | 0 <= i < |batches| ensures TaskOk(answer, retry, Start(batches).tasks[i], map[]) {
      assert batches[i][..0] == [];
    }
  }

  lemma DistinctIsDisjoint(batches: seq<seq<Sample>>)
    requires DistinctIds(Flatten(batches))
    ensures Disjoint(batches)
  {
    forall i | 0 <= i < |batches| ensures DistinctIds(batches[i]) { NextBatch(batches, i); }
    forall i, j, s, t | 0 <= i < j < |batches| && s in batches[i] && t in batches[j] ensures s.id != t.id {
      NextBatch(batches, j);
      InFlatten(batches, i, j, s);
    }
  }

  lemma {:induction false} InFlatten(batches: seq<seq<Sample>>, i: nat, j: nat, s: Sample)
    requires i < j <= |batches| && s in batches[i]
    ensures s in Flatten(batches[..j])
    decreases j
  {
    FlattenPrefix(batches, j - 1);
    if i < j - 1 { InFlatten(batches, i, j - 1, s); }
  }

  /** `[r for future ...: results[idx] = future.result()]`: slot by slot, in batch order. */
  function Slots(tasks: seq<Task>): seq<seq<Prediction>> {
    seq(|tasks|, i requires 0 <= i < |tasks| => if tasks[i].result.Some? then tasks[i].result.value else [])
  }

  lemma {:induction false} FinalsFlatten(answer: Answer, retry: int, batches: seq<seq<Sample>>,
                                         slots: seq<seq<Prediction>>)
    requires |slots| == |batches|
    requires forall i :: 0 <= i < |batches| ==> slots[i] == Finals(answer, batches[i], retry)
    ensures Flatten(slots) == Finals(answer, Flatten(batches), retry)
  {
    if batches != [] {
      var n := |batches| - 1;
      FinalsFlatten(answer, retry, batches[..n], slots[..n]);
      FinalsConcat(answer, Flatten(batches[..n]), batches[n], retry);
    }
  }

  ghost predicate Finished(p: Pool) { forall i :: 0 <= i < |p.tasks| ==> p.tasks[i].result.Some? }

  /** Every thread that has finished holds its batch's reference results. */
  ghost predicate Faithful(answer: Answer, retry: int, batches: seq<seq<Sample>>, p: Pool) {
    |p.tasks| == |batches| &&
    forall i :: 0 <= i < |batches| && p.tasks[i].result.Some? ==>
      p.tasks[i].result.value == Finals(answer, batches[i], retry)
  }

  /** Whatever the schedule, a thread that has finished holds its batch's reference
      results, and once all have finished the collected list is, index by index, what
      predicting one sample at a time gives. */
  lemma ConcurrentRefinesReference(answer: Answer, retry: int, batches: seq<seq<Sample>>, schedule: seq<nat>)
    requires Honest(answer) && DistinctIds(Flatten(batches))
    ensures var p := Run(answer, retry, batches, schedule);
      Faithful(answer, retry, batches, p) &&
      (Finished(p) ==> Flatten(Slots(p.tasks)) == Finals(answer, Flatten(batches), retry))
  {
    DistinctIsDisjoint(batches);
    StartOk(answer, retry, batches);
    RunKeepsPool(answer, retry, batches, Start(batches), schedule);
    var p := Run(answer, retry, batches, schedule);
    if Finished(p) { FinalsFlatten(answer, retry, batches, Slots(p.tasks)); }
  }

  // ---------- no schedule can get stuck ----------

  lemma {:induction false} RunConcat(answer: Answer, retry: int, p: Pool, a: seq<nat>, b: seq<nat>)
    ensures RunFrom(answer, retry, p, a + b) == RunFrom(answer, retry, RunFrom(answer, retry, p, a), b)
    decreases a
  {
    if a == [] {
      assert a + b == b;
    } else {
      RunConcat(answer, retry, Move(answer, retry, p, a[0]), a[1..], b);
      assert (a + b)[1..] == a[1..] + b;
    }
  }

  /** Nobody's prediction gets lost, whatever identifiers repeat: an unfinished first call
      has answered the samples it sent, later rounds know the whole batch, and a result
      is one prediction per sample. */
  ghost predicate Live(retry: int, t: Task) {
    if t.result.Some? then For(t.result.value, t.batch)
    else
      t.rounds < Tries(retry) &&
      if t.rounds > 0 then Known(t.byId, t.batch)
      else t.byId == map[] && |t.got| <= |t.batch| && t.pending == t.batch[|t.got|..] && For(t.got, t.batch[..|t.got|])
  }

  ghost predicate PoolLive(retry: int, batches: seq<seq<Sample>>, p: Pool) {
    |p.tasks| == |batches| &&
    forall i :: 0 <= i < |batches| ==> p.tasks[i].batch == batches[i] && Live(retry, p.tasks[i])
  }

  lemma EndKnows(retry: int, t: Task)
    requires Live(retry, t) && t.result.None? && t.pending == []
    ensures Known(Store(t.byId, t.got), t.batch)
  {
    if t.rounds == 0 { assert t.batch[..|t.got|] == t.batch; }
    forall i | 0 <= i < |t.batch|
      ensures t.batch[i].id in Store(t.byId, t.got) && Store(t.byId, t.got)[t.batch[i].id].id == t.batch[i].id
    {
      StoreKnows(t.byId, t.got, t.batch[i].id);
      if t.rounds == 0 { assert t.got[i].id == t.batch[i].id; }
    }
  }

  lemma MoveKeepsLive(answer: Answer, retry: int, batches: seq<seq<Sample>>, p: Pool, i: nat)
    requires Honest(answer) && PoolLive(retry, batches, p)
    ensures PoolLive(retry, batches, Move(answer, retry, p, i))
  {
    if i < |p.tasks| && p.tasks[i].result.None? {
      var t := p.tasks[i];
      if t.pending == [] {
        EndKnows(retry, t);
      } else if t.rounds == 0 {
        assert t.batch[..|t.got| + 1] == t.batch[..|t.got|] + [t.pending[0]];
      }
    }
  }

  lemma {:induction false} RunKeepsLive(answer: Answer, retry: int, batches: seq<seq<Sample>>, p: Pool,
                                        schedule: seq<nat>)
    requires Honest(answer) && PoolLive(retry, batches, p)
    ensures PoolLive(retry, batches, RunFrom(answer, retry, p, schedule))
    decreases schedule
  {
    if schedule != [] {
      MoveKeepsLive(answer, retry, batches, p, schedule[0]);
      RunKeepsLive(answer, retry, batches, Move(answer, retry, p, schedule[0]), schedule[1..]);
    }
  }

  lemma StartLive(retry: int, batches: seq<seq<Sample>>)
    ensures PoolLive(retry, batches, Start(batches))
  {
    forall i | 0 <= i < |batches| ensures Live(retry, Start(batches).tasks[i]) {
      assert batches[i][..0] == [] && batches[i][0..] == batches[i];
    }
  }

  /** An unfinished thread's move sends a sample, completes a round or finishes. */
  lemma MoveProgresses(answer: Answer, retry: int, p: Pool, i: nat)
    requires i < |p.tasks| && p.tasks[i].result.None? && Live(retry, p.tasks[i])
    ensures var t, t' := p.tasks[i], Move(answer, retry, p, i).tasks[i];
      t'.result.Some? || (t.rounds < t'.rounds < Tries(retry)) ||
      (t'.rounds == t.rounds && |t'.pending| < |t.pending|)
  {
    if p.tasks[i].pending == [] { EndKnows(retry, p.tasks[i]); }
  }

  lemma {:induction false} FinishOne(answer: Answer, retry: int, batches: seq<seq<Sample>>, p: Pool, i: nat)
    returns (more: seq<nat>)
    requires Honest(answer) && PoolLive(retry, batches, p) && i < |p.tasks|
    ensures var q := RunFrom(answer, retry, p, more);
      |q.tasks| == |p.tasks| && q.tasks[i].result.Some? &&
      forall j :: 0 <= j < |p.tasks| && j != i ==> q.tasks[j] == p.tasks[j]
    decreases Tries(retry) - p.tasks[i].rounds, |p.tasks[i].pending|, if p.tasks[i].result.Some? then 0 else 1
  {
    more := [];
    if p.tasks[i].result.None? {
      var q := Move(answer, retry, p, i);
      MoveKeepsLive(answer, retry, batches, p, i);
      MoveProgresses(answer, retry, p, i);
      var rest := [];
      if q.tasks[i].result.None? { rest := FinishOne(answer, retry, batches, q, i); }
      more := [i] + rest;
      assert more[1..] == rest;
    }
  }

  /** After any schedule, on any samples, some continuation lets every thread finish. */
  lemma CanAlwaysFinish(answer: Answer, retry: int, batches: seq<seq<Sample>>, schedule: seq<nat>)
    returns (more: seq<nat>)
    requires Honest(answer)
    ensures var q := Run(answer, retry, batches, schedule + more); |q.tasks| == |batches| && Finished(q)
  {
    StartLive(retry, batches);
    RunKeepsLive(answer, retry, batches, Start(batches), schedule);
    var p := Run(answer, retry, batches, schedule);
    more := [];
    for n := 0 to |batches|
      invariant PoolLive(retry, batches, RunFrom(answer, retry, p, more))
      invariant forall i :: 0 <= i < n ==> RunFrom(answer, retry, p, more).tasks[i].result.Some?
    {
      var q := RunFrom(answer, retry, p, more);
      var rest := FinishOne(answer, retry, batches, q, n);
      RunKeepsLive(answer, retry, batches, q, rest);
      RunConcat(answer, retry, p, more, rest);
      more := more + rest;
    }
    RunConcat(answer, retry, Start(batches), schedule, more);
  }

  /** Once finished, every sample of every batch has a prediction of its own identifier,
      at its own index, whatever identifiers repeat. */
  lemma OnePredictionEach(answer: Answer, retry: int, batches: seq<seq<Sample>>, schedule: seq<nat>)
    requires Honest(answer)
    ensures var p := Run(answer, retry, batches, schedule);
      Finished(p) ==> For(Flatten(Slots(p.tasks)), Flatten(batches))
  {
    StartLive(retry, batches);
    RunKeepsLive(answer, retry, batches, Start(batches), schedule);
    var p := Run(answer, retry, batches, schedule);
    if Finished(p) { SlotsAlign(Slots(p.tasks), batches); }
  }

  lemma {:induction false} SlotsAlign(slots: seq<seq<Prediction>>, batches: seq<seq<Sample>>)
    requires |slots| == |batches| && forall i :: 0 <= i < |batches| ==> For(slots[i], batches[i])
    ensures For(Flatten(slots), Flatten(batches))
  {
    if batches != [] {
      var n := |batches| - 1;
      SlotsAlign(slots[..n], batches[..n]);
    }
  }
}
