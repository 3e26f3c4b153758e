/**
 Sequential execution is one of the schedules (src/robot_dh/inference/batch.py, lines
 188-189): running the batches one after the other yields what the pool yields when it
 lets one thread finish before the next one starts.
 */
module OneByOne {
  import opened Wrappers
  import opened Schemas
  import opened Executor
  import opened BatchRuns
  import opened Concurrent

  /** The counts after sending one sample. */
  function SendOne(sent: Counts, s: Sample): Counts { sent[s.id := CountIn(sent, s.id) + 1] }

  /** A call, seen from its first sample instead of its last. */
  lemma {:induction false} FrontSends(sent: Counts, s: Sample, xs: seq<Sample>)
    ensures Sends(sent, [s] + xs) == Sends(SendOne(sent, s), xs)
  {
    var all := [s] + xs;
    if xs == [] {
      assert all[..0] == [];
    } else {
      assert all[..|all| - 1] == [s] + xs[..|xs| - 1];
      FrontSends(sent, s, xs[..|xs| - 1]);
    }
  }

  lemma {:induction false} FrontAnswers(answer: Answer, sent: Counts, s: Sample, xs: seq<Sample>)
    ensures Answers(answer, sent, [s] + xs) == [answer(s, CountIn(sent, s.id))] + Answers(answer, SendOne(sent, s), xs)
  {
    var all := [s] + xs;
    if xs == [] {
      assert all[..0] == [];
      assert Answers(answer, sent, all[..0]) == [] && Sends(sent, all[..0]) == sent;
    } else {
      assert all[..|all| - 1] == [s] + xs[..|xs| - 1];
      FrontAnswers(answer, sent, s, xs[..|xs| - 1]);
      FrontSends(sent, s, xs[..|xs| - 1]);
    }
  }

  /** The pool after thread `i` has sent everything it has pending. */
  function AfterSends(answer: Answer, p: Pool, i: nat): Pool
    requires i < |p.tasks|
  {
    var t := p.tasks[i];
    Pool(p.tasks[i := t.(pending := [], got := t.got + Answers(answer, p.sent, t.pending))], Sends(p.sent, t.pending))
  }

  lemma SendFirst(answer: Answer, retry: int, p: Pool, i: nat)
    requires i < |p.tasks| && p.tasks[i].result.None? && p.tasks[i].pending != []
    ensures AfterSends(answer, Move(answer, retry, p, i), i) == AfterSends(answer, p, i)
  {
    var t, q := p.tasks[i], Move(answer, retry, p, i);
    var s, rest := t.pending[0], t.pending[1..];
    assert t.pending == [s] + rest;
    FrontSends(p.sent, s, rest);
    FrontAnswers(answer, p.sent, s, rest);
    var a, b := [answer(s, CountIn(p.sent, s.id))], Answers(answer, q.sent, rest);
    assert t.got + (a + b) == t.got + a + b;
    assert q.tasks[i].got + b == t.got + Answers(answer, p.sent, t.pending);
  }

  lemma {:induction false} SendAll(answer: Answer, retry: int, p: Pool, i: nat) returns (more: seq<nat>)
    requires i < |p.tasks| && p.tasks[i].result.None?
    ensures RunFrom(answer, retry, p, more) == AfterSends(answer, p, i)
    decreases |p.tasks[i].pending|
  {
    var t := p.tasks[i];
    more := [];
    if t.pending == [] {
      assert t.got + Answers(answer, p.sent, t.pending) == t.got;
      assert p.tasks[i := t] == p.tasks;
    } else {
      var rest := SendAll(answer, retry, Move(answer, retry, p, i), i);
      SendFirst(answer, retry, p, i);
      more := [i] + rest;
      assert more[1..] == rest;
    }
  }

  /** The thread is about to make a call. */
  ghost predicate AtCall(t: Task) { t.result.None? && t.got == [] }

  /** What the batch will come to if nobody else sends anything. */
  function Outlook(answer: Answer, retry: int, t: Task, sent: Counts): Progress
    requires t.rounds < Tries(retry)
  {
    Rounds(answer, t.batch, Resend(answer, t.pending, Executor.Progress(t.byId, sent)), Tries(retry) - 1 - t.rounds)
  }

  /** One whole call: everything pending is sent, then the call ends. */
  lemma OneCall(answer: Answer, retry: int, batches: seq<seq<Sample>>, p: Pool, i: nat) returns (more: seq<nat>)
    requires Honest(answer) && PoolLive(retry, batches, p) && i < |p.tasks| && AtCall(p.tasks[i])
    ensures var t := p.tasks[i];
      var byId := Store(t.byId, Answers(answer, p.sent, t.pending));
      var again := NotOk(byId, t.batch);
      var q := RunFrom(answer, retry, p, more);
      Known(byId, t.batch) && q.sent == Sends(p.sent, t.pending) &&
      q.tasks == p.tasks[i :=
        if t.rounds + 1 < Tries(retry) && again != [] then Task(t.batch, t.rounds + 1, again, [], byId, None)
        else t.(pending := [], got := Answers(answer, p.sent, t.pending), result := Some(Lookup(byId, t.batch)))]
  {
    var t := p.tasks[i];
    var sends := SendAll(answer, retry, p, i);
    RunKeepsLive(answer, retry, batches, p, sends);
    var q := RunFrom(answer, retry, p, sends);
    assert q.tasks[i].got == Answers(answer, p.sent, t.pending) && Live(retry, q.tasks[i]);
    EndKnows(retry, q.tasks[i]);
    more := sends + [i];
    RunConcat(answer, retry, p, sends, [i]);
    assert [i][1..] == [];
    assert RunFrom(answer, retry, q, [i]) == RunFrom(answer, retry, Move(answer, retry, q, i), []);
  }

  lemma {:induction false} FinishAlone(answer: Answer, retry: int, batches: seq<seq<Sample>>, p: Pool, i: nat)
    returns (more: seq<nat>)
    requires Honest(answer) && PoolLive(retry, batches, p) && i < |p.tasks| && AtCall(p.tasks[i])
    ensures var t, q := p.tasks[i], RunFrom(answer, retry, p, more);
      var end := Outlook(answer, retry, t, p.sent);
      Known(end.byId, t.batch) && q.sent == end.sent && |q.tasks| == |p.tasks| &&
      q.tasks[i].result == Some(Lookup(end.byId, t.batch)) &&
      forall j :: 0 <= j < |p.tasks| && j != i ==> q.tasks[j] == p.tasks[j]
    decreases Tries(retry) - p.tasks[i].rounds
  {
    var t := p.tasks[i];
    more := OneCall(answer, retry, batches, p, i);
    RunKeepsLive(answer, retry, batches, p, more);
    var q := RunFrom(answer, retry, p, more);
    var again := NotOk(Store(t.byId, Answers(answer, p.sent, t.pending)), t.batch);
    if t.rounds + 1 < Tries(retry) && again != [] {
      var rest := FinishAlone(answer, retry, batches, q, i);
      RunConcat(answer, retry, p, more, rest);
      more := more + rest;
    }
  }

  lemma FinishBatch(answer: Answer, retry: int, batches: seq<seq<Sample>>, p: Pool, i: nat) returns (more: seq<nat>)
    requires Honest(answer) && PoolLive(retry, batches, p) && i < |batches|
    requires p.tasks[i] == Start(batches).tasks[i]
    ensures var q := RunFrom(answer, retry, p, more);
      q.sent == BatchSent(answer, p.sent, batches[i], retry) && |q.tasks| == |p.tasks| &&
      q.tasks[i].result == Some(BatchResults(answer, p.sent, batches[i], retry)) &&
      forall j :: 0 <= j < |p.tasks| && j != i ==> q.tasks[j] == p.tasks[j]
  {
    more := FinishAlone(answer, retry, batches, p, i);
    assert Outlook(answer, retry, p.tasks[i], p.sent) == BatchProgress(answer, p.sent, batches[i], retry);
  }

  /** This batch's results, when all before it ran before it. */
  ghost function InTurn(answer: Answer, retry: int, batches: seq<seq<Sample>>, i: nat): seq<Prediction>
    requires Honest(answer) && i < |batches|
  {
    BatchResults(answer, AllSent(answer, map[], batches[..i], retry), batches[i], retry)
  }

  /** The first `b` threads have run alone, in order; the others have not started. */
  ghost predicate RanAlone(answer: Answer, retry: int, batches: seq<seq<Sample>>, p: Pool, b: nat)
    requires Honest(answer) && b <= |batches|
  {
    |p.tasks| == |batches| && p.sent == AllSent(answer, map[], batches[..b], retry) &&
    (forall i :: 0 <= i < b ==> p.tasks[i].result == Some(InTurn(answer, retry, batches, i))) &&
    (forall i :: b <= i < |batches| ==> p.tasks[i] == Start(batches).tasks[i])
  }

  lemma {:induction false} RunAlone(answer: Answer, retry: int, batches: seq<seq<Sample>>, b: nat)
    returns (schedule: seq<nat>)
    requires Honest(answer) && b <= |batches|
    ensures RanAlone(answer, retry, batches, Run(answer, retry, batches, schedule), b)
    decreases b
  {
    schedule := [];
    if b > 0 {
      schedule := RunAlone(answer, retry, batches, b - 1);
      var p := Run(answer, retry, batches, schedule);
      StartLive(retry, batches);
      RunKeepsLive(answer, retry, batches, Start(batches), schedule);
      var more := FinishBatch(answer, retry, batches, p, b - 1);
      RunConcat(answer, retry, Start(batches), schedule, more);
      AllStep(answer, map[], batches, retry, b - 1);
      schedule := schedule + more;
    }
  }

  lemma FlattenStep<T>(xss: seq<seq<T>>, b: nat)
    requires b < |xss|
    ensures Flatten(xss[..b + 1]) == Flatten(xss[..b]) + xss[b]
  {
    assert xss[..b + 1][..b] == xss[..b];
  }

  lemma AllInTurn(answer: Answer, retry: int, batches: seq<seq<Sample>>, b: nat)
    requires Honest(answer) && b < |batches|
    ensures AllResults(answer, map[], batches[..b + 1], retry) ==
      AllResults(answer, map[], batches[..b], retry) + InTurn(answer, retry, batches, b)
  {
    AllStep(answer, map[], batches, retry, b);
  }

  lemma {:induction false} SlotsAreAll(answer: Answer, retry: int, batches: seq<seq<Sample>>,
                                       slots: seq<seq<Prediction>>, b: nat)
    requires Honest(answer) && |slots| == |batches| && b <= |batches|
    requires forall i :: 0 <= i < |batches| ==> slots[i] == InTurn(answer, retry, batches, i)
    ensures Flatten(slots[..b]) == AllResults(answer, map[], batches[..b], retry)
    decreases b
  {
    if b > 0 {
      SlotsAreAll(answer, retry, batches, slots, b - 1);
      AllInTurn(answer, retry, batches, b - 1);
      FlattenStep(slots, b - 1);
    }
  }

  /** Some schedule of the pool does exactly what sequential execution does. */
  lemma SequentialIsASchedule(answer: Answer, retry: int, batches: seq<seq<Sample>>) returns (schedule: seq<nat>)
    requires Honest(answer)
    ensures var p := Run(answer, retry, batches, schedule);
      Finished(p) && p.sent == AllSent(answer, map[], batches, retry) &&
      Flatten(Slots(p.tasks)) == AllResults(answer, map[], batches, retry)
  {
    schedule := RunAlone(answer, retry, batches, |batches|);
    var slots := Slots(Run(answer, retry, batches, schedule).tasks);
    SlotsAreAll(answer, retry, batches, slots, |batches|);
    assert batches[..|batches|] == batches && slots[..|batches|] == slots;
  }
}
