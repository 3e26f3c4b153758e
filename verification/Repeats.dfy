/**
 What repeated sample identifiers do to the id-keyed dictionary
 (src/robot_dh/inference/runner.py, lines 305-313): the exact conditions under which
 batched, retrying, concurrent execution equals predicting one sample at a time.
 */
module Repeats {
  import opened Wrappers
  import opened Schemas
  import opened Executor
  import opened BatchRuns
  import opened Concurrent

  // ---------- a backend that numbers its answers ----------

  /** Always OK; the body tells how often the identifier had been sent before. */
  function Numbered(s: Sample, k: nat): Prediction { Prediction(s.id, true, "", k, None) }

  lemma FinalsAreFirst(batch: seq<Sample>, retry: int, i: nat)
    requires i < |batch|
    ensures Finals(Numbered, batch, retry)[i].body == 0
  {
    OkIsStable(Numbered, batch[i], 1, Tries(retry));
  }

  predicate LastAt(preds: seq<Prediction>, k: nat) {
    k < |preds| && forall m :: k < m < |preds| ==> preds[m].id != preds[k].id
  }

  /** What the dictionary ends up with is the last answer stored under an identifier. */
  lemma {:induction false} StoreKeepsLast(byId: ById, preds: seq<Prediction>, k: nat)
    requires LastAt(preds, k)
    ensures preds[k].id in Store(byId, preds) && Store(byId, preds)[preds[k].id] == preds[k]
  {
    var n := |preds| - 1;
    if k < n {
      assert preds[..n][k] == preds[k];
      StoreKeepsLast(byId, preds[..n], k);
    }
  }

  lemma {:induction false} AllOkNothingToResend(byId: ById, xs: seq<Sample>)
    requires forall id :: id in byId ==> byId[id].ok
    ensures NotOk(byId, xs) == []
  {
    if xs != [] { AllOkNothingToResend(byId, xs[..|xs| - 1]); }
  }

  lemma {:induction false} StoreKeepsOk(preds: seq<Prediction>)
    requires AllOk(preds)
    ensures forall id :: id in Store(map[], preds) ==> Store(map[], preds)[id].ok
  {
    if preds != [] { StoreKeepsOk(preds[..|preds| - 1]); }
  }

  // ---------- the last answer to an identifier stays visible ----------

  /** The thread shows answer number `v` for `id`: in its result, or as what it would store. */
  ghost predicate Shows(t: Task, id: string, v: int) {
    if t.result.Some? then
      exists k :: 0 <= k < |t.result.value| && t.result.value[k].id == id && t.result.value[k].body == v
    else exists k :: 0 <= k < |t.got| && t.got[k].id == id && t.got[k].body == v && LastAt(t.got, k)
  }

  /** No thread needs a second round. */
  ghost predicate OneRound(t: Task) { t.result.None? ==> t.rounds == 0 && AllOk(t.got) }

  function Took(t: Task, i: nat): nat { if t.result.Some? || i < |t.got| then 1 else 0 }

  /** Two places in the input, by batch and index, that carry the identifier. */
  datatype Twins = Twins(id: string, b: nat, i: nat, c: nat, j: nat)

  predicate Apart(w: Twins, batches: seq<seq<Sample>>) {
    w.b < |batches| && w.i < |batches[w.b]| && batches[w.b][w.i].id == w.id &&
    w.c < |batches| && w.j < |batches[w.c]| && batches[w.c][w.j].id == w.id && (w.b != w.c || w.i != w.j)
  }

  ghost predicate Visible(p: Pool, id: string) {
    CountIn(p.sent, id) > 0 ==> exists b :: 0 <= b < |p.tasks| && Shows(p.tasks[b], id, CountIn(p.sent, id) - 1)
  }

  ghost predicate AllOneRound(p: Pool) { forall b :: 0 <= b < |p.tasks| ==> OneRound(p.tasks[b]) }

  /** Both places have been counted if they have been sent. */
  ghost predicate Counted(w: Twins, p: Pool)
    requires w.b < |p.tasks| && w.c < |p.tasks|
  {
    Took(p.tasks[w.b], w.i) + Took(p.tasks[w.c], w.j) <= CountIn(p.sent, w.id)
  }

  ghost predicate TwinsOk(w: Twins, retry: int, batches: seq<seq<Sample>>, p: Pool) {
    PoolLive(retry, batches, p) && Apart(w, batches) && AllOneRound(p) && Counted(w, p) && Visible(p, w.id)
  }

  /** After sending `s`, the thread shows the newest answer to it and still shows the rest. */
  lemma SendShows(t: Task, t': Task, s: Sample, n: nat, id: string, v: int)
    requires t.result.None? && t' == t.(pending := t'.pending, got := t.got + [Numbered(s, n)])
    ensures id == s.id ==> Shows(t', id, n)
    ensures id != s.id && Shows(t, id, v) ==> Shows(t', id, v)
  {
    assert t'.got[|t.got|] == Numbered(s, n) && LastAt(t'.got, |t.got|);
    if id != s.id && Shows(t, id, v) {
      var k :| 0 <= k < |t.got| && t.got[k].id == id && t.got[k].body == v && LastAt(t.got, k);
      assert t'.got[k] == t.got[k] && LastAt(t'.got, k);
    }
  }

  lemma SendKeepsVisible(retry: int, p: Pool, b: nat, id: string)
    requires b < |p.tasks| && p.tasks[b].result.None? && p.tasks[b].pending != [] && Visible(p, id)
    ensures Visible(Move(Numbered, retry, p, b), id)
  {
    var t, q := p.tasks[b], Move(Numbered, retry, p, b);
    var s, v := t.pending[0], CountIn(p.sent, id) - 1;
    var n := CountIn(p.sent, s.id);
    SendShows(t, q.tasks[b], s, n, id, v);
    if id == s.id {
      assert Shows(q.tasks[b], id, CountIn(q.sent, id) - 1);
    } else if v >= 0 {
      var c :| 0 <= c < |p.tasks| && Shows(p.tasks[c], id, v);
      assert CountIn(q.sent, id) - 1 == v && Shows(q.tasks[c], id, v);
    }
  }

  lemma SendKeepsCounted(w: Twins, retry: int, batches: seq<seq<Sample>>, p: Pool, b: nat)
    requires PoolLive(retry, batches, p) && Apart(w, batches) && Counted(w, p)
    requires b < |p.tasks| && p.tasks[b].result.None? && p.tasks[b].rounds == 0 && p.tasks[b].pending != []
    ensures Counted(w, Move(Numbered, retry, p, b))
  {
    var t := p.tasks[b];
    assert Live(retry, t) && t.pending[0] == t.batch[|t.got|];
  }

  lemma SendKeepsTwins(w: Twins, retry: int, batches: seq<seq<Sample>>, p: Pool, b: nat)
    requires TwinsOk(w, retry, batches, p) && b < |p.tasks| && p.tasks[b].result.None? && p.tasks[b].pending != []
    ensures TwinsOk(w, retry, batches, Move(Numbered, retry, p, b))
  {
    assert OneRound(p.tasks[b]);
    MoveKeepsLive(Numbered, retry, batches, p, b);
    SendKeepsVisible(retry, p, b, w.id);
    SendKeepsCounted(w, retry, batches, p, b);
    OneRoundKept(retry, p, b);
  }

  lemma OneRoundKept(retry: int, p: Pool, b: nat)
    requires AllOneRound(p) && b < |p.tasks| && p.tasks[b].result.None? && p.tasks[b].pending != []
    ensures AllOneRound(Move(Numbered, retry, p, b))
  {
    assert OneRound(p.tasks[b]);
  }

  lemma EndOfOneRound(retry: int, t: Task)
    requires Live(retry, t) && OneRound(t) && t.result.None? && t.pending == []
    ensures var t' := EndOfCall(t, retry);
      t'.batch == t.batch && t'.result.Some? && |t.got| == |t.batch| && Known(Store(map[], t.got), t.batch) &&
      t'.result.value == Lookup(Store(map[], t.got), t.batch)
  {
    EndKnows(retry, t);
    StoreKeepsOk(t.got);
    AllOkNothingToResend(Store(map[], t.got), t.batch);
  }

  /** The result shows what the answers showed. */
  lemma EndShows(retry: int, t: Task, id: string, v: int)
    requires Live(retry, t) && OneRound(t) && t.result.None? && t.pending == [] && Shows(t, id, v)
    ensures Shows(EndOfCall(t, retry), id, v)
  {
    EndOfOneRound(retry, t);
    var k :| 0 <= k < |t.got| && t.got[k].id == id && t.got[k].body == v && LastAt(t.got, k);
    StoreKeepsLast(map[], t.got, k);
    assert t.batch[..|t.got|] == t.batch;
    assert EndOfCall(t, retry).result.value[k] == t.got[k];
  }

  lemma EndKeepsVisible(retry: int, batches: seq<seq<Sample>>, p: Pool, b: nat, id: string)
    requires PoolLive(retry, batches, p) && AllOneRound(p) && Visible(p, id)
    requires b < |p.tasks| && p.tasks[b].result.None? && p.tasks[b].pending == []
    ensures Visible(Move(Numbered, retry, p, b), id)
  {
    var q, v := Move(Numbered, retry, p, b), CountIn(p.sent, id) - 1;
    if v >= 0 {
      var c :| 0 <= c < |p.tasks| && Shows(p.tasks[c], id, v);
      assert Live(retry, p.tasks[b]) && OneRound(p.tasks[b]);
      if c == b { EndShows(retry, p.tasks[b], id, v); }
      assert Shows(q.tasks[c], id, v);
    }
  }

  lemma EndKeepsTwins(w: Twins, retry: int, batches: seq<seq<Sample>>, p: Pool, b: nat)
    requires TwinsOk(w, retry, batches, p) && b < |p.tasks| && p.tasks[b].result.None? && p.tasks[b].pending == []
    ensures TwinsOk(w, retry, batches, Move(Numbered, retry, p, b))
  {
    MoveKeepsLive(Numbered, retry, batches, p, b);
    EndKeepsVisible(retry, batches, p, b, w.id);
    assert Live(retry, p.tasks[b]) && OneRound(p.tasks[b]);
    EndOfOneRound(retry, p.tasks[b]);
  }

  lemma {:induction false} RunKeepsTwins(w: Twins, retry: int, batches: seq<seq<Sample>>, p: Pool, schedule: seq<nat>)
    requires TwinsOk(w, retry, batches, p)
    ensures TwinsOk(w, retry, batches, RunFrom(Numbered, retry, p, schedule))
    decreases schedule
  {
    if schedule != [] {
      var b := schedule[0];
      if b < |p.tasks| && p.tasks[b].result.None? {
        if p.tasks[b].pending == [] {
          EndKeepsTwins(w, retry, batches, p, b);
        } else {
          SendKeepsTwins(w, retry, batches, p, b);
        }
      }
      RunKeepsTwins(w, retry, batches, Move(Numbered, retry, p, b), schedule[1..]);
    }
  }

  /** With a repeated identifier, no schedule that finishes gives the reference. */
  lemma TwinsBreakFaith(w: Twins, retry: int, batches: seq<seq<Sample>>, schedule: seq<nat>)
    requires Apart(w, batches) && Finished(Run(Numbered, retry, batches, schedule))
    ensures !Faithful(Numbered, retry, batches, Run(Numbered, retry, batches, schedule))
  {
    StartLive(retry, batches);
    RunKeepsTwins(w, retry, batches, Start(batches), schedule);
    var p := Run(Numbered, retry, batches, schedule);
    var b :| 0 <= b < |p.tasks| && Shows(p.tasks[b], w.id, CountIn(p.sent, w.id) - 1);
    var k :| 0 <= k < |p.tasks[b].result.value| && p.tasks[b].result.value[k].body == CountIn(p.sent, w.id) - 1;
    FinalsAreFirst(batches[b], retry, k);
  }

  // ---------- the exact condition ----------

  lemma {:induction false} Locate(batches: seq<seq<Sample>>, f: nat) returns (b: nat, i: nat)
    requires f < |Flatten(batches)|
    ensures b < |batches| && i < |batches[b]| && Flatten(batches)[f] == batches[b][i]
    ensures |Flatten(batches[..b])| + i == f
  {
    var n := |batches| - 1;
    if f < |Flatten(batches[..n])| {
      b, i := Locate(batches[..n], f);
      assert batches[..n][..b] == batches[..b];
    } else {
      b, i := n, f - |Flatten(batches[..n])|;
    }
  }

  lemma FindTwins(batches: seq<seq<Sample>>) returns (w: Twins)
    requires !DistinctIds(Flatten(batches))
    ensures Apart(w, batches)
  {
    var all := Flatten(batches);
    var f, g :| 0 <= f < g < |all| && all[f].id == all[g].id;
    var b, i := Locate(batches, f);
    var c, j := Locate(batches, g);
    w := Twins(all[f].id, b, i, c, j);
  }

  /** Batched execution with retries gives every sample what predicting it alone gives,
      for every backend and every schedule, if and only if no two samples of the input
      share an identifier. */
  lemma FaithfulIff(batches: seq<seq<Sample>>, retry: int)
    ensures DistinctIds(Flatten(batches)) <==>
      forall answer: Answer, schedule: seq<nat> :: Honest(answer) ==>
        Faithful(answer, retry, batches, Run(answer, retry, batches, schedule))
  {
    if DistinctIds(Flatten(batches)) {
      forall answer: Answer, schedule: seq<nat> | Honest(answer)
        ensures Faithful(answer, retry, batches, Run(answer, retry, batches, schedule))
      {
        ConcurrentRefinesReference(answer, retry, batches, schedule);
      }
    } else {
      var w := FindTwins(batches);
      var schedule := CanAlwaysFinish(Numbered, retry, batches, []);
      assert [] + schedule == schedule;
      TwinsBreakFaith(w, retry, batches, schedule);
    }
  }

  /** OK at first and never again. */
  function OkOnce(s: Sample, k: nat): Prediction { Prediction(s.id, k == 0, "", k, None) }

  /** In the batch `[s, s]` the OK answer to `s` is overwritten by the failed second one. */
  lemma OkIsOverwritten(s: Sample)
    ensures Honest(OkOnce) && Latest(OkOnce, s, Tries(0)).ok
    ensures BatchResults(OkOnce, map[], [s, s], 0) == [OkOnce(s, 1), OkOnce(s, 1)]
  {
    var xs := [s, s];
    assert xs[..1] == [s] && [s][..0] == [];
    assert Answers(OkOnce, map[], [s]) == [OkOnce(s, 0)] && CountIn(Sends(map[], [s]), s.id) == 1 by {
      assert Answers(OkOnce, map[], [s][..0]) == [] && Sends(map[], [s][..0]) == map[];
    }
    var preds := Answers(OkOnce, map[], xs);
    assert preds == [OkOnce(s, 0)] + [OkOnce(s, 1)];
    StoreKeepsLast(map[], preds, 1);
  }

  // ---------- backends that answer a sample always alike ----------

  function Same(f: Sample -> Prediction): Answer { (s: Sample, k: nat) => f(s) }

  /** Within a batch, samples that share an identifier are equal. */
  predicate EqualTwins(xs: seq<Sample>) {
    forall i, j :: 0 <= i < |xs| && 0 <= j < |xs| && xs[i].id == xs[j].id ==> xs[i] == xs[j]
  }

  /** `p` is the answer to a sample of the batch. */
  ghost predicate Stems(f: Sample -> Prediction, p: Prediction, batch: seq<Sample>) {
    exists i :: 0 <= i < |batch| && p == f(batch[i])
  }

  ghost predicate ListStems(f: Sample -> Prediction, preds: seq<Prediction>, batch: seq<Sample>) {
    forall k :: 0 <= k < |preds| ==> Stems(f, preds[k], batch)
  }

  ghost predicate DictStems(f: Sample -> Prediction, byId: ById, batch: seq<Sample>) {
    forall id :: id in byId ==> Stems(f, byId[id], batch)
  }

  predicate Among(xs: seq<Sample>, batch: seq<Sample>) { forall s :: s in xs ==> s in batch }

  /** Samples with one identifier have one result. */
  predicate OnePerId(preds: seq<Prediction>, batch: seq<Sample>) {
    |preds| == |batch| &&
    forall i, j :: 0 <= i < |batch| && 0 <= j < |batch| && batch[i].id == batch[j].id ==> preds[i] == preds[j]
  }

  ghost predicate TaskStems(f: Sample -> Prediction, t: Task) {
    Among(t.pending, t.batch) && ListStems(f, t.got, t.batch) && DictStems(f, t.byId, t.batch) &&
    (t.result.Some? ==> ListStems(f, t.result.value, t.batch) && OnePerId(t.result.value, t.batch))
  }

  ghost predicate PoolStems(f: Sample -> Prediction, p: Pool) {
    forall b :: 0 <= b < |p.tasks| ==> TaskStems(f, p.tasks[b])
  }

  lemma {:induction false} StoreStems(f: Sample -> Prediction, byId: ById, preds: seq<Prediction>, batch: seq<Sample>)
    requires DictStems(f, byId, batch) && ListStems(f, preds, batch)
    ensures DictStems(f, Store(byId, preds), batch)
  {
    if preds != [] {
      var n := |preds| - 1;
      assert forall k :: 0 <= k < n ==> Stems(f, preds[k], batch);
      StoreStems(f, byId, preds[..n], batch);
    }
  }

  lemma NotOkAmong(byId: ById, batch: seq<Sample>)
    ensures Among(NotOk(byId, batch), batch)
  {
    NotOkMembers(byId, batch);
    forall s | s in NotOk(byId, batch) ensures s in batch {
      assert s in multiset(NotOk(byId, batch));
      assert s in multiset(batch);
    }
  }

  lemma LookupStems(f: Sample -> Prediction, byId: ById, batch: seq<Sample>)
    requires DictStems(f, byId, batch) && Known(byId, batch)
    ensures ListStems(f, Lookup(byId, batch), batch)
  {
    forall k | 0 <= k < |batch| ensures Stems(f, byId[batch[k].id], batch) {}
  }

  lemma LookupOnePerId(byId: ById, batch: seq<Sample>)
    requires Known(byId, batch)
    ensures OnePerId(Lookup(byId, batch), batch)
  {}

  lemma EndStems(f: Sample -> Prediction, retry: int, t: Task)
    requires TaskStems(f, t) && t.result.None? && t.pending == []
    ensures TaskStems(f, EndOfCall(t, retry))
  {
    var byId := Store(t.byId, t.got);
    StoreStems(f, t.byId, t.got, t.batch);
    var again := NotOk(byId, t.batch);
    if t.rounds + 1 < Tries(retry) && again != [] {
      NotOkAmong(byId, t.batch);
      assert EndOfCall(t, retry) == Task(t.batch, t.rounds + 1, again, [], byId, None);
    } else if Known(byId, t.batch) {
      LookupStems(f, byId, t.batch);
      LookupOnePerId(byId, t.batch);
      assert EndOfCall(t, retry) == t.(result := Some(Lookup(byId, t.batch)));
    }
  }

  lemma SendStems(f: Sample -> Prediction, t: Task)
    requires TaskStems(f, t) && t.result.None? && t.pending != []
    ensures TaskStems(f, t.(pending := t.pending[1..], got := t.got + [f(t.pending[0])]))
  {
    assert t.pending[0] in t.batch;
    var i :| 0 <= i < |t.batch| && t.batch[i] == t.pending[0];
    assert Stems(f, f(t.pending[0]), t.batch);
  }

  lemma MoveKeepsStems(f: Sample -> Prediction, retry: int, p: Pool, i: nat)
    requires PoolStems(f, p)
    ensures PoolStems(f, Move(Same(f), retry, p, i))
  {
    if i < |p.tasks| && p.tasks[i].result.None? {
      var t := p.tasks[i];
      assert TaskStems(f, t);
      if t.pending == [] { EndStems(f, retry, t); } else { SendStems(f, t); }
    }
  }

  lemma {:induction false} RunKeepsStems(f: Sample -> Prediction, retry: int, p: Pool, schedule: seq<nat>)
    requires PoolStems(f, p)
    ensures PoolStems(f, RunFrom(Same(f), retry, p, schedule))
    decreases schedule
  {
    if schedule != [] {
      MoveKeepsStems(f, retry, p, schedule[0]);
      RunKeepsStems(f, retry, Move(Same(f), retry, p, schedule[0]), schedule[1..]);
    }
  }

  lemma {:induction false} SameAlways(f: Sample -> Prediction, s: Sample, tries: nat)
    requires tries > 0
    ensures Latest(Same(f), s, tries) == f(s)
  {
    if tries > 1 { SameAlways(f, s, tries - 1); }
  }

  /** What threads hold under such a backend. */
  lemma StatelessRun(f: Sample -> Prediction, retry: int, batches: seq<seq<Sample>>, schedule: seq<nat>)
    requires Honest(Same(f))
    ensures var p := Run(Same(f), retry, batches, schedule); PoolLive(retry, batches, p) && PoolStems(f, p)
  {
    StartLive(retry, batches);
    RunKeepsLive(Same(f), retry, batches, Start(batches), schedule);
    RunKeepsStems(f, retry, Start(batches), schedule);
  }

  lemma StemsAreFinals(f: Sample -> Prediction, retry: int, xs: seq<Sample>, r: seq<Prediction>)
    requires Honest(Same(f)) && EqualTwins(xs) && ListStems(f, r, xs) && For(r, xs)
    ensures r == Finals(Same(f), xs, retry)
  {
    forall i | 0 <= i < |xs| ensures r[i] == Finals(Same(f), xs, retry)[i] {
      SameAlways(f, xs[i], Tries(retry));
      assert Stems(f, r[i], xs);
      var k :| 0 <= k < |xs| && r[i] == f(xs[k]);
      assert Same(f)(xs[k], 0).id == xs[k].id;
    }
  }

  lemma StatelessFaithful(f: Sample -> Prediction, retry: int, batches: seq<seq<Sample>>, schedule: seq<nat>)
    requires Honest(Same(f)) && forall b :: 0 <= b < |batches| ==> EqualTwins(batches[b])
    ensures Faithful(Same(f), retry, batches, Run(Same(f), retry, batches, schedule))
  {
    StatelessRun(f, retry, batches, schedule);
    var p := Run(Same(f), retry, batches, schedule);
    forall b | 0 <= b < |batches| && p.tasks[b].result.Some?
      ensures p.tasks[b].result.value == Finals(Same(f), batches[b], retry)
    {
      assert TaskStems(f, p.tasks[b]) && Live(retry, p.tasks[b]);
      StemsAreFinals(f, retry, batches[b], p.tasks[b].result.value);
    }
  }

  lemma UnequalTwinsBreakFaith(retry: int, batches: seq<seq<Sample>>, b: nat)
    returns (f: Sample -> Prediction, schedule: seq<nat>)
    requires b < |batches| && !EqualTwins(batches[b])
    ensures Honest(Same(f)) && !Faithful(Same(f), retry, batches, Run(Same(f), retry, batches, schedule))
  {
    var xs := batches[b];
    var i, j :| 0 <= i < |xs| && 0 <= j < |xs| && xs[i].id == xs[j].id && xs[i] != xs[j];
    f := (s: Sample) => Prediction(s.id, true, "", if s == xs[i] then 1 else 0, None);
    schedule := CanAlwaysFinish(Same(f), retry, batches, []);
    assert [] + schedule == schedule;
    StatelessRun(f, retry, batches, schedule);
    var p := Run(Same(f), retry, batches, schedule);
    assert TaskStems(f, p.tasks[b]) && Live(retry, p.tasks[b]);
    assert p.tasks[b].result.value[i] == p.tasks[b].result.value[j];
    SameAlways(f, xs[i], Tries(retry));
    SameAlways(f, xs[j], Tries(retry));
    assert Finals(Same(f), xs, retry)[i] != Finals(Same(f), xs, retry)[j];
  }

  /** For backends that answer a sample alike however often it is sent, the condition is
      weaker: samples of one batch that share an identifier must be equal. */
  lemma StatelessFaithfulIff(batches: seq<seq<Sample>>, retry: int)
    ensures (forall b :: 0 <= b < |batches| ==> EqualTwins(batches[b])) <==>
      forall f: Sample -> Prediction, schedule: seq<nat> :: Honest(Same(f)) ==>
        Faithful(Same(f), retry, batches, Run(Same(f), retry, batches, schedule))
  {
    if forall b :: 0 <= b < |batches| ==> EqualTwins(batches[b]) {
      forall f: Sample -> Prediction, schedule: seq<nat> | Honest(Same(f))
        ensures Faithful(Same(f), retry, batches, Run(Same(f), retry, batches, schedule))
      {
        StatelessFaithful(f, retry, batches, schedule);
      }
    } else {
      var b :| 0 <= b < |batches| && !EqualTwins(batches[b]);
      var f, schedule := UnequalTwinsBreakFaith(retry, batches, b);
    }
  }
}
