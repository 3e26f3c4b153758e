/**
 The worker's loop on a queue nobody else changes
 (workers/autodl_inference_worker/worker.py, lines 114-148, 216-261).
 */
module JobWorker {
  import opened Wrappers
  import opened JobState
  import opened JobQueue

  type Rows = map<JobId, Row>

  predicate Waiting(rows: Rows, model: string, j: JobId) {
    j in rows && rows[j].status == QUEUED && rows[j].model == model
  }

  /** No two waiting jobs of the model tie on (priority, created_at). */
  ghost predicate NoTies(rows: Rows, model: string) {
    forall j, k :: Waiting(rows, model, j) && Waiting(rows, model, k) && j != k ==>
      Before(rows[j], rows[k]) || Before(rows[k], rows[j])
  }

  /** `j` is what SELECT ... ORDER BY ... LIMIT 1 may return. */
  ghost predicate IsBest(rows: Rows, model: string, j: JobId) {
    Waiting(rows, model, j) && forall k :: Waiting(rows, model, k) ==> !Before(rows[k], rows[j])
  }

  /** `q` lists the waiting jobs of the model, highest priority first, oldest first. */
  ghost predicate IsQueue(q: seq<JobId>, rows: Rows, model: string) {
    (forall i :: 0 <= i < |q| ==> Waiting(rows, model, q[i])) &&
    (forall j :: Waiting(rows, model, j) ==> j in q) &&
    (forall i, k :: 0 <= i < k < |q| ==> Before(rows[q[i]], rows[q[k]]))
  }

  lemma BestIsHead(q: seq<JobId>, rows: Rows, model: string, j: JobId)
    requires IsQueue(q, rows, model) && IsBest(rows, model, j)
    ensures q != [] && q[0] == j
  {
    var i :| 0 <= i < |q| && q[i] == j;
    assert Waiting(rows, model, q[0]);
  }

  lemma HeadIsBest(q: seq<JobId>, rows: Rows, model: string)
    requires IsQueue(q, rows, model) && q != []
    ensures IsBest(rows, model, q[0])
  {
    forall k | Waiting(rows, model, k) ensures !Before(rows[k], rows[q[0]]) {
      var i :| 0 <= i < |q| && q[i] == k;
    }
  }

  lemma HeadWaits(q: seq<JobId>, rows: Rows, model: string)
    requires IsQueue(q, rows, model)
    ensures q != [] ==> Waiting(rows, model, q[0])
  {}

  /** Once the head stops waiting, the tail is the queue. */
  lemma TailOfQueue(q: seq<JobId>, rows: Rows, model: string, after: Rows)
    requires IsQueue(q, rows, model) && q != []
    requires forall k :: Waiting(after, model, k) <==> Waiting(rows, model, k) && k != q[0]
    requires forall k :: Waiting(after, model, k) ==> after[k] == rows[k]
    ensures IsQueue(q[1..], after, model)
  {
    forall i | 0 <= i < |q[1..]| ensures Waiting(after, model, q[1..][i]) {
      assert q[1..][i] == q[i + 1] && Before(rows[q[0]], rows[q[i + 1]]);
    }
    forall j | Waiting(after, model, j) ensures j in q[1..] {
      var i :| 0 <= i < |q| && q[i] == j;
      assert q[1..][i - 1] == j;
    }
    forall i, k | 0 <= i < k < |q[1..]| ensures Before(after[q[1..][i]], after[q[1..][k]]) {
      assert Before(rows[q[i + 1]], rows[q[k + 1]]);
    }
  }

  function Without(rows: Rows, j: JobId): Rows { map k | k in rows && k != j :: rows[k] }

  lemma WithoutShrinks(rows: Rows, j: JobId)
    requires j in rows
    ensures |Without(rows, j)| < |rows|
  {
    assert Without(rows, j).Keys == rows.Keys - {j};
    assert |Without(rows, j).Keys| < |rows.Keys|;
  }

  /** There is at most one queue order. */
  lemma {:induction false} QueueUnique(p: seq<JobId>, q: seq<JobId>, rows: Rows, model: string)
    requires IsQueue(p, rows, model) && IsQueue(q, rows, model)
    ensures p == q
    decreases |p|
  {
    if p == [] {
      HeadWaits(q, rows, model);
    } else {
      HeadIsBest(p, rows, model);
      BestIsHead(q, rows, model, p[0]);
      var after := Without(rows, p[0]);
      TailOfQueue(p, rows, model, after);
      TailOfQueue(q, rows, model, after);
      QueueUnique(p[1..], q[1..], after, model);
    }
  }

  // ---------- orders, ties allowed ----------

  /** `q` is a list the database may return for ORDER BY priority DESC, created_at ASC:
      every waiting job of the model once, none before one that precedes it. */
  ghost predicate IsOrder(q: seq<JobId>, rows: Rows, model: string) {
    (forall i :: 0 <= i < |q| ==> Waiting(rows, model, q[i])) &&
    (forall j :: Waiting(rows, model, j) ==> j in q) &&
    (forall i, k :: 0 <= i < k < |q| ==> q[i] != q[k] && !Before(rows[q[k]], rows[q[i]]))
  }

  /** Without ties there is only one such list: the queue order. */
  lemma OrderIsQueue(q: seq<JobId>, rows: Rows, model: string)
    requires NoTies(rows, model)
    ensures IsOrder(q, rows, model) <==> IsQueue(q, rows, model)
  {
    if IsOrder(q, rows, model) {
      forall i, k | 0 <= i < k < |q| ensures Before(rows[q[i]], rows[q[k]]) {
        assert Waiting(rows, model, q[i]) && Waiting(rows, model, q[k]);
      }
    }
  }

  /** What an order means for the rows themselves: exactly the QUEUED rows of the model,
      each once, priorities never rising, and oldest first among equal priorities. */
  lemma OrderMeans(q: seq<JobId>, rows: Rows, model: string)
    requires IsOrder(q, rows, model)
    ensures forall i :: 0 <= i < |q| ==> q[i] in rows && rows[q[i]].status == QUEUED && rows[q[i]].model == model
    ensures forall j :: j in rows && rows[j].status == QUEUED && rows[j].model == model ==> j in q
    ensures forall i, k :: 0 <= i < k < |q| ==>
      q[i] != q[k] && rows[q[i]].priority >= rows[q[k]].priority &&
      (rows[q[i]].priority == rows[q[k]].priority ==> rows[q[i]].createdAt <= rows[q[k]].createdAt)
  {
    forall j | j in rows && rows[j].status == QUEUED && rows[j].model == model ensures j in q {
      assert Waiting(rows, model, j);
    }
  }

  lemma {:induction false} BestExists(rows: Rows, model: string, j: JobId) returns (best: JobId)
    requires Waiting(rows, model, j)
    ensures IsBest(rows, model, best)
    decreases |rows|
  {
    var rest := Without(rows, j);
    WithoutShrinks(rows, j);
    best := j;
    if k :| Waiting(rest, model, k) {
      best := BestExists(rest, model, k);
      if Before(rows[j], rows[best]) { best := j; }
    }
    forall k | Waiting(rows, model, k) ensures !Before(rows[k], rows[best]) {
      assert k != j ==> Waiting(rest, model, k);
    }
  }

  /** A first job, and then an order of what still waits, is an order. */
  lemma ConsOrder(best: JobId, tail: seq<JobId>, rows: Rows, model: string, after: Rows)
    requires IsBest(rows, model, best) && IsOrder(tail, after, model)
    requires forall k :: Waiting(after, model, k) <==> Waiting(rows, model, k) && k != best
    requires forall k :: Waiting(after, model, k) ==> after[k] == rows[k]
    ensures IsOrder([best] + tail, rows, model)
  {
    var q := [best] + tail;
    forall i | 0 <= i < |q| ensures Waiting(rows, model, q[i]) && (i > 0 ==> q[i] != best) {
      if i > 0 { assert q[i] == tail[i - 1] && Waiting(after, model, tail[i - 1]); }
    }
    forall k | Waiting(rows, model, k) ensures k in q {
      if k != best { assert Waiting(after, model, k); }
    }
    forall i, k | 0 <= i < k < |q| ensures q[i] != q[k] && !Before(rows[q[k]], rows[q[i]]) {
      if i > 0 { assert !Before(after[tail[k - 1]], after[tail[i - 1]]); }
    }
  }

  lemma {:induction false} OrderExists(rows: Rows, model: string) returns (q: seq<JobId>)
    ensures IsOrder(q, rows, model)
    decreases |rows|
  {
    q := [];
    if j :| Waiting(rows, model, j) {
      var best := BestExists(rows, model, j);
      var rest := Without(rows, best);
      WithoutShrinks(rows, best);
      var tail := OrderExists(rest, model);
      ConsOrder(best, tail, rows, model, rest);
      q := [best] + tail;
    }
  }

  lemma QueueExists(rows: Rows, model: string) returns (q: seq<JobId>)
    requires NoTies(rows, model)
    ensures IsQueue(q, rows, model)
  {
    q := OrderExists(rows, model);
    OrderIsQueue(q, rows, model);
  }

  /** The queue order of the model's waiting jobs; there is exactly one. */
  ghost function QueueOrder(rows: Rows, model: string): (q: seq<JobId>)
    requires NoTies(rows, model)
    ensures IsQueue(q, rows, model)
  {
    assert exists q :: IsQueue(q, rows, model) by { var q := QueueExists(rows, model); }
    var q :| IsQueue(q, rows, model);
    q
  }

  /** The same jobs wait, with the same rows. */
  ghost predicate SameWaiting(a: Rows, b: Rows, model: string) {
    forall k :: (Waiting(a, model, k) <==> Waiting(b, model, k)) && (Waiting(a, model, k) ==> a[k] == b[k])
  }

  /** Each job of `done` was a first one when it was taken, and `rows` is what still waits
      after them. */
  ghost predicate Leads(done: seq<JobId>, initial: Rows, rows: Rows, model: string) {
    if done == [] then SameWaiting(initial, rows, model)
    else IsBest(initial, model, done[0]) && Leads(done[1..], Without(initial, done[0]), rows, model)
  }

  lemma {:induction false} LeadsOn(done: seq<JobId>, initial: Rows, rows: Rows, model: string, best: JobId, after: Rows)
    requires Leads(done, initial, rows, model) && IsBest(rows, model, best)
    requires SameWaiting(Without(rows, best), after, model)
    ensures Leads(done + [best], initial, after, model)
  {
    if done == [] {
      assert [best][1..] == [];
      forall k | Waiting(initial, model, k) ensures !Before(initial[k], initial[best]) {
        assert Waiting(rows, model, k);
      }
      assert Waiting(rows, model, best);
      forall k ensures Waiting(Without(initial, best), model, k) <==> Waiting(after, model, k) {
        assert Waiting(Without(rows, best), model, k) <==> Waiting(rows, model, k) && k != best;
      }
    } else {
      LeadsOn(done[1..], Without(initial, done[0]), rows, model, best, after);
      assert (done + [best])[1..] == done[1..] + [best];
    }
  }

  lemma LeadsFromStart(rows: Rows, model: string)
    ensures Leads([], rows, rows, model)
  {}

  lemma {:induction false} LeadsOrder(done: seq<JobId>, initial: Rows, rows: Rows, model: string, tail: seq<JobId>)
    requires Leads(done, initial, rows, model) && IsOrder(tail, rows, model)
    ensures IsOrder(done + tail, initial, model)
  {
    if done == [] {
      assert done + tail == tail;
      SameOrder(tail, rows, initial, model);
    } else {
      LeadsOrder(done[1..], Without(initial, done[0]), rows, model, tail);
      ConsOrder(done[0], done[1..] + tail, initial, model, Without(initial, done[0]));
      assert [done[0]] + (done[1..] + tail) == done + tail;
    }
  }

  lemma SameOrder(q: seq<JobId>, rows: Rows, other: Rows, model: string)
    requires IsOrder(q, rows, model) && SameWaiting(other, rows, model)
    ensures IsOrder(q, other, model)
  {
    forall i | 0 <= i < |q| ensures Waiting(other, model, q[i]) && other[q[i]] == rows[q[i]] {
      assert Waiting(rows, model, q[i]);
    }
    forall j | Waiting(other, model, j) ensures j in q { assert Waiting(rows, model, j); }
  }

  /** An order of the whole table that begins with `done`. */
  lemma WholeOrder(done: seq<JobId>, initial: Rows, rows: Rows, model: string) returns (q: seq<JobId>)
    requires Leads(done, initial, rows, model)
    ensures done <= q && IsOrder(q, initial, model) && IsOrder(q[|done|..], rows, model)
    ensures NoTies(initial, model) ==> q == QueueOrder(initial, model)
  {
    var tail := OrderExists(rows, model);
    LeadsOrder(done, initial, rows, model, tail);
    q := done + tail;
    assert q[|done|..] == tail;
    if NoTies(initial, model) {
      OrderIsQueue(q, initial, model);
      QueueUnique(q, QueueOrder(initial, model), initial, model);
    }
  }

  function Least(a: int, b: nat): nat { if a < 0 then 0 else if a < b then a else b }

  lemma HeadOfOrderWaits(q: seq<JobId>, rows: Rows, model: string)
    requires IsOrder(q, rows, model)
    ensures q != [] ==> Waiting(rows, model, q[0])
  {}

  /** Enough jobs were taken, or no job waits any more. */
  lemma FullOrder(done: seq<JobId>, initial: Rows, rows: Rows, model: string, limit: int) returns (q: seq<JobId>)
    requires Leads(done, initial, rows, model) && |done| <= (if limit < 0 then 0 else limit)
    requires |done| < limit ==> forall j :: !Waiting(rows, model, j)
    ensures IsOrder(q, initial, model) && |done| == Least(limit, |q|) && done == q[..|done|]
    ensures NoTies(initial, model) ==> q == QueueOrder(initial, model)
  {
    q := WholeOrder(done, initial, rows, model);
    HeadOfOrderWaits(q[|done|..], rows, model);
  }

  /** What heads of an order hold, in the row fields. */
  lemma ListedMeans(q: seq<JobId>, listed: seq<JobId>, limit: nat, rows: Rows, model: string)
    requires IsOrder(q, rows, model) && listed == q[..Least(limit, |q|)]
    ensures forall i :: 0 <= i < |listed| ==>
      listed[i] in rows && rows[listed[i]].status == QUEUED && rows[listed[i]].model == model
    ensures forall i, k :: 0 <= i < k < |listed| ==>
      listed[i] != listed[k] && rows[listed[i]].priority >= rows[listed[k]].priority &&
      (rows[listed[i]].priority == rows[listed[k]].priority ==>
        rows[listed[i]].createdAt <= rows[listed[k]].createdAt)
    ensures |listed| < limit ==>
      forall j :: j in rows && rows[j].status == QUEUED && rows[j].model == model ==> j in listed
  {
    OrderMeans(q, rows, model);
  }

  /** The first `limit` jobs of a list the database may return. */
  ghost predicate Begins(listed: seq<JobId>, limit: nat, rows: Rows, model: string) {
    exists q :: IsOrder(q, rows, model) && listed == q[..Least(limit, |q|)]
  }

  /** The last job taken was not finished. */
  lemma CutOrder(done: seq<JobId>, last: JobId, initial: Rows, rows: Rows, model: string) returns (q: seq<JobId>)
    requires Leads(done + [last], initial, rows, model)
    ensures IsOrder(q, initial, model) && |done| < |q| && done == q[..|done|] && q[|done|] == last
    ensures NoTies(initial, model) ==> q == QueueOrder(initial, model)
  {
    q := WholeOrder(done + [last], initial, rows, model);
    assert q[|done|] == (done + [last])[|done|] && q[..|done|] == (done + [last])[..|done|];
  }

  /** SELECT ... WHERE status = QUEUED AND model_id = model ORDER BY ... LIMIT 1. */
  method SelectFirst(rows: Rows, model: string) returns (best: Option<JobId>)
    ensures best.None? ==> forall j :: !Waiting(rows, model, j)
    ensures best.Some? ==> IsBest(rows, model, best.value)
    ensures best.None? ==> forall j :: j in rows ==> !(rows[j].status == QUEUED && rows[j].model == model)
    ensures best.Some? ==>
      best.value in rows && rows[best.value].status == QUEUED && rows[best.value].model == model &&
      forall j :: j in rows && rows[j].status == QUEUED && rows[j].model == model ==>
        rows[j].priority < rows[best.value].priority ||
        (rows[j].priority == rows[best.value].priority && rows[best.value].createdAt <= rows[j].createdAt)
  {
    best := None;
    var todo := rows.Keys;
    while todo != {}
      invariant todo <= rows.Keys
      invariant best.None? ==> forall k :: k in rows.Keys - todo ==> !Waiting(rows, model, k)
      invariant best.Some? ==> Waiting(rows, model, best.value)
      invariant best.Some? ==> forall k :: k in rows.Keys - todo && Waiting(rows, model, k) ==>
        !Before(rows[k], rows[best.value])
      decreases |todo|
    {
      var j :| j in todo;
      todo := todo - {j};
      if Waiting(rows, model, j) && (best.None? || Before(rows[j], rows[best.value])) {
        best := Some(j);
      }
    }
    ghost var found := best;
    forall j | j in rows && rows[j].status == QUEUED && rows[j].model == model
      ensures found.Some? && !Before(rows[j], rows[found.value])
    {
      assert Waiting(rows, model, j);
    }
  }

  /** The table after a worker ran `done`, having raised in the middle of `abandoned`. */
  function Ran(rows: Rows, done: seq<JobId>, outcome: JobId -> Option<Status>, abandoned: Option<JobId>): Rows {
    map j | j in rows ::
      if j in done && outcome(j).Some? then rows[j].(status := outcome(j).value)
      else if abandoned == Some(j) then rows[j].(status := RUNNING)
      else rows[j]
  }

  /** What a worker's run means for the rows themselves. */
  lemma WorkMeans(rows: Rows, q: seq<JobId>, done: seq<JobId>, outcome: JobId -> Option<Status>,
                  abandoned: Option<JobId>, model: string)
    requires IsOrder(q, rows, model) && |done| <= |q| && done == q[..|done|]
    requires forall j :: j in done ==> outcome(j).Some?
    requires abandoned.Some? ==> |done| < |q| && q[|done|] == abandoned.value
    ensures var t := Ran(rows, done, outcome, abandoned);
      t.Keys == rows.Keys &&
      (forall j :: j in done ==> j in rows && t[j] == rows[j].(status := outcome(j).value)) &&
      (abandoned.Some? ==>
        abandoned.value in rows && t[abandoned.value] == rows[abandoned.value].(status := RUNNING)) &&
      (forall j :: j in rows && j !in done && abandoned != Some(j) ==> t[j] == rows[j]) &&
      (forall j :: j in rows && rows[j].model != model ==> t[j] == rows[j])
    ensures forall i :: 0 <= i < |q| ==> q[i] in rows && rows[q[i]].status == QUEUED && rows[q[i]].model == model
    ensures forall j :: j in rows && rows[j].status == QUEUED && rows[j].model == model ==> j in q
    ensures forall i, k :: 0 <= i < k < |q| ==>
      q[i] != q[k] && rows[q[i]].priority >= rows[q[k]].priority &&
      (rows[q[i]].priority == rows[q[k]].priority ==> rows[q[i]].createdAt <= rows[q[k]].createdAt)
  {
    OrderMeans(q, rows, model);
    forall j | j in done ensures j in rows && rows[j].model == model && abandoned != Some(j) {
      var i :| 0 <= i < |done| && done[i] == j;
      assert q[i] == j;
    }
  }

  /** The inference_jobs table, and the calls a worker makes on it. */
  class JobTable {
    var rows: Rows

    constructor (initial: Rows)
      ensures rows == initial
    {
      rows := initial;
    }

    /** The dry run: list without changing anything. The list begins an order of the queue;
        without ties on (priority, created_at) that is the queue order. */
    method ListQueued(model: string, limit: nat) returns (listed: seq<JobId>)
      ensures Begins(listed, limit, rows, model)
      ensures NoTies(rows, model) ==> var q := QueueOrder(rows, model); listed == q[..Least(limit, |q|)]
      ensures forall i :: 0 <= i < |listed| ==>
        listed[i] in rows && rows[listed[i]].status == QUEUED && rows[listed[i]].model == model
      ensures forall i, k :: 0 <= i < k < |listed| ==>
        listed[i] != listed[k] && rows[listed[i]].priority >= rows[listed[k]].priority &&
        (rows[listed[i]].priority == rows[listed[k]].priority ==>
          rows[listed[i]].createdAt <= rows[listed[k]].createdAt)
      ensures |listed| <= limit
      ensures |listed| < limit ==>
        forall j :: j in rows && rows[j].status == QUEUED && rows[j].model == model ==> j in listed
    {
      listed := [];
      var rest := rows;
      LeadsFromStart(rows, model);
      while |listed| < limit
        invariant |listed| <= limit && Leads(listed, rows, rest, model)
        decreases limit - |listed|
      {
        var best := SelectFirst(rest, model);
        if best.None? { break; }
        LeadsOn(listed, rows, rest, model, best.value, Without(rest, best.value));
        listed := listed + [best.value];
        rest := Without(rest, best.value);
      }
      ghost var q := FullOrder(listed, rows, rest, model, limit);
      ListedMeans(q, listed, limit, rows, model);
    }

    /** SELECT, then UPDATE ... WHERE status = QUEUED; the row found is taken. */
    method ClaimNextJob(model: string) returns (job: Option<JobId>)
      modifies this
      ensures job.None? <==> forall j :: !Waiting(old(rows), model, j)
      ensures job.None? ==> rows == old(rows)
      ensures job.Some? ==> IsBest(old(rows), model, job.value)
      ensures job.Some? ==>
        job.value in old(rows) && old(rows)[job.value].status == QUEUED && old(rows)[job.value].model == model &&
        rows == old(rows)[job.value := old(rows)[job.value].(status := RUNNING)] &&
        forall j :: j in old(rows) && old(rows)[j].status == QUEUED && old(rows)[j].model == model ==>
          old(rows)[j].priority < old(rows)[job.value].priority ||
          (old(rows)[j].priority == old(rows)[job.value].priority &&
           old(rows)[job.value].createdAt <= old(rows)[j].createdAt)
      ensures job.None? ==>
        forall j :: j in old(rows) ==> !(old(rows)[j].status == QUEUED && old(rows)[j].model == model)
    {
      job := SelectFirst(rows, model);
      if job.None? { return; }
      if job.value in rows && rows[job.value].status == QUEUED {
        rows := rows[job.value := rows[job.value].(status := RUNNING)];
      } else {
        job := None;
      }
    }

    /** UPDATE ... WHERE job_id = job. */
    method FinalizeJob(job: JobId, verdict: Status)
      modifies this
      ensures rows == if job in old(rows) then old(rows)[job := old(rows)[job].(status := verdict)] else old(rows)
    {
      if job in rows { rows := rows[job := rows[job].(status := verdict)]; }
    }

    /** What the loop keeps: the jobs in `done` came first and have their verdicts. */
    ghost predicate Kept(initial: Rows, done: seq<JobId>, model: string, outcome: JobId -> Option<Status>)
      reads this
    {
      Leads(done, initial, rows, model) && rows == Ran(initial, done, outcome, None) &&
      forall j :: j in done ==> outcome(j).Some?
    }

    /** One turn: claim a job, run it, record its verdict. */
    method TakeTurn(model: string, outcome: JobId -> Option<Status>, ghost initial: Rows, ghost done: seq<JobId>)
      returns (job: Option<JobId>)
      requires forall j :: outcome(j).Some? ==> outcome(j).value in {SUCCEEDED, FAILED}
      requires Kept(initial, done, model, outcome)
      modifies this
      ensures job.None? ==> rows == old(rows) && forall j :: !Waiting(rows, model, j)
      ensures job.Some? ==> Leads(done + [job.value], initial, rows, model)
      ensures job.Some? && outcome(job.value).None? ==> rows == Ran(initial, done, outcome, job)
      ensures job.Some? && outcome(job.value).Some? ==> Kept(initial, done + [job.value], model, outcome)
    {
      ghost var before := rows;
      job := ClaimNextJob(model);
      if job.None? { return; }
      RanStep(initial, done, outcome, job.value);
      var verdict := outcome(job.value);
      if verdict.Some? { FinalizeJob(job.value, verdict.value); }
      LeadsOn(done, initial, before, model, job.value, rows);
    }

    /** The loop over turns. */
    method TakeTurns(model: string, maxJobs: int, outcome: JobId -> Option<Status>)
      returns (done: seq<JobId>, abandoned: Option<JobId>, ghost q: seq<JobId>)
      requires forall j :: outcome(j).Some? ==> outcome(j).value in {SUCCEEDED, FAILED}
      modifies this
      ensures IsOrder(q, old(rows), model) && (NoTies(old(rows), model) ==> q == QueueOrder(old(rows), model))
      ensures |done| <= Least(maxJobs, |q|) && done == q[..|done|]
      ensures abandoned.None? ==> |done| == Least(maxJobs, |q|)
      ensures abandoned.Some? ==>
        |done| < Least(maxJobs, |q|) && q[|done|] == abandoned.value && outcome(abandoned.value).None?
      ensures forall j :: j in done ==> outcome(j).Some?
      ensures rows == Ran(old(rows), done, outcome, abandoned)
    {
      done, abandoned := [], None;
      ghost var initial := rows;
      LeadsFromStart(rows, model);
      while |done| < maxJobs
        invariant |done| <= (if maxJobs < 0 then 0 else maxJobs) && Kept(initial, done, model, outcome)
        decreases maxJobs - |done|
      {
        var job := TakeTurn(model, outcome, initial, done);
        if job.None? { break; }
        if outcome(job.value).None? {
          abandoned := job;
          q := CutOrder(done, job.value, initial, rows, model);
          return;
        }
        done := done + [job.value];
      }
      q := FullOrder(done, initial, rows, model, maxJobs);
    }

    /** The main loop. `outcome` is what running a job yields: its verdict, or None when
        the run raises, which ends the worker and leaves the row RUNNING. The jobs run
        are the first min(max_jobs, waiting) of an order of the queue, cut short only by a
        raising job; without ties that is the very list the dry run prints. Every other
        row is untouched. */
    method RunWorker(model: string, maxJobs: int, outcome: JobId -> Option<Status>)
      returns (done: seq<JobId>, abandoned: Option<JobId>, ghost q: seq<JobId>)
      requires forall j :: outcome(j).Some? ==> outcome(j).value in {SUCCEEDED, FAILED}
      modifies this
      ensures IsOrder(q, old(rows), model)
      ensures NoTies(old(rows), model) ==> q == QueueOrder(old(rows), model)
      ensures done <= q && |done| <= Least(maxJobs, |q|)
      ensures abandoned.None? ==> |done| == Least(maxJobs, |q|)
      ensures abandoned.Some? ==>
        |done| < Least(maxJobs, |q|) && q[|done|] == abandoned.value && outcome(abandoned.value).None?
      ensures forall j :: j in done ==> outcome(j).Some?
      ensures forall i :: 0 <= i < |q| ==>
        q[i] in old(rows) && old(rows)[q[i]].status == QUEUED && old(rows)[q[i]].model == model
      ensures forall j :: j in old(rows) && old(rows)[j].status == QUEUED && old(rows)[j].model == model ==> j in q
      ensures forall i, k :: 0 <= i < k < |q| ==>
        q[i] != q[k] && old(rows)[q[i]].priority >= old(rows)[q[k]].priority &&
        (old(rows)[q[i]].priority == old(rows)[q[k]].priority ==>
          old(rows)[q[i]].createdAt <= old(rows)[q[k]].createdAt)
      ensures rows.Keys == old(rows).Keys
      ensures forall j :: j in done ==> rows[j] == old(rows)[j].(status := outcome(j).value)
      ensures abandoned.Some? ==> rows[abandoned.value] == old(rows)[abandoned.value].(status := RUNNING)
      ensures forall j :: j in old(rows) && j !in done && abandoned != Some(j) ==> rows[j] == old(rows)[j]
      ensures forall j :: j in old(rows) && old(rows)[j].model != model ==> rows[j] == old(rows)[j]
    {
      done, abandoned, q := TakeTurns(model, maxJobs, outcome);
      WorkMeans(old(rows), q, done, outcome, abandoned, model);
    }
  }

  lemma RanStep(rows: Rows, done: seq<JobId>, outcome: JobId -> Option<Status>, j: JobId)
    requires forall k :: k in done ==> outcome(k).Some?
    requires forall k :: outcome(k).Some? ==> outcome(k).value in {SUCCEEDED, FAILED}
    requires j in rows && Ran(rows, done, outcome, None)[j].status == QUEUED
    ensures var t := Ran(rows, done, outcome, None);
      if outcome(j).Some? then Ran(rows, done + [j], outcome, None) == t[j := t[j].(status := outcome(j).value)]
      else Ran(rows, done, outcome, Some(j)) == t[j := t[j].(status := RUNNING)]
  {}
}
