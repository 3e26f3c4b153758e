/**
 The shared inference_jobs table under concurrent use: the API enqueues, pull-based
 workers claim and finish, CLI runs upsert rows of their own, and any process may die
 between two database statements. A run is any list of steps, so every interleaving
 of any number of processes is covered.
 */
module JobQueue {
  import opened Wrappers
  import opened JobState

  type JobId = string
  type ProcId = int

  datatype Row = Row(status: Status, model: string, priority: int, createdAt: int)

  datatype Origin = Api | CliRun(c: ProcId)

  /** Everything known of one job identifier: who drew it, its row if one was stored,
      the statuses it was given and those its row went through, and the workers whose
      conditional update hit its row. The last three are history. */
  datatype Job = Job(origin: Origin, row: Option<Row>,
                     given: seq<Status>, persisted: seq<Status>, claimers: seq<ProcId>)

  /** Where a worker stands in its loop. A dead worker remembers the job it left behind. */
  datatype Worker =
    | Idle(model: string, left: int)
    | Selected(model: string, left: int, job: JobId)
    | Executing(model: string, left: int, job: JobId)
    | Stopped(abandoned: Option<JobId>)

  /** A CLI run: the job object in memory, and whether its current status was offered
      to the database yet. */
  datatype Cli = Cli(job: JobId, row: Row, offered: bool, alive: bool)

  datatype State = State(jobs: map<JobId, Job>, workers: map<ProcId, Worker>, clis: map<ProcId, Cli>)

  datatype Step =
    | Enqueue(id: JobId, row: Row, stored: bool)
    | StartWorker(w: ProcId, model: string, maxJobs: int)
    | Select(w: ProcId, pick: Option<JobId>)
    | ConditionalUpdate(w: ProcId)
    | Finalize(w: ProcId, verdict: Status)
    | KillWorker(w: ProcId)
    | StartCli(c: ProcId, id: JobId, row: Row)
    | OfferCli(c: ProcId, stored: bool)
    | AdvanceCli(c: ProcId, next: Status)
    | KillCli(c: ProcId)

  const Init := State(map[], map[], map[])

  // ---------- the SELECT ----------

  /** ORDER BY priority DESC, created_at ASC. */
  predicate Before(a: Row, b: Row) {
    a.priority > b.priority || (a.priority == b.priority && a.createdAt < b.createdAt)
  }

  predicate Queued(s: State, model: string, j: JobId) {
    j in s.jobs && s.jobs[j].row.Some? &&
    s.jobs[j].row.value.status == QUEUED && s.jobs[j].row.value.model == model
  }

  /** A row the database may return for `... LIMIT 1`; ties are broken arbitrarily. */
  ghost predicate IsFirst(s: State, model: string, j: JobId) {
    Queued(s, model, j) &&
    forall k :: Queued(s, model, k) ==> !Before(s.jobs[k].row.value, s.jobs[j].row.value)
  }

  /** What that means for the rows themselves: a QUEUED row of the model, no other one of
      higher priority, none of equal priority that is older. */
  lemma FirstMeans(s: State, model: string, j: JobId)
    ensures IsFirst(s, model, j) <==>
      j in s.jobs && s.jobs[j].row.Some? &&
      (var row := s.jobs[j].row.value;
       row.status == QUEUED && row.model == model &&
       forall k :: k in s.jobs && s.jobs[k].row.Some? ==>
         var other := s.jobs[k].row.value;
         !(other.status == QUEUED && other.model == model) || other.priority < row.priority ||
         (other.priority == row.priority && row.createdAt <= other.createdAt))
  {
    if j in s.jobs && s.jobs[j].row.Some? {
      forall k | k in s.jobs && s.jobs[k].row.Some?
        ensures Queued(s, model, k) <==>
          s.jobs[k].row.value.status == QUEUED && s.jobs[k].row.value.model == model
      {}
    }
  }

  // ---------- the transition system ----------

  ghost predicate Enabled(s: State, step: Step) {
    match step
    case Enqueue(id, row, _) => id !in s.jobs && row.status == QUEUED
    case StartWorker(w, _, _) => w !in s.workers
    case Select(w, pick) =>
      w in s.workers && s.workers[w].Idle? && s.workers[w].left > 0 &&
      (match pick
       case Some(j) => IsFirst(s, s.workers[w].model, j)
       case None => forall j :: !Queued(s, s.workers[w].model, j))
    case ConditionalUpdate(w) => w in s.workers && s.workers[w].Selected?
    case Finalize(w, verdict) =>
      w in s.workers && s.workers[w].Executing? && s.workers[w].job in s.jobs && verdict in {SUCCEEDED, FAILED}
    case KillWorker(w) => w in s.workers && !s.workers[w].Stopped?
    case StartCli(c, id, row) => c !in s.clis && id !in s.jobs && row.status == CREATED
    case OfferCli(c, _) => c in s.clis && s.clis[c].alive && !s.clis[c].offered && s.clis[c].job in s.jobs
    case AdvanceCli(c, next) =>
      c in s.clis && s.clis[c].alive && s.clis[c].offered && s.clis[c].job in s.jobs &&
      (match s.clis[c].row.status
       case CREATED => next == RUNNING
       case RUNNING => next in {SUCCEEDED, FAILED}
       case _ => false)
    case KillCli(c) => c in s.clis && s.clis[c].alive
  }

  /** UPDATE ... SET status WHERE job_id = j: no guard on the status it replaces. */
  function SetStatus(job: Job, x: Status): Job {
    if job.row.None? then job
    else job.(row := Some(job.row.value.(status := x)), given := job.given + [x], persisted := job.persisted + [x])
  }

  /** The conditional UPDATE ... WHERE job_id = j AND status = QUEUED hits the row. */
  predicate UpdateHits(s: State, j: JobId) {
    j in s.jobs && s.jobs[j].row.Some? && s.jobs[j].row.value.status == QUEUED
  }

  ghost function Apply(s: State, step: Step): State
    requires Enabled(s, step)
  {
    match step
    case Enqueue(id, row, stored) =>
      s.(jobs := s.jobs[id := if stored then Job(Api, Some(row), [QUEUED], [QUEUED], [])
                              else Job(Api, None, [QUEUED], [], [])])
    case StartWorker(w, model, maxJobs) =>
      s.(workers := s.workers[w := Idle(model, maxJobs)])
    case Select(w, pick) =>
      var me := s.workers[w];
      s.(workers := s.workers[w := if pick.Some? then Selected(me.model, me.left, pick.value) else Stopped(None)])
    case ConditionalUpdate(w) =>
      var me := s.workers[w];
      if UpdateHits(s, me.job) then
        var job := SetStatus(s.jobs[me.job], RUNNING);
        s.(jobs := s.jobs[me.job := job.(claimers := job.claimers + [w])],
           workers := s.workers[w := Executing(me.model, me.left, me.job)])
      else s.(workers := s.workers[w := Stopped(None)])
    case Finalize(w, verdict) =>
      var me := s.workers[w];
      s.(jobs := s.jobs[me.job := SetStatus(s.jobs[me.job], verdict)],
         workers := s.workers[w := Idle(me.model, me.left - 1)])
    case KillWorker(w) =>
      var me := s.workers[w];
      s.(workers := s.workers[w := Stopped(if me.Executing? then Some(me.job) else None)])
    case StartCli(c, id, row) =>
      s.(clis := s.clis[c := Cli(id, row, false, true)],
         jobs := s.jobs[id := Job(CliRun(c), None, [CREATED], [], [])])
    case OfferCli(c, stored) =>
      var me := s.clis[c];
      var job := s.jobs[me.job];
      var t := s.(clis := s.clis[c := me.(offered := true)]);
      if stored then
        t.(jobs := s.jobs[me.job := job.(row := Some(me.row), persisted := job.persisted + [me.row.status])])
      else t
    case AdvanceCli(c, next) =>
      var me := s.clis[c];
      var job := s.jobs[me.job];
      s.(clis := s.clis[c := me.(row := me.row.(status := next), offered := false)],
         jobs := s.jobs[me.job := job.(given := job.given + [next])])
    case KillCli(c) =>
      s.(clis := s.clis[c := s.clis[c].(alive := false)])
  }

  ghost function Perform(s: State, step: Step): State {
    if Enabled(s, step) then Apply(s, step) else s
  }

  /** The state after a run; a step that is not enabled does nothing. */
  ghost function After(steps: seq<Step>): State {
    if steps == [] then Init else Perform(After(steps[..|steps| - 1]), steps[|steps| - 1])
  }

  // ---------- the invariant ----------

  /** `w` is running `j`, or died running it. */
  predicate Holds(s: State, w: ProcId, j: JobId) {
    w in s.workers &&
    ((s.workers[w].Executing? && s.workers[w].job == j) || s.workers[w] == Stopped(Some(j)))
  }

  /** The history of a job: given statuses form a valid path, the row saw a subsequence
      of them and shows the last one it saw. */
  predicate HistoryOk(job: Job) {
    job.given != [] && ValidPath(job.given) && Subsequence(job.persisted, job.given) &&
    (job.row.Some? <==> job.persisted != []) &&
    (job.row.Some? ==> job.persisted[|job.persisted| - 1] == job.row.value.status)
  }

  /** An enqueued job is waiting with no claimer, or has exactly one claimer, who holds
      it exactly while its row says RUNNING. */
  predicate ApiJobOk(s: State, j: JobId, job: Job) {
    (job.row.Some? ==> job.given == job.persisted) &&
    (if job.claimers == [] then job.given == [QUEUED]
     else |job.claimers| == 1 && job.row.Some? &&
          job.row.value.status in {RUNNING, SUCCEEDED, FAILED} &&
          (job.row.value.status == RUNNING <==> Holds(s, job.claimers[0], j)))
  }

  /** A CLI job belongs to its run alone and never looks claimable. */
  predicate CliJobOk(s: State, j: JobId, job: Job, c: ProcId) {
    job.claimers == [] && c in s.clis && s.clis[c].job == j && job.given != [] &&
    s.clis[c].row.status == job.given[|job.given| - 1] &&
    s.clis[c].row.status in {CREATED, RUNNING, SUCCEEDED, FAILED} &&
    (job.row.Some? ==> job.row.value.status != QUEUED) &&
    (!s.clis[c].offered ==> Subsequence(job.persisted, job.given[..|job.given| - 1]))
  }

  predicate JobOk(s: State, j: JobId, job: Job) {
    HistoryOk(job) &&
    match job.origin
    case Api => ApiJobOk(s, j, job)
    case CliRun(c) => CliJobOk(s, j, job, c)
  }

  predicate WorkerOk(s: State, w: ProcId, me: Worker) {
    match me
    case Idle(_, _) => true
    case Selected(_, _, j) => j in s.jobs && s.jobs[j].origin.Api?
    case Executing(_, _, j) => j in s.jobs && s.jobs[j].origin.Api? && s.jobs[j].claimers == [w]
    case Stopped(None) => true
    case Stopped(Some(j)) => j in s.jobs && s.jobs[j].origin.Api? && s.jobs[j].claimers == [w]
  }

  predicate CliOk(s: State, c: ProcId, me: Cli) {
    me.job in s.jobs && s.jobs[me.job].origin == CliRun(c)
  }

  ghost predicate Inv(s: State) {
    (forall j :: j in s.jobs ==> JobOk(s, j, s.jobs[j])) &&
    (forall w :: w in s.workers ==> WorkerOk(s, w, s.workers[w])) &&
    (forall c :: c in s.clis ==> CliOk(s, c, s.clis[c]))
  }

  /** The one job a step writes, if any. */
  function Touched(s: State, step: Step): Option<JobId> {
    match step
    case Enqueue(id, _, _) => Some(id)
    case ConditionalUpdate(w) => if w in s.workers && s.workers[w].Selected? then Some(s.workers[w].job) else None
    case Finalize(w, _) => if w in s.workers && s.workers[w].Executing? then Some(s.workers[w].job) else None
    case StartCli(_, id, _) => Some(id)
    case OfferCli(c, _) => if c in s.clis then Some(s.clis[c].job) else None
    case AdvanceCli(c, _) => if c in s.clis then Some(s.clis[c].job) else None
    case _ => None
  }

  /** A step changes what a process holds only for the job it touches. */
  lemma HoldsKept(s: State, step: Step, w: ProcId, j: JobId)
    requires Inv(s) && Enabled(s, step) && Touched(s, step) != Some(j)
    ensures Holds(Apply(s, step), w, j) <==> Holds(s, w, j)
  {}

  lemma OtherJobsKept(s: State, step: Step, j: JobId)
    requires Inv(s) && Enabled(s, step) && j in s.jobs && Touched(s, step) != Some(j)
    ensures j in Apply(s, step).jobs && Apply(s, step).jobs[j] == s.jobs[j]
    ensures JobOk(Apply(s, step), j, s.jobs[j])
  {
    var job := s.jobs[j];
    assert JobOk(s, j, job);
    match job.origin {
      case Api =>
        if job.claimers != [] { HoldsKept(s, step, job.claimers[0], j); }
      case CliRun(c) =>
        assert CliOk(s, c, s.clis[c]);
    }
  }

  /** A worker's write extends a fully stored history by one legal status. */
  lemma SetStatusHistory(job: Job, x: Status)
    requires HistoryOk(job) && job.row.Some? && job.given == job.persisted
    requires CanTransition(job.row.value.status, x)
    ensures var job' := SetStatus(job, x);
            HistoryOk(job') && job'.given == job'.persisted && job'.row.Some? && job'.row.value.status == x
  {
    SubsequenceGrows(job.persisted, job.given, x);
  }

  lemma ClaimedJobOk(s: State, w: ProcId, j: JobId)
    requires Inv(s) && Enabled(s, ConditionalUpdate(w)) && s.workers[w].job == j
    ensures var t := Apply(s, ConditionalUpdate(w)); j in t.jobs && JobOk(t, j, t.jobs[j])
  {
    var job := s.jobs[j];
    assert WorkerOk(s, w, s.workers[w]) && JobOk(s, j, job);
    if UpdateHits(s, j) { SetStatusHistory(job, RUNNING); }
  }

  lemma FinalizedJobOk(s: State, w: ProcId, verdict: Status, j: JobId)
    requires Inv(s) && Enabled(s, Finalize(w, verdict)) && s.workers[w].job == j
    ensures s.jobs[j].claimers == [w] && s.jobs[j].row.Some? && s.jobs[j].row.value.status == RUNNING
    ensures var t := Apply(s, Finalize(w, verdict)); j in t.jobs && JobOk(t, j, t.jobs[j])
  {
    var job := s.jobs[j];
    assert WorkerOk(s, w, s.workers[w]) && JobOk(s, j, job);
    assert Holds(s, w, j);
    SetStatusHistory(job, verdict);
  }

  lemma OfferedJobOk(s: State, c: ProcId, stored: bool, j: JobId)
    requires Inv(s) && Enabled(s, OfferCli(c, stored)) && s.clis[c].job == j
    ensures var t := Apply(s, OfferCli(c, stored)); j in t.jobs && JobOk(t, j, t.jobs[j])
  {
    var job := s.jobs[j];
    assert CliOk(s, c, s.clis[c]) && JobOk(s, j, job);
    var n := |job.given| - 1;
    SubsequenceGrows(job.persisted, job.given[..n], job.given[n]);
    assert job.given[..n] + [job.given[n]] == job.given;
  }

  lemma AdvancedJobOk(s: State, c: ProcId, next: Status, j: JobId)
    requires Inv(s) && Enabled(s, AdvanceCli(c, next)) && s.clis[c].job == j
    ensures var t := Apply(s, AdvanceCli(c, next)); j in t.jobs && JobOk(t, j, t.jobs[j])
  {
    var job := s.jobs[j];
    assert CliOk(s, c, s.clis[c]) && JobOk(s, j, job);
    SubsequenceGrows(job.persisted, job.given, next);
    assert (job.given + [next])[..|job.given|] == job.given;
  }

  lemma TouchedJobKept(s: State, step: Step, j: JobId)
    requires Inv(s) && Enabled(s, step) && Touched(s, step) == Some(j)
    ensures j in Apply(s, step).jobs && JobOk(Apply(s, step), j, Apply(s, step).jobs[j])
  {
    match step {
      case Enqueue(_, _, _) => SubsequenceRefl([QUEUED]);
      case StartCli(_, _, _) =>
      case ConditionalUpdate(w) => ClaimedJobOk(s, w, j);
      case Finalize(w, verdict) => FinalizedJobOk(s, w, verdict, j);
      case OfferCli(c, stored) => OfferedJobOk(s, c, stored, j);
      case AdvanceCli(c, next) => AdvancedJobOk(s, c, next, j);
    }
  }

  lemma OriginKept(s: State, step: Step, j: JobId)
    requires Enabled(s, step) && j in s.jobs
    ensures j in Apply(s, step).jobs && Apply(s, step).jobs[j].origin == s.jobs[j].origin
    ensures Apply(s, step).jobs[j].claimers == s.jobs[j].claimers ||
      (step.ConditionalUpdate? && Touched(s, step) == Some(j) && UpdateHits(s, j) &&
       Apply(s, step).jobs[j].claimers == s.jobs[j].claimers + [step.w])
  {}

  lemma WorkerKept(s: State, step: Step, w: ProcId)
    requires Inv(s) && Enabled(s, step)
    requires w in s.workers && w in Apply(s, step).workers && Apply(s, step).workers[w] == s.workers[w]
    ensures WorkerOk(Apply(s, step), w, s.workers[w])
  {
    var me := s.workers[w];
    assert WorkerOk(s, w, me);
    var held := if me.Selected? || me.Executing? then Some(me.job) else if me.Stopped? then me.abandoned else None;
    if held.Some? {
      OriginKept(s, step, held.value);
      assert JobOk(s, held.value, s.jobs[held.value]);
    }
  }

  lemma ActingWorkerOk(s: State, step: Step, w: ProcId)
    requires Inv(s) && Enabled(s, step) && w in Apply(s, step).workers
    requires w !in s.workers || Apply(s, step).workers[w] != s.workers[w]
    ensures WorkerOk(Apply(s, step), w, Apply(s, step).workers[w])
  {
    if w in s.workers {
      var me := s.workers[w];
      assert WorkerOk(s, w, me);
      if me.Selected? || me.Executing? { assert JobOk(s, me.job, s.jobs[me.job]); }
    }
    if step.Select? && step.pick.Some? { assert JobOk(s, step.pick.value, s.jobs[step.pick.value]); }
  }

  lemma CliKept(s: State, step: Step, c: ProcId)
    requires Inv(s) && Enabled(s, step) && c in Apply(s, step).clis
    ensures CliOk(Apply(s, step), c, Apply(s, step).clis[c])
  {
    if c in s.clis {
      assert CliOk(s, c, s.clis[c]);
      OriginKept(s, step, s.clis[c].job);
    }
  }

  lemma InvKept(s: State, step: Step)
    requires Inv(s)
    ensures Inv(Perform(s, step))
  {
    if Enabled(s, step) {
      var t := Apply(s, step);
      forall j | j in t.jobs ensures JobOk(t, j, t.jobs[j]) {
        if Touched(s, step) == Some(j) { TouchedJobKept(s, step, j); } else { OtherJobsKept(s, step, j); }
      }
      forall w | w in t.workers ensures WorkerOk(t, w, t.workers[w]) {
        if w in s.workers && t.workers[w] == s.workers[w] { WorkerKept(s, step, w); }
        else { ActingWorkerOk(s, step, w); }
      }
      forall c | c in t.clis ensures CliOk(t, c, t.clis[c]) { CliKept(s, step, c); }
    }
  }

  /** The invariant holds after every run. */
  lemma {:induction false} Reachable(steps: seq<Step>)
    ensures Inv(After(steps))
  {
    if steps != [] {
      Reachable(steps[..|steps| - 1]);
      InvKept(After(steps[..|steps| - 1]), steps[|steps| - 1]);
    }
  }

  // ---------- workers keep to their own model ----------

  /** The job a worker selected or executes has a row of the worker's model. */
  ghost predicate ModelsOk(s: State) {
    forall w :: w in s.workers && (s.workers[w].Selected? || s.workers[w].Executing?) ==>
      s.workers[w].job in s.jobs && s.jobs[s.workers[w].job].row.Some? &&
      s.jobs[s.workers[w].job].row.value.model == s.workers[w].model
  }

  /** The row of an enqueued job keeps its model. */
  lemma RowModelKept(s: State, step: Step, j: JobId)
    requires Inv(s) && Enabled(s, step) && j in s.jobs && s.jobs[j].origin.Api? && s.jobs[j].row.Some?
    ensures var t := Apply(s, step);
      j in t.jobs && t.jobs[j].row.Some? && t.jobs[j].row.value.model == s.jobs[j].row.value.model
  {
    if step.OfferCli? { assert CliOk(s, step.c, s.clis[step.c]); }
  }

  lemma ModelsKept(s: State, step: Step)
    requires Inv(s) && ModelsOk(s) && Enabled(s, step)
    ensures ModelsOk(Apply(s, step))
  {
    var t := Apply(s, step);
    if step.Select? && step.pick.Some? { FirstMeans(s, s.workers[step.w].model, step.pick.value); }
    forall w | w in t.workers && (t.workers[w].Selected? || t.workers[w].Executing?)
      ensures t.workers[w].job in t.jobs && t.jobs[t.workers[w].job].row.Some?
      ensures t.jobs[t.workers[w].job].row.value.model == t.workers[w].model
    {
      if !(step.Select? && step.w == w) {
        assert WorkerOk(s, w, s.workers[w]);
        RowModelKept(s, step, s.workers[w].job);
      }
    }
  }

  /** After every run, the job a worker holds or is about to claim is of its own model. */
  lemma {:induction false} OwnModelOnly(steps: seq<Step>)
    ensures ModelsOk(After(steps))
    ensures forall w :: w in After(steps).workers && After(steps).workers[w].Executing? ==>
      After(steps).workers[w].job in After(steps).jobs && After(steps).jobs[After(steps).workers[w].job].row.Some? &&
      After(steps).jobs[After(steps).workers[w].job].row.value.model == After(steps).workers[w].model
  {
    if steps != [] {
      var before := steps[..|steps| - 1];
      OwnModelOnly(before);
      Reachable(before);
      if Enabled(After(before), steps[|steps| - 1]) { ModelsKept(After(before), steps[|steps| - 1]); }
    }
  }

  // ---------- main results, over every run ----------

  /** After every run, a stored enqueued job was claimed at most once; it is QUEUED
      exactly while unclaimed; and a worker holds it exactly when it is the job's one
      claimer and the row says RUNNING. So a RUNNING claimed row has exactly one owner. */
  lemma OneOwner(steps: seq<Step>, j: JobId)
    requires j in After(steps).jobs && After(steps).jobs[j].origin.Api? && After(steps).jobs[j].row.Some?
    ensures var s := After(steps);
      var job := s.jobs[j];
      |job.claimers| <= 1 &&
      (job.row.value.status == QUEUED <==> job.claimers == []) &&
      (forall w :: Holds(s, w, j) <==> job.claimers == [w] && job.row.value.status == RUNNING)
  {
    var s := After(steps);
    Reachable(steps);
    assert JobOk(s, j, s.jobs[j]);
    if s.jobs[j].claimers == [] {
      assert s.jobs[j].given == [QUEUED];
    }
    forall w | Holds(s, w, j) ensures s.jobs[j].claimers == [w] {
      assert WorkerOk(s, w, s.workers[w]);
    }
  }

  /** The finalize UPDATE carries no status guard and needs none: whenever it runs, the
      row is RUNNING, this worker is its one claimer, no other process can hold it, and
      no CLI run ever writes it. */
  lemma FinalizeNeedsNoGuard(steps: seq<Step>, w: ProcId, verdict: Status)
    requires Enabled(After(steps), Finalize(w, verdict))
    ensures var s := After(steps);
      var j := s.workers[w].job;
      s.jobs[j].origin.Api? && s.jobs[j].row.Some? && s.jobs[j].row.value.status == RUNNING &&
      s.jobs[j].claimers == [w] &&
      (forall v :: Holds(s, v, j) ==> v == w) &&
      (forall c :: c in s.clis ==> s.clis[c].job != j)
  {
    var s := After(steps);
    var j := s.workers[w].job;
    Reachable(steps);
    FinalizedJobOk(s, w, verdict, j);
    assert WorkerOk(s, w, s.workers[w]);
    forall v | Holds(s, v, j) ensures v == w { assert WorkerOk(s, v, s.workers[v]); }
    forall c | c in s.clis ensures s.clis[c].job != j { assert CliOk(s, c, s.clis[c]); }
  }

  /** Every status a job was ever given, by the API, a worker or a CLI run, forms a path
      of VALID_TRANSITIONS; the row went through a subsequence of it (best-effort writes
      may be lost) and shows its last entry. Rows that workers drive lose nothing. */
  lemma HistoriesAreValid(steps: seq<Step>, j: JobId)
    requires j in After(steps).jobs
    ensures var job := After(steps).jobs[j];
      ValidPath(job.given) && Subsequence(job.persisted, job.given) &&
      (job.row.Some? <==> job.persisted != []) &&
      (job.row.Some? ==> job.persisted[|job.persisted| - 1] == job.row.value.status) &&
      (job.row.Some? && job.origin.Api? ==> job.persisted == job.given)
  {
    Reachable(steps);
    assert JobOk(After(steps), j, After(steps).jobs[j]);
  }

  lemma {:induction false} SubsequenceMember(a: seq<Status>, b: seq<Status>, i: nat) returns (k: nat)
    requires Subsequence(a, b) && i < |a|
    ensures k < |b| && b[k] == a[i]
  {
    if Subsequence(a, b[..|b| - 1]) {
      k := SubsequenceMember(a, b[..|b| - 1], i);
    } else if i == |a| - 1 {
      k := |b| - 1;
    } else {
      k := SubsequenceMember(a[..|a| - 1], b[..|b| - 1], i);
    }
  }

  /** A CLI run whose row already shows SUCCEEDED has nothing left to offer. */
  lemma SucceededIsOffered(s: State, c: ProcId)
    requires Inv(s) && c in s.clis
    requires s.clis[c].job in s.jobs && s.jobs[s.clis[c].job].row.Some?
    requires s.jobs[s.clis[c].job].row.value.status == SUCCEEDED
    ensures s.clis[c].offered && s.clis[c].row.status == SUCCEEDED
  {
    var job := s.jobs[s.clis[c].job];
    assert CliOk(s, c, s.clis[c]) && JobOk(s, s.clis[c].job, job);
    var last := |job.persisted| - 1;
    var n := |job.given| - 1;
    if !s.clis[c].offered {
      var k := SubsequenceMember(job.persisted, job.given[..n], last);
      SucceededIsLast(job.given, k);
    } else {
      var k := SubsequenceMember(job.persisted, job.given, last);
      SucceededIsLast(job.given, k);
    }
  }

  lemma OfferKeepsSettled(s: State, c: ProcId, stored: bool, j: JobId)
    requires Inv(s) && Enabled(s, OfferCli(c, stored)) && s.clis[c].job == j && s.jobs[j].row.Some?
    ensures s.jobs[j].row.value.status != SUCCEEDED && s.clis[c].row.status != QUEUED
  {
    assert CliOk(s, c, s.clis[c]) && JobOk(s, j, s.jobs[j]);
    if s.jobs[j].row.value.status == SUCCEEDED { SucceededIsOffered(s, c); }
  }

  /** The only three ways a step rewrites the status of a stored row. */
  lemma RowAfter(s: State, step: Step, j: JobId)
    requires Enabled(s, step) && j in s.jobs && s.jobs[j].row.Some?
    ensures var t := Apply(s, step);
      j in t.jobs && t.jobs[j].row.Some? &&
      (t.jobs[j].row == s.jobs[j].row ||
       (step.ConditionalUpdate? && UpdateHits(s, j) && t.jobs[j].row.value.status == RUNNING) ||
       (step.Finalize? && s.workers[step.w].job == j && t.jobs[j].row.value.status == step.verdict) ||
       (step.OfferCli? && s.clis[step.c].job == j && t.jobs[j].row.value.status == s.clis[step.c].row.status))
  {}

  lemma StepKeepsSettled(s: State, step: Step, j: JobId)
    requires Inv(s) && j in s.jobs && s.jobs[j].row.Some?
    ensures var t := Perform(s, step);
      j in t.jobs && t.jobs[j].row.Some? &&
      (s.jobs[j].row.value.status != QUEUED ==> t.jobs[j].row.value.status != QUEUED) &&
      (s.jobs[j].row.value.status == SUCCEEDED ==> t.jobs[j].row.value.status == SUCCEEDED)
  {
    if Enabled(s, step) {
      RowAfter(s, step, j);
      if step.Finalize? && s.workers[step.w].job == j { FinalizedJobOk(s, step.w, step.verdict, j); }
      if step.OfferCli? && s.clis[step.c].job == j { OfferKeepsSettled(s, step.c, step.stored, j); }
    }
  }

  lemma AfterConcat(steps: seq<Step>, step: Step)
    ensures After(steps + [step]) == Perform(After(steps), step)
  {
    assert (steps + [step])[..|steps|] == steps;
  }

  /** However a run goes on, a stored row is never lost, a row that left QUEUED never
      returns to it, and a row that reached SUCCEEDED stays there. */
  lemma {:induction false} SettledForever(steps: seq<Step>, more: seq<Step>, j: JobId)
    requires j in After(steps).jobs && After(steps).jobs[j].row.Some?
    ensures var s, t := After(steps), After(steps + more);
      j in t.jobs && t.jobs[j].row.Some? &&
      (s.jobs[j].row.value.status != QUEUED ==> t.jobs[j].row.value.status != QUEUED) &&
      (s.jobs[j].row.value.status == SUCCEEDED ==> t.jobs[j].row.value.status == SUCCEEDED)
  {
    if more == [] {
      assert steps + more == steps;
    } else {
      var n := |more| - 1;
      SettledForever(steps, more[..n], j);
      Reachable(steps + more[..n]);
      AfterConcat(steps + more[..n], more[n]);
      assert steps + more == steps + more[..n] + [more[n]];
      StepKeepsSettled(After(steps + more[..n]), more[n], j);
    }
  }
}
