/**
 What becomes of jobs in the end (workers/autodl_inference_worker/worker.py, lines 126-261;
 src/robot_dh/inference/runner.py, lines 143-225): whatever happened so far, every waiting
 job can still be served and every live CLI run can still succeed, and what a dead process
 left behind is never touched again.
 */
module JobProgress {
  import opened Wrappers
  import opened JobState
  import opened JobQueue

  ghost predicate Shows(s: State, j: JobId, x: Status) {
    j in s.jobs && s.jobs[j].row.Some? && s.jobs[j].row.value.status == x
  }

  // ---------- a waiting job can be served ----------

  function Waiters(s: State, model: string): set<JobId> { set j | j in s.jobs && Queued(s, model, j) }

  /** Some waiting row comes first. */
  lemma {:induction false} FirstExists(s: State, model: string, js: set<JobId>, j: JobId) returns (first: JobId)
    requires j in js && forall k :: k in js ==> Queued(s, model, k)
    ensures first in js
    ensures forall k :: k in js ==>
      Queued(s, model, k) && Queued(s, model, first) && !Before(s.jobs[k].row.value, s.jobs[first].row.value)
    decreases js
  {
    if k :| k in js && Before(s.jobs[k].row.value, s.jobs[j].row.value) {
      first := FirstExists(s, model, js - {j}, k);
      assert !Before(s.jobs[k].row.value, s.jobs[first].row.value);
    } else {
      first := j;
    }
  }

  /** An identifier no process has. */
  lemma {:induction false} FreshProc(used: set<ProcId>) returns (w: ProcId)
    ensures forall v :: v in used ==> v < w
    decreases used
  {
    w := 0;
    if v :| v in used {
      w := FreshProc(used - {v});
      assert forall u :: u in used ==> u == v || u in used - {v};
      if w <= v { w := v + 1; }
    }
  }

  /** A new worker's whole life when one job is all it may run. */
  ghost function Service(w: ProcId, model: string, j: JobId, verdict: Status): seq<Step> {
    [StartWorker(w, model, 1), Select(w, Some(j)), ConditionalUpdate(w), Finalize(w, verdict)]
  }

  /** Undisturbed, it takes the first waiting job through to its verdict and touches no
      other job. */
  lemma ServiceWorks(steps: seq<Step>, w: ProcId, model: string, j: JobId, verdict: Status)
    requires IsFirst(After(steps), model, j) && w !in After(steps).workers && verdict in {SUCCEEDED, FAILED}
    ensures var s, t := After(steps), After(steps + Service(w, model, j, verdict));
      Shows(t, j, verdict) && t.jobs.Keys == s.jobs.Keys && forall k :: k in s.jobs && k != j ==> t.jobs[k] == s.jobs[k]
  {
    var s := After(steps);
    var s1 := Perform(s, StartWorker(w, model, 1));
    var s2 := Perform(s1, Select(w, Some(j)));
    var s3 := Perform(s2, ConditionalUpdate(w));
    assert s1.jobs == s.jobs && s1.workers[w] == Idle(model, 1);
    assert IsFirst(s1, model, j) by {
      forall k ensures Queued(s1, model, k) <==> Queued(s, model, k) {}
    }
    assert s2.jobs == s.jobs && s2.workers[w] == Selected(model, 1, j);
    assert s3.workers[w] == Executing(model, 1, j) && j in s3.jobs && s3.jobs[j].row.Some?;
    FourSteps(steps, StartWorker(w, model, 1), Select(w, Some(j)), ConditionalUpdate(w), Finalize(w, verdict));
  }

  lemma FourSteps(steps: seq<Step>, a: Step, b: Step, c: Step, d: Step)
    ensures After(steps + [a, b, c, d]) == Perform(Perform(Perform(Perform(After(steps), a), b), c), d)
  {
    AfterConcat(steps, a);
    AfterConcat(steps + [a], b);
    AfterConcat(steps + [a] + [b], c);
    AfterConcat(steps + [a] + [b] + [c], d);
    assert steps + [a, b, c, d] == steps + [a] + [b] + [c] + [d];
  }

  /** After every run, every job whose row is QUEUED can still reach either verdict, however
      many jobs precede it and whichever processes died. */
  lemma {:induction false} CanBeServed(steps: seq<Step>, j: JobId, verdict: Status) returns (more: seq<Step>)
    requires Shows(After(steps), j, QUEUED) && verdict in {SUCCEEDED, FAILED}
    ensures Shows(After(steps + more), j, verdict)
    decreases |Waiters(After(steps), After(steps).jobs[j].row.value.model)|
  {
    var s := After(steps);
    var model := s.jobs[j].row.value.model;
    var first := FirstExists(s, model, Waiters(s, model), j);
    forall k | Queued(s, model, k) ensures !Before(s.jobs[k].row.value, s.jobs[first].row.value) {
      assert k in Waiters(s, model);
    }
    var w := FreshProc(s.workers.Keys);
    var service := Service(w, model, first, verdict);
    ServiceWorks(steps, w, model, first, verdict);
    more := service;
    if first != j {
      FewerWait(s, After(steps + service), model, first);
      var rest := CanBeServed(steps + service, j, verdict);
      more := service + rest;
      assert steps + more == steps + service + rest;
    }
  }

  lemma FewerWait(s: State, t: State, model: string, first: JobId)
    requires Queued(s, model, first) && t.jobs.Keys == s.jobs.Keys && !Queued(t, model, first)
    requires forall k :: k in s.jobs && k != first ==> t.jobs[k] == s.jobs[k]
    ensures |Waiters(t, model)| < |Waiters(s, model)|
  {
    assert Waiters(t, model) == Waiters(s, model) - {first};
    assert first in Waiters(s, model);
  }

  // ---------- a live CLI run can succeed ----------

  /** What is left to do for a CLI run: offer its status, or go on to the next one. */
  function Left(me: Cli): nat {
    3 * (match me.row.status case SUCCEEDED => 0 case RUNNING => 1 case _ => 2) + (if me.offered then 0 else 1)
  }

  function Next(c: ProcId, me: Cli): Step {
    if !me.offered then OfferCli(c, true)
    else AdvanceCli(c, if me.row.status == CREATED then RUNNING else SUCCEEDED)
  }

  lemma NextWorks(s: State, c: ProcId)
    requires Inv(s) && c in s.clis && s.clis[c].alive && s.clis[c].row.status != FAILED && Left(s.clis[c]) > 0
    ensures Enabled(s, Next(c, s.clis[c]))
    ensures var me := s.clis[c];
      var t := Apply(s, Next(c, me));
      c in t.clis && t.clis[c].job == me.job && t.clis[c].alive && t.clis[c].row.status != FAILED &&
      Left(t.clis[c]) < Left(me) && (Left(t.clis[c]) == 0 ==> Shows(t, me.job, SUCCEEDED))
  {
    assert CliOk(s, c, s.clis[c]) && JobOk(s, s.clis[c].job, s.jobs[s.clis[c].job]);
  }

  /** After every run, a live CLI run that has not failed can still bring its row to
      SUCCEEDED, even if all its earlier writes were lost; only the loss of the last one is
      final. */
  lemma {:induction false} CliCanSucceed(steps: seq<Step>, c: ProcId) returns (more: seq<Step>)
    requires c in After(steps).clis && After(steps).clis[c].alive && After(steps).clis[c].row.status != FAILED
    requires !(After(steps).clis[c].offered && After(steps).clis[c].row.status == SUCCEEDED)
    ensures Shows(After(steps + more), After(steps).clis[c].job, SUCCEEDED)
    decreases Left(After(steps).clis[c])
  {
    var s := After(steps);
    var step := Next(c, s.clis[c]);
    Reachable(steps);
    NextWorks(s, c);
    AfterConcat(steps, step);
    more := [step];
    if Left(After(steps + [step]).clis[c]) > 0 {
      var rest := CliCanSucceed(steps + [step], c);
      more := [step] + rest;
      assert steps + more == steps + [step] + rest;
    }
  }

  // ---------- what dead processes leave behind ----------

  /** Its worker died running it, or its CLI run is dead. */
  predicate Orphaned(s: State, j: JobId) {
    j in s.jobs &&
    ((exists w :: w in s.workers && s.workers[w] == Stopped(Some(j))) ||
     (s.jobs[j].origin.CliRun? && s.jobs[j].origin.c in s.clis && !s.clis[s.jobs[j].origin.c].alive))
  }

  lemma StepKeepsOrphan(s: State, step: Step, j: JobId)
    requires Inv(s) && Orphaned(s, j)
    ensures Orphaned(Perform(s, step), j) && Perform(s, step).jobs[j] == s.jobs[j]
  {
    if Enabled(s, step) {
      DeadStayDead(s, step);
      if Touched(s, step) == Some(j) { OrphanUntouched(s, step, j); } else { OtherJobsKept(s, step, j); }
    }
  }

  lemma DeadStayDead(s: State, step: Step)
    requires Enabled(s, step)
    ensures var t := Apply(s, step);
      (forall w :: w in s.workers && s.workers[w].Stopped? ==> w in t.workers && t.workers[w] == s.workers[w]) &&
      (forall c :: c in s.clis && !s.clis[c].alive ==> c in t.clis && !t.clis[c].alive)
  {}

  lemma DeadWorkersJob(s: State, w: ProcId, j: JobId)
    requires Inv(s) && w in s.workers && s.workers[w] == Stopped(Some(j))
    ensures Shows(s, j, RUNNING) && s.jobs[j].origin.Api? && s.jobs[j].claimers == [w]
  {
    assert WorkerOk(s, w, s.workers[w]) && JobOk(s, j, s.jobs[j]) && Holds(s, w, j);
  }

  /** Only a conditional update that misses may still look at an orphan. */
  lemma OrphanUntouched(s: State, step: Step, j: JobId)
    requires Inv(s) && Orphaned(s, j) && Enabled(s, step) && Touched(s, step) == Some(j)
    ensures step.ConditionalUpdate? && !UpdateHits(s, j)
  {
    if step.ConditionalUpdate? || step.Finalize? { assert WorkerOk(s, step.w, s.workers[step.w]); }
    if step.OfferCli? || step.AdvanceCli? { assert CliOk(s, step.c, s.clis[step.c]); }
    if step.Finalize? { FinalizedJobOk(s, step.w, step.verdict, j); }
    if w :| w in s.workers && s.workers[w] == Stopped(Some(j)) { DeadWorkersJob(s, w, j); }
  }

  /** However a run goes on, the job of a dead process keeps its row and its history: there
      is no lease, no takeover and no write from beyond the grave. A row whose worker died
      running it says RUNNING for good. */
  lemma {:induction false} OrphansStay(steps: seq<Step>, more: seq<Step>, j: JobId)
    requires Orphaned(After(steps), j)
    ensures Orphaned(After(steps + more), j) && After(steps + more).jobs[j] == After(steps).jobs[j]
    ensures After(steps).jobs[j].origin.Api? ==> Shows(After(steps + more), j, RUNNING)
  {
    if more == [] {
      assert steps + more == steps;
      Reachable(steps);
      assert JobOk(After(steps), j, After(steps).jobs[j]);
      if w :| w in After(steps).workers && After(steps).workers[w] == Stopped(Some(j)) {
        DeadWorkersJob(After(steps), w, j);
      }
    } else {
      var n := |more| - 1;
      OrphansStay(steps, more[..n], j);
      Reachable(steps + more[..n]);
      AfterConcat(steps + more[..n], more[n]);
      assert steps + more == steps + more[..n] + [more[n]];
      StepKeepsOrphan(After(steps + more[..n]), more[n], j);
    }
  }
}
