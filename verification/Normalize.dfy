/**
 Crash-recoverable normalize (src/robot_dh/etl/normalize.py): any number of attempts on
 one output interleave, each with its own resume/force flags, and each may die between
 two object-store calls. Objects are never deleted and every put is atomic.
 */
module Normalize {
  // ---------- tables ----------

  /** One raw episode: its pose rows, their timestamps, and its own video metadata. */
  datatype Bundle = Bundle(poses: seq<int>, timestamps: seq<real>, frameCount: nat, videoSec: real)

  function Duration(b: Bundle): real {
    if |b.timestamps| > 1 then b.timestamps[|b.timestamps| - 1] - b.timestamps[0] else 0.0
  }

  /** One row of episode_meta.parquet. */
  datatype EpisodeRow = EpisodeRow(numSamples: nat, duration: real)

  /** _build_pose_table_many: the bundles' rows, concatenated. */
  function PoseTable(src: seq<Bundle>): seq<int> {
    if src == [] then [] else PoseTable(src[..|src| - 1]) + src[|src| - 1].poses
  }

  /** _build_episode_meta_table_many: one row per bundle. */
  function EpisodeTable(src: seq<Bundle>): (r: seq<EpisodeRow>)
    ensures |r| == |src|
  {
    seq(|src|, i requires 0 <= i < |src| => EpisodeRow(|src[i].poses|, Duration(src[i])))
  }

  /** `sum(bundle.pose.shape[0] for ...)`. */
  function SumSamples(src: seq<Bundle>): nat {
    if src == [] then 0 else SumSamples(src[..|src| - 1]) + |src[|src| - 1].poses|
  }

  function SumDurations(src: seq<Bundle>): real {
    if src == [] then 0.0 else SumDurations(src[..|src| - 1]) + Duration(src[|src| - 1])
  }

  /** `ep_df["duration_sec"].sum()`. */
  function DurationColumn(rows: seq<EpisodeRow>): real {
    if rows == [] then 0.0 else DurationColumn(rows[..|rows| - 1]) + rows[|rows| - 1].duration
  }

  /** What a resumed attempt reads back from the outputs is what the fresh attempt that
      wrote them computed from the source. */
  lemma {:induction false} TablesRecount(src: seq<Bundle>)
    ensures |PoseTable(src)| == SumSamples(src)
    ensures DurationColumn(EpisodeTable(src)) == SumDurations(src)
  {
    if src != [] {
      TablesRecount(src[..|src| - 1]);
      assert EpisodeTable(src)[..|src| - 1] == EpisodeTable(src[..|src| - 1]);
    }
  }

  /** The time between consecutive timestamps, added up. */
  function Gaps(ts: seq<real>): real {
    if |ts| < 2 then 0.0 else Gaps(ts[..|ts| - 1]) + (ts[|ts| - 1] - ts[|ts| - 2])
  }

  /** An episode lasts as long as its gaps together. */
  lemma {:induction false} DurationIsGaps(b: Bundle)
    ensures Duration(b) == Gaps(b.timestamps)
    decreases |b.timestamps|
  {
    if |b.timestamps| > 1 { DurationIsGaps(b.(timestamps := b.timestamps[..|b.timestamps| - 1])); }
  }

  /** Where an episode's rows begin in the pose table. */
  function FirstRow(src: seq<Bundle>, e: nat): nat
    requires e <= |src|
  {
    SumSamples(src[..e])
  }

  /** Row offsets and totals, episode by episode. */
  lemma TotalsGrow(src: seq<Bundle>)
    ensures FirstRow(src, 0) == 0 && FirstRow(src, |src|) == SumSamples(src)
    ensures forall e :: 0 <= e < |src| ==> FirstRow(src, e + 1) == FirstRow(src, e) + |src[e].poses|
    ensures SumDurations([]) == 0.0
    ensures src != [] ==>
      SumDurations(src) == SumDurations(src[..|src| - 1]) + Gaps(src[|src| - 1].timestamps)
  {
    assert src[..|src|] == src;
    forall e | 0 <= e < |src| ensures FirstRow(src, e + 1) == FirstRow(src, e) + |src[e].poses| {
      assert src[..e + 1][..e] == src[..e];
    }
    if src != [] { DurationIsGaps(src[|src| - 1]); }
  }

  /** Row by row, the pose table holds the episodes' own rows, one episode after the other. */
  lemma {:induction false} PoseRowsOf(src: seq<Bundle>, e: nat)
    requires e < |src|
    ensures FirstRow(src, e) + |src[e].poses| <= |PoseTable(src)|
    ensures PoseTable(src)[FirstRow(src, e)..FirstRow(src, e) + |src[e].poses|] == src[e].poses
  {
    var n := |src| - 1;
    TablesRecount(src[..n]);
    if e < n {
      PoseRowsOf(src[..n], e);
      assert src[..n][..e] == src[..e];
      var table, lo, hi := PoseTable(src[..n]), FirstRow(src, e), FirstRow(src, e) + |src[e].poses|;
      assert (table + src[n].poses)[lo..hi] == table[lo..hi];
    }
  }

  lemma PoseRowAt(src: seq<Bundle>, e: nat, r: nat)
    requires e < |src| && r < |src[e].poses|
    ensures FirstRow(src, e) + r < |PoseTable(src)| && PoseTable(src)[FirstRow(src, e) + r] == src[e].poses[r]
  {
    PoseRowsOf(src, e);
    var table, at := PoseTable(src), FirstRow(src, e);
    assert table[at..at + |src[e].poses|][r] == table[at + r];
  }

  /** The outputs of a source, entry by entry. */
  lemma OutputsMean(src: seq<Bundle>)
    ensures |PoseTable(src)| == SumSamples(src)
    ensures forall e :: 0 <= e < |src| ==>
      FirstRow(src, e) + |src[e].poses| <= |PoseTable(src)| &&
      PoseTable(src)[FirstRow(src, e)..FirstRow(src, e) + |src[e].poses|] == src[e].poses
    ensures |EpisodeTable(src)| == |src|
    ensures forall e :: 0 <= e < |src| ==>
      EpisodeTable(src)[e].numSamples == |src[e].poses| && EpisodeTable(src)[e].duration == Gaps(src[e].timestamps)
  {
    TablesRecount(src);
    forall e | 0 <= e < |src|
      ensures FirstRow(src, e) + |src[e].poses| <= |PoseTable(src)|
      ensures PoseTable(src)[FirstRow(src, e)..FirstRow(src, e) + |src[e].poses|] == src[e].poses
      ensures EpisodeTable(src)[e].duration == Gaps(src[e].timestamps)
    {
      PoseRowsOf(src, e);
      DurationIsGaps(src[e]);
    }
  }

  // ---------- the object store ----------

  datatype Name = Pose | Video | Episode | Manifest

  /** File contents; `created` stands for the wall-clock column of episode_meta. */
  datatype Content =
    | PoseFile(rows: seq<int>)
    | VideoFile(frameCount: nat, duration: real)
    | EpisodeFile(episodes: seq<EpisodeRow>, created: int)
    | ManifestFile(numSamples: nat, numEpisodes: nat, durationSec: real, resumed: bool)

  type Store = map<Name, Content>

  const OUTPUTS: set<Name> := {Pose, Video, Episode}

  /** _all_outputs_present. */
  predicate AllOutputsPresent(store: Store) { OUTPUTS <= store.Keys }

  /** What a fresh attempt uploads under `name` when it has loaded `src`. */
  function Output(src: seq<Bundle>, name: Name, created: int): Content
    requires name in OUTPUTS
  {
    match name
    case Pose => PoseFile(PoseTable(src))
    case Video => if |src| == 1 then VideoFile(src[0].frameCount, src[0].videoSec)
                  else VideoFile(SumSamples(src), SumDurations(src))
    case Episode => EpisodeFile(EpisodeTable(src), created)
  }

  // ---------- attempts ----------

  datatype Pc =
    | Start                                   // before the manifest test
    | Checking(left: set<Name>)               // resume: exists() of each output, one by one
    | Reading(left: set<Name>, found: Store)  // resume: download_dir, one object at a time
    | Resuming(numSamples: nat, duration: real)
    | Loading                                 // fresh run: materialize and load the source
    | Uploading(src: seq<Bundle>, left: set<Name>)  // upload_dir, any order
    | Sealing(src: seq<Bundle>)               // all uploads returned; manifest not yet written
    | Ended(outcome: Outcome)

  datatype Outcome = OK | SKIPPED | RESUMED | DIED

  datatype Attempt = Attempt(resume: bool, force: bool, pc: Pc)

  datatype State = State(store: Store, attempts: map<int, Attempt>)

  /** A step of one attempt. `Read...` steps may fail; every step may instead be a crash. */
  datatype Step =
    | Begin(a: int, resume: bool, force: bool)
    | TestManifest(a: int, readable: bool)
    | TestOutput(a: int, name: Name)
    | ReadOutput(a: int, name: Name, works: bool)
    | Inspect(a: int)
    | PutResumedManifest(a: int)
    | Load(a: int, src: seq<Bundle>)
    | Upload(a: int, name: Name, created: int)
    | UploadsReturned(a: int)
    | PutManifest(a: int)
    | Crash(a: int)

  predicate At(s: State, a: int) { a in s.attempts }

  function Go(s: State, a: int, pc: Pc): State
    requires At(s, a)
  {
    s.(attempts := s.attempts[a := s.attempts[a].(pc := pc)])
  }

  /** After the manifest test: look for finished outputs, or start over. */
  function AfterTest(me: Attempt): Pc {
    if me.resume && !me.force then Checking(OUTPUTS) else Loading
  }

  ghost predicate Enabled(s: State, step: Step) {
    match step
    case Begin(a, _, _) => a !in s.attempts
    case TestManifest(a, _) => At(s, a) && s.attempts[a].pc.Start?
    case TestOutput(a, name) => At(s, a) && s.attempts[a].pc.Checking? && name in s.attempts[a].pc.left
    case ReadOutput(a, name, _) =>
      At(s, a) && s.attempts[a].pc.Reading? && name in s.attempts[a].pc.left && name in s.store
    case Inspect(a) => At(s, a) && s.attempts[a].pc.Reading? && s.attempts[a].pc.left == {}
    case PutResumedManifest(a) => At(s, a) && s.attempts[a].pc.Resuming?
    case Load(a, src) => At(s, a) && s.attempts[a].pc.Loading? && src != []
    case Upload(a, name, _) =>
      At(s, a) && s.attempts[a].pc.Uploading? && name in s.attempts[a].pc.left && name in OUTPUTS
    case UploadsReturned(a) => At(s, a) && s.attempts[a].pc.Uploading? && s.attempts[a].pc.left == {}
    case PutManifest(a) => At(s, a) && s.attempts[a].pc.Sealing?
    case Crash(a) => At(s, a) && !s.attempts[a].pc.Ended?
  }

  ghost function Apply(s: State, step: Step): State
    requires Enabled(s, step)
  {
    match step
    case Begin(a, resume, force) => s.(attempts := s.attempts[a := Attempt(resume, force, Start)])
    case TestManifest(a, readable) =>
      var me := s.attempts[a];
      if !me.force && Manifest in s.store && readable then Go(s, a, Ended(SKIPPED))
      else Go(s, a, AfterTest(me))
    case TestOutput(a, name) =>
      var left := s.attempts[a].pc.left - {name};
      if name !in s.store then Go(s, a, Loading)
      else Go(s, a, if left == {} then Reading(OUTPUTS, map[]) else Checking(left))
    case ReadOutput(a, name, works) =>
      var pc := s.attempts[a].pc;
      if works then Go(s, a, Reading(pc.left - {name}, pc.found[name := s.store[name]])) else Go(s, a, Loading)
    case Inspect(a) =>
      var found := s.attempts[a].pc.found;
      if Pose in found && Episode in found && found[Pose].PoseFile? && found[Episode].EpisodeFile? then
        Go(s, a, Resuming(|found[Pose].rows|, DurationColumn(found[Episode].episodes)))
      else Go(s, a, Loading)
    case PutResumedManifest(a) =>
      var pc := s.attempts[a].pc;
      Go(s, a, Ended(RESUMED)).(store := s.store[Manifest := ManifestFile(pc.numSamples, 1, pc.duration, true)])
    case Load(a, src) => Go(s, a, Uploading(src, OUTPUTS))
    case Upload(a, name, created) =>
      var pc := s.attempts[a].pc;
      Go(s, a, Uploading(pc.src, pc.left - {name})).(store := s.store[name := Output(pc.src, name, created)])
    case UploadsReturned(a) => Go(s, a, Sealing(s.attempts[a].pc.src))
    case PutManifest(a) =>
      var src := s.attempts[a].pc.src;
      Go(s, a, Ended(OK)).(store := s.store[Manifest :=
        ManifestFile(SumSamples(src), |src|, SumDurations(src), false)])
    case Crash(a) => Go(s, a, Ended(DIED))
  }

  ghost function Perform(s: State, step: Step): State {
    if Enabled(s, step) then Apply(s, step) else s
  }

  /** A run from `s`: any list of steps. A step that is not enabled does nothing. */
  ghost function Run(s: State, steps: seq<Step>): State
    decreases steps
  {
    if steps == [] then s else Run(Perform(s, steps[0]), steps[1..])
  }

  lemma {:induction false} RunConcat(s: State, p: seq<Step>, q: seq<Step>)
    ensures Run(s, p + q) == Run(Run(s, p), q)
    decreases p
  {
    if p == [] {
      assert p + q == q;
    } else {
      RunConcat(Perform(s, p[0]), p[1..], q);
      assert (p + q)[1..] == p[1..] + q;
    }
  }

  const Init := State(map[], map[])

  // ---------- the manifest is the commit record ----------

  /** What an attempt has already seen to, for the outputs it no longer has on its list. */
  ghost predicate Progress(store: Store, pc: Pc) {
    match pc
    case Checking(left) => OUTPUTS - left <= store.Keys
    case Reading(_, _) => OUTPUTS <= store.Keys
    case Resuming(_, _) => OUTPUTS <= store.Keys
    case Uploading(_, left) => OUTPUTS - left <= store.Keys
    case Sealing(_) => OUTPUTS <= store.Keys
    case _ => true
  }

  ghost predicate Committed(s: State) {
    (Manifest in s.store ==> AllOutputsPresent(s.store)) &&
    forall a :: a in s.attempts ==> Progress(s.store, s.attempts[a].pc)
  }

  lemma CommittedKept(s: State, step: Step)
    requires Committed(s)
    ensures Committed(Perform(s, step))
  {
    if Enabled(s, step) {
      var t := Apply(s, step);
      assert s.store.Keys <= t.store.Keys;
      forall a | a in t.attempts ensures Progress(t.store, t.attempts[a].pc) {
        if a in s.attempts { assert Progress(s.store, s.attempts[a].pc); }
      }
      if step.TestOutput? && s.attempts[step.a].pc.left - {step.name} == {} {
        assert s.attempts[step.a].pc.left == {step.name};
      }
      if Manifest in t.store && Manifest !in s.store { assert Progress(s.store, s.attempts[step.a].pc); }
    }
  }

  /** After every run of any attempts with any flags, forced ones and failing reads
      included, a manifest is there only if all three outputs are. */
  lemma {:induction false} ManifestImpliesOutputs(s: State, steps: seq<Step>)
    requires Committed(s)
    ensures Committed(Run(s, steps))
    ensures Manifest in Run(s, steps).store ==> AllOutputsPresent(Run(s, steps).store)
    decreases steps
  {
    if steps != [] {
      CommittedKept(s, steps[0]);
      ManifestImpliesOutputs(Perform(s, steps[0]), steps[1..]);
    }
  }

  // ---------- content, with a fixed source ----------

  /** `c` is what attempts on `src` put under `name`, up to the wall-clock column, and up
      to the episode count that a resumed manifest fixes at one. */
  predicate Faithful(src: seq<Bundle>, name: Name, c: Content) {
    match name
    case Pose => c == PoseFile(PoseTable(src))
    case Video => c == Output(src, Video, 0)
    case Episode => c.EpisodeFile? && c.episodes == EpisodeTable(src)
    case Manifest =>
      c.ManifestFile? && c.numSamples == SumSamples(src) && c.durationSec == SumDurations(src) &&
      c.numEpisodes == if c.resumed then 1 else |src|
  }

  predicate FaithfulStore(src: seq<Bundle>, store: Store) {
    forall name :: name in store ==> Faithful(src, name, store[name])
  }

  predicate FaithfulPc(src: seq<Bundle>, pc: Pc) {
    match pc
    case Reading(_, found) => FaithfulStore(src, found)
    case Resuming(n, d) => n == SumSamples(src) && d == SumDurations(src)
    case Uploading(loaded, _) => loaded == src
    case Sealing(loaded) => loaded == src
    case _ => true
  }

  ghost predicate AllFaithful(src: seq<Bundle>, s: State) {
    FaithfulStore(src, s.store) && forall a :: a in s.attempts ==> FaithfulPc(src, s.attempts[a].pc)
  }

  /** Every load of the run sees the same source. */
  predicate FixedSource(src: seq<Bundle>, steps: seq<Step>) {
    forall i :: 0 <= i < |steps| && steps[i].Load? ==> steps[i].src == src
  }

  lemma FaithfulKept(src: seq<Bundle>, s: State, step: Step)
    requires AllFaithful(src, s) && (step.Load? ==> step.src == src)
    ensures AllFaithful(src, Perform(s, step))
  {
    if Enabled(s, step) {
      var t := Apply(s, step);
      TablesRecount(src);
      if !step.Begin? { assert FaithfulPc(src, s.attempts[step.a].pc); }
      forall a | a in t.attempts ensures FaithfulPc(src, t.attempts[a].pc) {
        if a in s.attempts { assert FaithfulPc(src, s.attempts[a].pc); }
      }
    }
  }

  lemma {:induction false} FaithfulRun(src: seq<Bundle>, s: State, steps: seq<Step>)
    requires AllFaithful(src, s) && FixedSource(src, steps)
    ensures AllFaithful(src, Run(s, steps))
    decreases steps
  {
    if steps != [] {
      FaithfulKept(src, s, steps[0]);
      FaithfulRun(src, Perform(s, steps[0]), steps[1..]);
    }
  }

  /** With one fixed source, every history of crashes, retries, resumes and forced reruns
      that reaches a manifest leaves exactly the source's outputs, and the manifest, fresh
      or resumed, records the source's sample count and duration. */
  lemma CommittedContent(src: seq<Bundle>, steps: seq<Step>)
    requires FixedSource(src, steps) && Manifest in Run(Init, steps).store
    ensures var store := Run(Init, steps).store;
      AllOutputsPresent(store) &&
      store[Pose] == PoseFile(PoseTable(src)) && store[Video] == Output(src, Video, 0) &&
      store[Episode].EpisodeFile? && store[Episode].episodes == EpisodeTable(src) &&
      store[Manifest].ManifestFile? && store[Manifest].numSamples == SumSamples(src) &&
      store[Manifest].durationSec == SumDurations(src) &&
      store[Manifest].numEpisodes == (if store[Manifest].resumed then 1 else |src|)
    ensures var store := Run(Init, steps).store;
      |store[Pose].rows| == SumSamples(src) &&
      forall e :: 0 <= e < |src| ==>
        FirstRow(src, e) + |src[e].poses| <= |store[Pose].rows| &&
        store[Pose].rows[FirstRow(src, e)..FirstRow(src, e) + |src[e].poses|] == src[e].poses
    ensures var store := Run(Init, steps).store;
      store[Video] == if |src| == 1 then VideoFile(src[0].frameCount, src[0].videoSec)
                      else VideoFile(SumSamples(src), SumDurations(src))
    ensures var store := Run(Init, steps).store;
      |store[Episode].episodes| == |src| &&
      forall e :: 0 <= e < |src| ==>
        store[Episode].episodes[e].numSamples == |src[e].poses| &&
        store[Episode].episodes[e].duration == Gaps(src[e].timestamps)
  {
    ManifestImpliesOutputs(Init, steps);
    FaithfulRun(src, Init, steps);
    OutputsMean(src);
  }

  // ---------- once committed, quiet ----------

  /** Only non-forced attempts begin, and reading the manifest works. */
  predicate Polite(steps: seq<Step>) {
    forall i :: 0 <= i < |steps| ==>
      (steps[i].Begin? ==> !steps[i].force) && (steps[i].TestManifest? ==> steps[i].readable)
  }

  /** An unforced attempt that has not begun to work, or that skipped or died. */
  predicate Idle(me: Attempt) {
    (me.pc.Start? && !me.force) || (me.pc.Ended? && me.pc.outcome in {SKIPPED, DIED})
  }

  /** Attempts outside `known` are idle. */
  ghost predicate NewcomersIdle(s: State, known: set<int>) {
    forall a :: a in s.attempts && a !in known ==> Idle(s.attempts[a])
  }

  /** Once a manifest is there, every non-forced attempt that begins afterwards only
      skips or dies, whoever else is still writing. */
  lemma {:induction false} NewcomersStayIdle(s: State, steps: seq<Step>, known: set<int>)
    requires Manifest in s.store && Polite(steps) && NewcomersIdle(s, known)
    ensures Manifest in Run(s, steps).store && NewcomersIdle(Run(s, steps), known)
    decreases steps
  {
    if steps != [] { NewcomersStayIdle(Perform(s, steps[0]), steps[1..], known); }
  }

  lemma LaterAttemptsSkip(s: State, steps: seq<Step>)
    requires Manifest in s.store && Polite(steps)
    ensures Manifest in Run(s, steps).store
    ensures forall a :: a in Run(s, steps).attempts && a !in s.attempts ==> Idle(Run(s, steps).attempts[a])
  {
    NewcomersStayIdle(s, steps, s.attempts.Keys);
  }

  /** What is written from then on is written by an attempt that was already under way. */
  lemma WritersWereThere(s: State, steps: seq<Step>, i: nat)
    requires Manifest in s.store && Polite(steps) && i < |steps|
    requires steps[i].Upload? || steps[i].PutManifest? || steps[i].PutResumedManifest?
    requires Enabled(Run(s, steps[..i]), steps[i])
    ensures steps[i].a in s.attempts
  {
    LaterAttemptsSkip(s, steps[..i]);
  }

  /** The output is committed and nobody who could write is under way. */
  ghost predicate Quiet(s: State) {
    Manifest in s.store &&
    forall a :: a in s.attempts ==> s.attempts[a].pc.Ended? || (s.attempts[a].pc.Start? && !s.attempts[a].force)
  }

  /** With no writer left under way, nothing is written at all any more. */
  lemma {:induction false} LaterAttemptsWriteNothing(s: State, steps: seq<Step>)
    requires Quiet(s) && Polite(steps)
    ensures Quiet(Run(s, steps)) && Run(s, steps).store == s.store
    decreases steps
  {
    if steps != [] {
      LaterAttemptsWriteNothing(Perform(s, steps[0]), steps[1..]);
    }
  }
}
