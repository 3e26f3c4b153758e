/**
 One normalize attempt as the program runs it, on an output nobody else touches
 (src/robot_dh/etl/normalize.py, lines 605-672 and 797-906). Each call to the object
 store is shown to be a step of the attempt protocol of module Normalize.
 */
module NormalizeRun {
  import opened Wrappers
  import opened Normalize

  lemma RunSnoc(s: State, trace: seq<Step>, step: Step)
    ensures Run(s, trace + [step]) == Perform(Run(s, trace), step)
  {
    RunConcat(s, trace, [step]);
    assert [step][1..] == [];
    assert Run(Run(s, trace), [step]) == Run(Perform(Run(s, trace), step), []);
  }

  const ME := 0

  /** Where the attempt stands, told in terms of the protocol. */
  ghost predicate Follows(initial: Store, trace: seq<Step>, store: Store, resume: bool, force: bool, pc: Pc) {
    var s := Run(State(initial, map[]), trace);
    s.store == store && s.attempts == map[ME := Attempt(resume, force, pc)]
  }

  /** What the world does to an attempt: the manifest cannot be parsed, the outputs cannot
      be read back, the source holds these episodes, and the process dies after so many
      puts. */
  datatype World = World(manifestReadable: bool, outputsReadable: bool, src: seq<Bundle>, puts: nat, clock: int)

  /** A resume must happen: it is asked for, not overridden, and all three outputs are
      there and can be read back. */
  predicate Resumable(store: Store, world: World, resume: bool, force: bool) {
    resume && !force && Pose in store && Video in store && Episode in store && world.outputsReadable &&
    store[Pose].PoseFile? && store[Episode].EpisodeFile?
  }

  class OutputStore {
    var objects: Store

    constructor (objects: Store)
      ensures this.objects == objects
    {
      this.objects := objects;
    }

    /** _all_outputs_present: one exists() after the other, stopping at the first miss. */
    method AllPresent(ghost initial: Store, ghost trace: seq<Step>, resume: bool, force: bool)
      returns (present: bool, ghost trace': seq<Step>)
      requires Follows(initial, trace, objects, resume, force, Checking(OUTPUTS))
      ensures present <==> AllOutputsPresent(objects)
      ensures Follows(initial, trace', objects, resume, force, if present then Reading(OUTPUTS, map[]) else Loading)
    {
      trace' := trace;
      ghost var s := State(initial, map[]);
      RunSnoc(s, trace', TestOutput(ME, Pose));
      trace' := trace' + [TestOutput(ME, Pose)];
      if Pose !in objects { return false, trace'; }
      assert OUTPUTS - {Pose} == {Video, Episode};
      RunSnoc(s, trace', TestOutput(ME, Video));
      trace' := trace' + [TestOutput(ME, Video)];
      if Video !in objects { return false, trace'; }
      assert {Video, Episode} - {Video} == {Episode};
      RunSnoc(s, trace', TestOutput(ME, Episode));
      trace' := trace' + [TestOutput(ME, Episode)];
      if Episode !in objects { return false, trace'; }
      present := true;
    }

    /** _load_existing_metrics: download the outputs, count pose rows, add up durations. */
    method LoadExistingMetrics(world: World, ghost initial: Store, ghost trace: seq<Step>, resume: bool, force: bool)
      returns (found: Option<(nat, real)>, ghost trace': seq<Step>)
      requires AllOutputsPresent(objects)
      requires Follows(initial, trace, objects, resume, force, Reading(OUTPUTS, map[]))
      ensures found.None? ==> Follows(initial, trace', objects, resume, force, Loading)
      ensures found.Some? ==>
        Follows(initial, trace', objects, resume, force, Resuming(found.value.0, found.value.1)) &&
        objects[Pose].PoseFile? && objects[Episode].EpisodeFile? &&
        found.value == (|objects[Pose].rows|, DurationColumn(objects[Episode].episodes))
      ensures found.Some? <==> world.outputsReadable && objects[Pose].PoseFile? && objects[Episode].EpisodeFile?
    {
      trace' := trace;
      ghost var s := State(initial, map[]);
      RunSnoc(s, trace', ReadOutput(ME, Pose, world.outputsReadable));
      trace' := trace' + [ReadOutput(ME, Pose, world.outputsReadable)];
      if !world.outputsReadable { return None, trace'; }
      assert OUTPUTS - {Pose} == {Video, Episode};
      RunSnoc(s, trace', ReadOutput(ME, Video, true));
      trace' := trace' + [ReadOutput(ME, Video, true)];
      assert {Video, Episode} - {Video} == {Episode};
      RunSnoc(s, trace', ReadOutput(ME, Episode, true));
      trace' := trace' + [ReadOutput(ME, Episode, true)];
      assert {Episode} - {Episode} == {};
      RunSnoc(s, trace', Inspect(ME));
      trace' := trace' + [Inspect(ME)];
      if objects[Pose].PoseFile? && objects[Episode].EpisodeFile? {
        found := Some((|objects[Pose].rows|, DurationColumn(objects[Episode].episodes)));
      } else {
        found := None;
      }
    }

    /** upload_dir, in file order; stops when the process has no puts left. */
    method UploadAll(world: World, ghost initial: Store, ghost trace: seq<Step>, resume: bool, force: bool)
      returns (left: nat, died: bool, ghost trace': seq<Step>)
      requires Follows(initial, trace, objects, resume, force, Uploading(world.src, OUTPUTS))
      modifies this
      ensures died <==> world.puts < 3
      ensures !died ==> left == world.puts - 3
      ensures Follows(initial, trace', objects, resume, force, if died then Ended(DIED) else Uploading(world.src, {}))
      ensures !died ==> objects == Uploaded(old(objects), world)
    {
      trace' := trace;
      left, died := world.puts, false;
      ghost var s := State(initial, map[]);
      if left == 0 {
        trace' := Die(initial, trace', objects, resume, force, Uploading(world.src, OUTPUTS));
        return left, true, trace';
      }
      RunSnoc(s, trace', Upload(ME, Episode, world.clock));
      trace' := trace' + [Upload(ME, Episode, world.clock)];
      objects := objects[Episode := Output(world.src, Episode, world.clock)];
      left := left - 1;
      assert OUTPUTS - {Episode} == {Pose, Video};
      if left == 0 {
        trace' := Die(initial, trace', objects, resume, force, Uploading(world.src, {Pose, Video}));
        return left, true, trace';
      }
      RunSnoc(s, trace', Upload(ME, Pose, world.clock));
      trace' := trace' + [Upload(ME, Pose, world.clock)];
      objects := objects[Pose := Output(world.src, Pose, world.clock)];
      left := left - 1;
      assert {Pose, Video} - {Pose} == {Video};
      if left == 0 {
        trace' := Die(initial, trace', objects, resume, force, Uploading(world.src, {Video}));
        return left, true, trace';
      }
      RunSnoc(s, trace', Upload(ME, Video, world.clock));
      trace' := trace' + [Upload(ME, Video, world.clock)];
      objects := objects[Video := Output(world.src, Video, world.clock)];
      left := left - 1;
      assert {Video} - {Video} == {};
    }

    /** The branches of an attempt, as steps of the protocol. */
    method TakeBranch(world: World, resume: bool, force: bool)
      returns (outcome: Outcome, ghost trace: seq<Step>)
      modifies this
      ensures Run(State(old(objects), map[]), trace).store == objects
      ensures Run(State(old(objects), map[]), trace).attempts == map[ME := Attempt(resume, force, Ended(outcome))]
      ensures outcome == SKIPPED <==> !force && Manifest in old(objects) && world.manifestReadable
      ensures outcome == SKIPPED ==> objects == old(objects)
      ensures outcome == RESUMED <==>
        !(!force && Manifest in old(objects) && world.manifestReadable) &&
        Resumable(old(objects), world, resume, force) &&
        world.puts > 0
      ensures outcome == OK <==>
        !(!force && Manifest in old(objects) && world.manifestReadable) &&
        !Resumable(old(objects), world, resume, force) &&
        world.puts >= 4 && world.src != []
      ensures outcome == RESUMED ==>
        objects == old(objects)[Manifest := ManifestFile(|old(objects)[Pose].rows|, 1,
                                              DurationColumn(old(objects)[Episode].episodes), true)]
      ensures outcome == OK ==> objects == Uploaded(old(objects), world)[Manifest :=
        ManifestFile(SumSamples(world.src), |world.src|, SumDurations(world.src), false)]
    {
      ghost var initial := objects;
      ghost var s := State(initial, map[]);
      trace := [];
      RunSnoc(s, trace, Begin(ME, resume, force));
      trace := trace + [Begin(ME, resume, force)];
      RunSnoc(s, trace, TestManifest(ME, world.manifestReadable));
      trace := trace + [TestManifest(ME, world.manifestReadable)];
      if !force && Manifest in objects && world.manifestReadable { return SKIPPED, trace; }
      if resume && !force {
        var present;
        present, trace := AllPresent(initial, trace, resume, force);
        if present {
          var found;
          found, trace := LoadExistingMetrics(world, initial, trace, resume, force);
          if found.Some? {
            if world.puts == 0 {
              trace := Die(initial, trace, objects, resume, force, Resuming(found.value.0, found.value.1));
              return DIED, trace;
            }
            RunSnoc(s, trace, PutResumedManifest(ME));
            trace := trace + [PutResumedManifest(ME)];
            objects := objects[Manifest := ManifestFile(found.value.0, 1, found.value.1, true)];
            return RESUMED, trace;
          }
        }
      }
      outcome, trace := RunAfresh(world, initial, trace, resume, force);
    }

    /** normalize_dataset: skip, resume or run afresh, the manifest always last. The store
        it leaves is one the protocol reaches; it skips exactly when an unforced attempt
        can read a manifest; a completed attempt leaves the source's outputs and its
        totals, and a resumed one writes nothing but the manifest. */
    method NormalizeDataset(world: World, resume: bool, force: bool)
      returns (outcome: Outcome, ghost trace: seq<Step>)
      modifies this
      ensures Run(State(old(objects), map[]), trace).store == objects
      ensures Run(State(old(objects), map[]), trace).attempts == map[ME := Attempt(resume, force, Ended(outcome))]
      ensures outcome == SKIPPED <==> !force && Manifest in old(objects) && world.manifestReadable
      ensures outcome == SKIPPED ==> objects == old(objects)
      ensures outcome == RESUMED <==>
        !(!force && Manifest in old(objects) && world.manifestReadable) &&
        Resumable(old(objects), world, resume, force) &&
        world.puts > 0
      ensures outcome == OK <==>
        !(!force && Manifest in old(objects) && world.manifestReadable) &&
        !Resumable(old(objects), world, resume, force) &&
        world.puts >= 4 && world.src != []
      ensures outcome == RESUMED ==>
        objects == old(objects)[Manifest := ManifestFile(|old(objects)[Pose].rows|, 1,
                                              DurationColumn(old(objects)[Episode].episodes), true)]
      ensures outcome == OK ==> objects == Uploaded(old(objects), world)[Manifest :=
        ManifestFile(SumSamples(world.src), |world.src|, SumDurations(world.src), false)]
      ensures outcome == OK ==>
        objects[Pose].PoseFile? && |objects[Pose].rows| == SumSamples(world.src) &&
        forall e :: 0 <= e < |world.src| ==>
          var at, n := FirstRow(world.src, e), |world.src[e].poses|;
          at + n <= |objects[Pose].rows| && objects[Pose].rows[at..at + n] == world.src[e].poses
      ensures outcome == OK ==>
        objects[Episode].EpisodeFile? && |objects[Episode].episodes| == |world.src| &&
        forall e :: 0 <= e < |world.src| ==>
          objects[Episode].episodes[e].numSamples == |world.src[e].poses| &&
          objects[Episode].episodes[e].duration == Gaps(world.src[e].timestamps)
      ensures outcome == OK ==>
        objects[Video] == if |world.src| == 1 then VideoFile(world.src[0].frameCount, world.src[0].videoSec)
                          else VideoFile(SumSamples(world.src), SumDurations(world.src))
    {
      outcome, trace := TakeBranch(world, resume, force);
      OutputsMean(world.src);
    }

    method RunAfresh(world: World, ghost initial: Store, ghost trace: seq<Step>, resume: bool, force: bool)
      returns (outcome: Outcome, ghost trace': seq<Step>)
      requires Follows(initial, trace, objects, resume, force, Loading)
      modifies this
      ensures Follows(initial, trace', objects, resume, force, Ended(outcome))
      ensures outcome == OK <==> world.puts >= 4 && world.src != []
      ensures outcome == OK ==> objects == Uploaded(old(objects), world)[Manifest :=
        ManifestFile(SumSamples(world.src), |world.src|, SumDurations(world.src), false)]
      ensures outcome == OK || outcome == DIED
    {
      trace' := trace;
      ghost var s := State(initial, map[]);
      if world.src == [] {
        trace' := Die(initial, trace', objects, resume, force, Loading);
        return DIED, trace';
      }
      RunSnoc(s, trace', Load(ME, world.src));
      trace' := trace' + [Load(ME, world.src)];
      var left, died;
      left, died, trace' := UploadAll(world, initial, trace', resume, force);
      if died { return DIED, trace'; }
      outcome, trace' := Seal(world, left, initial, trace', resume, force);
    }

    /** Uploads returned; the manifest goes last. */
    method Seal(world: World, left: nat, ghost initial: Store, ghost trace: seq<Step>, resume: bool, force: bool)
      returns (outcome: Outcome, ghost trace': seq<Step>)
      requires Follows(initial, trace, objects, resume, force, Uploading(world.src, {}))
      modifies this
      ensures Follows(initial, trace', objects, resume, force, Ended(outcome))
      ensures outcome == if left == 0 then DIED else OK
      ensures objects == if left == 0 then old(objects) else
        old(objects)[Manifest := ManifestFile(SumSamples(world.src), |world.src|, SumDurations(world.src), false)]
    {
      trace' := trace + [UploadsReturned(ME)];
      RunSnoc(State(initial, map[]), trace, UploadsReturned(ME));
      if left == 0 {
        trace' := Die(initial, trace', objects, resume, force, Sealing(world.src));
        return DIED, trace';
      }
      RunSnoc(State(initial, map[]), trace', PutManifest(ME));
      trace' := trace' + [PutManifest(ME)];
      objects := objects[Manifest := ManifestFile(SumSamples(world.src), |world.src|, SumDurations(world.src), false)];
      outcome := OK;
    }
  }

  /** The store after all three uploads. */
  function Uploaded(store: Store, world: World): Store {
    store[Episode := Output(world.src, Episode, world.clock)]
         [Pose := Output(world.src, Pose, world.clock)]
         [Video := Output(world.src, Video, world.clock)]
  }

  /** Dying is a step of the protocol too. */
  lemma DieStep(initial: Store, trace: seq<Step>, store: Store, resume: bool, force: bool, pc: Pc)
    requires Follows(initial, trace, store, resume, force, pc) && !pc.Ended?
    ensures Follows(initial, trace + [Crash(ME)], store, resume, force, Ended(DIED))
  {
    RunSnoc(State(initial, map[]), trace, Crash(ME));
  }

  ghost function Die(initial: Store, trace: seq<Step>, store: Store, resume: bool, force: bool, pc: Pc)
    : (trace': seq<Step>)
    requires Follows(initial, trace, store, resume, force, pc) && !pc.Ended?
    ensures Follows(initial, trace', store, resume, force, Ended(DIED))
  {
    DieStep(initial, trace, store, resume, force, pc);
    trace + [Crash(ME)]
  }
}
