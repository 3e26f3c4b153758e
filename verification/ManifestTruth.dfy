/**
 What a manifest may get wrong (src/robot_dh/etl/normalize.py): a forced rerun keeps the
 old manifest although line 642 says otherwise, and a resumed attempt fixes the number of
 episodes at one (line 440). The exact conditions under which the manifest is right anyway.
 */
module ManifestTruth {
  import opened Normalize

  // ---------- totals, when the source may change ----------

  /** The manifest's totals are those of the files beside it. */
  predicate TotalsMatch(store: Store) {
    Manifest in store && store[Manifest].ManifestFile? ==>
      (Pose in store && store[Pose].PoseFile? ==> store[Manifest].numSamples == |store[Pose].rows|) &&
      (Episode in store && store[Episode].EpisodeFile? ==>
        store[Manifest].durationSec == DurationColumn(store[Episode].episodes))
  }

  /** Whatever is in the store tells of `n` samples and `d` seconds. */
  predicate Tells(n: nat, d: real, store: Store) {
    (Pose in store && store[Pose].PoseFile? ==> |store[Pose].rows| == n) &&
    (Episode in store && store[Episode].EpisodeFile? ==> DurationColumn(store[Episode].episodes) == d) &&
    (Manifest in store && store[Manifest].ManifestFile? ==>
      store[Manifest].numSamples == n && store[Manifest].durationSec == d)
  }

  predicate HasTotals(n: nat, d: real, src: seq<Bundle>) { SumSamples(src) == n && SumDurations(src) == d }

  predicate PcTells(n: nat, d: real, pc: Pc) {
    match pc
    case Reading(_, found) => Tells(n, d, found)
    case Resuming(m, e) => m == n && e == d
    case Uploading(src, _) => HasTotals(n, d, src)
    case Sealing(src) => HasTotals(n, d, src)
    case _ => true
  }

  ghost predicate AllTell(n: nat, d: real, s: State) {
    Tells(n, d, s.store) && forall a :: a in s.attempts ==> PcTells(n, d, s.attempts[a].pc)
  }

  lemma StepTells(n: nat, d: real, s: State, step: Step)
    requires AllTell(n, d, s) && (step.Load? ==> HasTotals(n, d, step.src))
    ensures AllTell(n, d, Perform(s, step))
  {
    if Enabled(s, step) {
      var t := Apply(s, step);
      if !step.Begin? { assert PcTells(n, d, s.attempts[step.a].pc); }
      if step.Upload? { TablesRecount(s.attempts[step.a].pc.src); }
      forall a | a in t.attempts ensures PcTells(n, d, t.attempts[a].pc) {
        if a in s.attempts { assert PcTells(n, d, s.attempts[a].pc); }
      }
    }
  }

  lemma {:induction false} RunTells(n: nat, d: real, s: State, steps: seq<Step>)
    requires AllTell(n, d, s) && forall i :: 0 <= i < |steps| && steps[i].Load? ==> HasTotals(n, d, steps[i].src)
    ensures AllTell(n, d, Run(s, steps))
    decreases steps
  {
    if steps != [] {
      StepTells(n, d, s, steps[0]);
      RunTells(n, d, Perform(s, steps[0]), steps[1..]);
    }
  }

  predicate LoadsOnly(a: seq<Bundle>, b: seq<Bundle>, steps: seq<Step>) {
    forall i :: 0 <= i < |steps| && steps[i].Load? ==> steps[i].src == a || steps[i].src == b
  }

  /** The first steps of an attempt that neither resumes nor skips. */
  function Entry(a: int, force: bool, src: seq<Bundle>): seq<Step> {
    [Begin(a, false, force), TestManifest(a, true), Load(a, src)]
  }

  function AllUploads(a: int): seq<Step> {
    [Upload(a, Pose, 0), Upload(a, Video, 0), Upload(a, Episode, 0)]
  }

  function Ending(a: int): seq<Step> { [UploadsReturned(a), PutManifest(a)] }

  /** A fresh attempt that completes. */
  function FreshRun(a: int, src: seq<Bundle>): seq<Step> {
    Entry(a, false, src) + (AllUploads(a) + Ending(a))
  }

  /** A forced rerun that dies after its first upload: the old manifest is still there. */
  function BrokenRerun(a: int, src: seq<Bundle>, name: Name): seq<Step> {
    Entry(a, true, src) + [Upload(a, name, 0), Crash(a)]
  }

  lemma RunTwo(s: State, x: Step, y: Step)
    ensures Run(s, [x, y]) == Perform(Perform(s, x), y)
  {
    assert [x, y][1..] == [y] && [y][1..] == [];
    assert Run(Perform(s, x), [y]) == Run(Perform(Perform(s, x), y), []);
  }

  lemma RunThree(s: State, x: Step, y: Step, z: Step)
    ensures Run(s, [x, y, z]) == Perform(Perform(Perform(s, x), y), z)
  {
    assert [x, y, z][1..] == [y, z];
    RunTwo(Perform(s, x), y, z);
  }

  lemma EntryLoads(s: State, a: int, force: bool, src: seq<Bundle>)
    requires src != [] && a !in s.attempts && (force || Manifest !in s.store)
    ensures var t := Run(s, Entry(a, force, src));
      t.store == s.store && t.attempts == s.attempts[a := Attempt(false, force, Uploading(src, OUTPUTS))]
  {
    RunThree(s, Begin(a, false, force), TestManifest(a, true), Load(a, src));
    var s1 := Perform(s, Begin(a, false, force));
    var s2 := Perform(s1, TestManifest(a, true));
    assert s2 == s.(attempts := s.attempts[a := Attempt(false, force, Loading)]);
    var s3 := Perform(s2, Load(a, src));
    assert s3.attempts == s.attempts[a := Attempt(false, force, Uploading(src, OUTPUTS))];
  }

  lemma UploadsWrite(s: State, a: int, src: seq<Bundle>)
    requires a in s.attempts && s.attempts[a].pc == Uploading(src, OUTPUTS)
    ensures Run(s, AllUploads(a)).attempts == s.attempts[a := s.attempts[a].(pc := Uploading(src, {}))]
  {
    RunThree(s, Upload(a, Pose, 0), Upload(a, Video, 0), Upload(a, Episode, 0));
    var s1 := Perform(s, Upload(a, Pose, 0));
    assert s1.attempts == s.attempts[a := s.attempts[a].(pc := Uploading(src, {Video, Episode}))] by {
      assert OUTPUTS - {Pose} == {Video, Episode};
    }
    var s2 := Perform(s1, Upload(a, Video, 0));
    assert s2.attempts == s.attempts[a := s.attempts[a].(pc := Uploading(src, {Episode}))] by {
      assert {Video, Episode} - {Video} == {Episode};
    }
    var s3 := Perform(s2, Upload(a, Episode, 0));
    assert s3.attempts == s.attempts[a := s.attempts[a].(pc := Uploading(src, {}))] by {
      assert {Episode} - {Episode} == {};
    }
  }

  lemma EndingSeals(s: State, a: int, src: seq<Bundle>)
    requires a in s.attempts && s.attempts[a].pc == Uploading(src, {})
    ensures var t := Run(s, Ending(a));
      t.attempts.Keys == s.attempts.Keys &&
      t.store == s.store[Manifest := ManifestFile(SumSamples(src), |src|, SumDurations(src), false)]
  {
    RunTwo(s, UploadsReturned(a), PutManifest(a));
    var t := Perform(s, UploadsReturned(a));
    assert t.attempts == s.attempts[a := s.attempts[a].(pc := Sealing(src))];
  }

  lemma FreshRunWrites(src: seq<Bundle>)
    requires src != []
    ensures var s := Run(Init, FreshRun(0, src));
      Manifest in s.store && s.store[Manifest] == ManifestFile(SumSamples(src), |src|, SumDurations(src), false) &&
      s.attempts.Keys == {0}
  {
    EntryLoads(Init, 0, false, src);
    var s := Run(Init, Entry(0, false, src));
    UploadsWrite(s, 0, src);
    var t := Run(s, AllUploads(0));
    EndingSeals(t, 0, src);
    FreshRunParts(src);
  }

  lemma FreshRunParts(src: seq<Bundle>)
    ensures Run(Init, FreshRun(0, src)) == Run(Run(Run(Init, Entry(0, false, src)), AllUploads(0)), Ending(0))
  {
    RunConcat(Init, Entry(0, false, src), AllUploads(0) + Ending(0));
    RunConcat(Run(Init, Entry(0, false, src)), AllUploads(0), Ending(0));
  }

  lemma BrokenRerunWrites(s: State, src: seq<Bundle>, name: Name)
    requires src != [] && s.attempts.Keys == {0} && name in OUTPUTS
    ensures Run(s, BrokenRerun(1, src, name)).store == s.store[name := Output(src, name, 0)]
  {
    RunConcat(s, Entry(1, true, src), [Upload(1, name, 0), Crash(1)]);
    EntryLoads(s, 1, true, src);
    RunTwo(Run(s, Entry(1, true, src)), Upload(1, name, 0), Crash(1));
  }

  lemma RerunLoads(a: seq<Bundle>, b: seq<Bundle>, name: Name)
    ensures LoadsOnly(a, b, FreshRun(0, a) + BrokenRerun(1, b, name))
  {
    assert LoadsOnly(a, b, Entry(0, false, a)) && LoadsOnly(a, b, AllUploads(0) + Ending(0));
    assert LoadsOnly(a, b, Entry(1, true, b));
  }

  /** A forced rerun on a changed source, dying after one upload, leaves a manifest that
      disagrees with the file just uploaded. */
  lemma TotalsCanDiffer(a: seq<Bundle>, b: seq<Bundle>) returns (steps: seq<Step>)
    requires a != [] && b != [] && !HasTotals(SumSamples(a), SumDurations(a), b)
    ensures LoadsOnly(a, b, steps) && !TotalsMatch(Run(Init, steps).store)
  {
    var name := if SumSamples(a) != SumSamples(b) then Pose else Episode;
    var first, rerun := FreshRun(0, a), BrokenRerun(1, b, name);
    steps := first + rerun;
    RerunLoads(a, b, name);
    FreshRunWrites(a);
    BrokenRerunWrites(Run(Init, first), b, name);
    RunConcat(Init, first, rerun);
    TablesRecount(b);
  }

  /** When the source may change between two values, the manifest's totals can be trusted
      in every reachable state if and only if both values have the same sample count and
      the same duration: otherwise a forced rerun that dies leaves the old manifest
      beside new data. */
  lemma TotalsMatchIff(a: seq<Bundle>, b: seq<Bundle>)
    requires a != [] && b != []
    ensures SumSamples(a) == SumSamples(b) && SumDurations(a) == SumDurations(b) <==>
      (forall steps :: LoadsOnly(a, b, steps) ==> TotalsMatch(Run(Init, steps).store))
  {
    if HasTotals(SumSamples(a), SumDurations(a), b) {
      forall steps | LoadsOnly(a, b, steps) ensures TotalsMatch(Run(Init, steps).store) {
        RunTells(SumSamples(a), SumDurations(a), Init, steps);
      }
    } else {
      var steps := TotalsCanDiffer(a, b);
    }
  }

  // ---------- the number of episodes, with a fixed source ----------

  /** The manifest's number of episodes is the number of rows of the episode file. */
  predicate EpisodesMatch(store: Store) {
    Manifest in store && store[Manifest].ManifestFile? && Episode in store && store[Episode].EpisodeFile? ==>
      store[Manifest].numEpisodes == |store[Episode].episodes|
  }

  /** A fresh attempt that dies between its last upload and the manifest. */
  function Unsealed(a: int, src: seq<Bundle>): seq<Step> {
    Entry(a, false, src) + (AllUploads(a) + [Crash(a)])
  }

  lemma UnsealedWrites(src: seq<Bundle>)
    requires src != []
    ensures var s := Run(Init, Unsealed(0, src));
      s.attempts.Keys == {0} && s.store.Keys == OUTPUTS &&
      s.store[Pose] == PoseFile(PoseTable(src)) && s.store[Episode] == EpisodeFile(EpisodeTable(src), 0)
  {
    EntryLoads(Init, 0, false, src);
    var s := Run(Init, Entry(0, false, src));
    UploadsWrite(s, 0, src);
    var t := Run(s, AllUploads(0));
    RunConcat(Init, Entry(0, false, src), AllUploads(0) + [Crash(0)]);
    RunConcat(s, AllUploads(0), [Crash(0)]);
    assert [Crash(0)][1..] == [];
    assert Run(t, [Crash(0)]) == Run(Perform(t, Crash(0)), []);
  }

  /** A resuming attempt finds all three outputs. */
  function Finding(a: int): seq<Step> {
    [Begin(a, true, false), TestManifest(a, true)] + [TestOutput(a, Pose), TestOutput(a, Video), TestOutput(a, Episode)]
  }

  /** It reads them back and writes its manifest. */
  function Recounting(a: int): seq<Step> {
    [ReadOutput(a, Pose, true), ReadOutput(a, Video, true), ReadOutput(a, Episode, true)] +
    [Inspect(a), PutResumedManifest(a)]
  }

  lemma FindingFinds(s: State, a: int)
    requires a !in s.attempts && s.store.Keys == OUTPUTS
    ensures Run(s, Finding(a)) == State(s.store, s.attempts[a := Attempt(true, false, Reading(OUTPUTS, map[]))])
  {
    var begin := [Begin(a, true, false), TestManifest(a, true)];
    RunConcat(s, begin, [TestOutput(a, Pose), TestOutput(a, Video), TestOutput(a, Episode)]);
    RunTwo(s, Begin(a, true, false), TestManifest(a, true));
    var t := Run(s, begin);
    assert t == State(s.store, s.attempts[a := Attempt(true, false, Checking(OUTPUTS))]);
    RunThree(t, TestOutput(a, Pose), TestOutput(a, Video), TestOutput(a, Episode));
    assert OUTPUTS - {Pose} == {Video, Episode} && {Video, Episode} - {Video} == {Episode};
    assert {Episode} - {Episode} == {};
    var t1 := Perform(t, TestOutput(a, Pose));
    assert t1 == State(s.store, s.attempts[a := Attempt(true, false, Checking({Video, Episode}))]);
    var t2 := Perform(t1, TestOutput(a, Video));
    assert t2 == State(s.store, s.attempts[a := Attempt(true, false, Checking({Episode}))]);
  }

  lemma RecountingSeals(s: State, a: int)
    requires a in s.attempts && s.attempts[a].pc == Reading(OUTPUTS, map[]) && OUTPUTS <= s.store.Keys
    requires s.store[Pose].PoseFile? && s.store[Episode].EpisodeFile?
    ensures Run(s, Recounting(a)).store ==
      s.store[Manifest := ManifestFile(|s.store[Pose].rows|, 1, DurationColumn(s.store[Episode].episodes), true)]
  {
    var rs := [ReadOutput(a, Pose, true), ReadOutput(a, Video, true), ReadOutput(a, Episode, true)];
    RunConcat(s, rs, [Inspect(a), PutResumedManifest(a)]);
    RunThree(s, ReadOutput(a, Pose, true), ReadOutput(a, Video, true), ReadOutput(a, Episode, true));
    assert OUTPUTS - {Pose} == {Video, Episode} && {Video, Episode} - {Video} == {Episode};
    assert {Episode} - {Episode} == {};
    var t := Run(s, rs);
    assert t.store == s.store && t.attempts[a].pc.Reading? && t.attempts[a].pc.left == {};
    assert t.attempts[a].pc.found[Pose] == s.store[Pose] && t.attempts[a].pc.found[Episode] == s.store[Episode];
    RunTwo(t, Inspect(a), PutResumedManifest(a));
  }

  lemma ResumeSeals(s: State, a: int)
    requires a !in s.attempts && s.store.Keys == OUTPUTS && s.store[Pose].PoseFile? && s.store[Episode].EpisodeFile?
    ensures Run(s, Finding(a) + Recounting(a)).store ==
      s.store[Manifest := ManifestFile(|s.store[Pose].rows|, 1, DurationColumn(s.store[Episode].episodes), true)]
  {
    FindingFinds(s, a);
    RecountingSeals(Run(s, Finding(a)), a);
    RunConcat(s, Finding(a), Recounting(a));
  }

  /** A fresh attempt dies before its manifest, and a second one resumes. */
  function ResumedRun(src: seq<Bundle>): seq<Step> { Unsealed(0, src) + (Finding(1) + Recounting(1)) }

  lemma ResumedRunLoads(src: seq<Bundle>)
    ensures FixedSource(src, ResumedRun(src))
  {
    assert FixedSource(src, Entry(0, false, src)) && FixedSource(src, AllUploads(0) + [Crash(0)]);
    assert FixedSource(src, Finding(1)) && FixedSource(src, Recounting(1));
  }

  lemma ResumedRunWrites(src: seq<Bundle>)
    requires src != []
    ensures var store := Run(Init, ResumedRun(src)).store;
      Manifest in store && Episode in store && store[Episode] == EpisodeFile(EpisodeTable(src), 0) &&
      store[Manifest] == ManifestFile(SumSamples(src), 1, SumDurations(src), true)
  {
    UnsealedWrites(src);
    var s := Run(Init, Unsealed(0, src));
    ResumeSeals(s, 1);
    RunConcat(Init, Unsealed(0, src), Finding(1) + Recounting(1));
    TablesRecount(src);
  }

  /** With one fixed source, a manifest counts the episodes right if and only if it was
      written by a fresh attempt or there is exactly one episode; */
  lemma EpisodeCountIff(src: seq<Bundle>, steps: seq<Step>)
    requires FixedSource(src, steps) && Manifest in Run(Init, steps).store
    ensures var store := Run(Init, steps).store;
      store[Manifest].ManifestFile? && (EpisodesMatch(store) <==> !store[Manifest].resumed || |src| == 1)
  {
    CommittedContent(src, steps);
  }

  /** and it does so in every history if and only if there is exactly one episode. */
  lemma EpisodesMatchIff(src: seq<Bundle>)
    requires src != []
    ensures |src| == 1 <==> forall steps :: FixedSource(src, steps) ==> EpisodesMatch(Run(Init, steps).store)
  {
    if |src| == 1 {
      forall steps | FixedSource(src, steps) ensures EpisodesMatch(Run(Init, steps).store) {
        if Manifest in Run(Init, steps).store { EpisodeCountIff(src, steps); }
      }
    } else {
      ResumedRunLoads(src);
      ResumedRunWrites(src);
      assert !EpisodesMatch(Run(Init, ResumedRun(src)).store);
    }
  }
}
