/**
 Scanning raw datasets and skipping finished ones (src/robot_dh/etl/runner.py, lines
 110-291 and 414-548). Each run goes through the very normalize and build-features of
 modules NormalizeRun and FeatureRun; how far it gets is decided by the world.
 */
module Scan {
  import opened Wrappers
  import opened Layout
  import N = Normalize
  import R = NormalizeRun
  import F = FeatureRun

  datatype Status = OK | WARN | FAIL

  /** How the world treats one run: it may be refused before it starts, raise after a
      finished normalize, or raise after both phases. */
  datatype Fate = Fate(refused: bool, normalize: R.World, raises: bool, features: F.World, late: bool, warn: bool)

  /** Nothing gets in the way. */
  predicate Smooth(f: Fate) {
    !f.refused && f.normalize.puts >= 4 && f.normalize.src != [] && !f.raises &&
    f.features.computes && f.features.puts > 4 && !f.late
  }

  datatype Totals = Totals(total: nat, succeeded: nat, failed: nat, skipped: nat, executed: seq<Dataset>)

  datatype VisitResult = Skipped | Succeeded | Failed

  /** The pose rows that build-features reads from the ods layer. */
  function PoseRows(store: N.Store): Option<seq<int>> {
    if N.Pose in store && store[N.Pose].PoseFile? then Some(store[N.Pose].rows) else None
  }

  /** What is under the pose name is a pose file. */
  predicate PoseTyped(store: N.Store) { N.Pose in store ==> store[N.Pose].PoseFile? }

  /** A manifest is there only if all outputs are, in an ods layer as normalize leaves it. */
  predicate OdsSound(store: N.Store) {
    (N.Manifest in store ==> N.AllOutputsPresent(store)) && PoseTyped(store)
  }

  lemma {:induction false} RunKeepsTyped(s: N.State, steps: seq<N.Step>)
    requires PoseTyped(s.store)
    ensures PoseTyped(N.Run(s, steps).store)
    decreases steps
  {
    if steps != [] { RunKeepsTyped(N.Perform(s, steps[0]), steps[1..]); }
  }

  lemma AttemptKeepsSound(store: N.Store, trace: seq<N.Step>)
    requires OdsSound(store)
    ensures OdsSound(N.Run(N.State(store, map[]), trace).store)
  {
    N.ManifestImpliesOutputs(N.State(store, map[]), trace);
    RunKeepsTyped(N.State(store, map[]), trace);
  }

  /** A lake: its layer stores, each known by the place of its manifest. */
  class Lake {
    const written: (Layer, Dataset) -> Place   // where a phase writes its manifest
    const probe: (Layer, Dataset) -> Place     // where the skip test looks for it
    var ods: map<Place, N.Store>
    var dwd: map<Place, F.Store>

    constructor (root: string)
      requires Rooted(root)
      ensures forall l, d :: written(l, d) == PlaceOf(ManifestUnder(LayerUri(root, l, d)))
      ensures forall l, d :: probe(l, d) == PlaceOf(ManifestProbe(root, l, d))
      ensures Valid() && ods == map[] && dwd == map[]
    {
      written := (l, d) => PlaceOf(ManifestUnder(LayerUri(root, l, d)));
      probe := (l, d) => PlaceOf(ManifestProbe(root, l, d));
      ods, dwd := map[], map[];
      new;
      forall l, d ensures written(l, d) == probe(l, d) { ProbeIsWritten(root, l, d); }
    }

    /** The scan looks where the phases write, and in every layer a manifest is there only
        if everything it speaks of is. */
    ghost predicate Valid()
      reads this
    {
      (forall l, d :: written(l, d) == probe(l, d)) &&
      (forall p :: p in ods ==> OdsSound(ods[p])) && (forall p :: p in dwd ==> F.Committed(dwd[p]))
    }

    function OdsAt(p: Place): N.Store
      reads this`ods
    {
      if p in ods then ods[p] else map[]
    }

    function DwdAt(p: Place): F.Store
      reads this`dwd
    {
      if p in dwd then dwd[p] else map[]
    }

    /** The skip test: both manifests exist. */
    predicate Done(d: Dataset)
      reads this`ods, this`dwd
    {
      N.Manifest in OdsAt(probe(Ods, d)) && F.Manifest in DwdAt(probe(Dwd, d))
    }

    predicate AllDone(xs: seq<Dataset>)
      reads this`ods, this`dwd
    {
      forall i :: 0 <= i < |xs| ==> Done(xs[i])
    }

    /** Manifests that exist go on existing. */
    twostate predicate Kept()
      reads this`ods, this`dwd
    {
      (forall p :: N.Manifest in old(OdsAt(p)) ==> N.Manifest in OdsAt(p)) &&
      (forall p :: F.Manifest in old(DwdAt(p)) ==> F.Manifest in DwdAt(p))
    }

    /** What skipping relies on: a finished dataset has all its outputs and tables. */
    lemma DoneIsComplete(d: Dataset)
      requires Valid() && Done(d)
      ensures N.AllOutputsPresent(OdsAt(probe(Ods, d))) && F.AllTablesPresent(DwdAt(probe(Dwd, d)))
    {}

    /** normalize: raises if the attempt dies. */
    method NormalizePhase(d: Dataset, world: R.World, force: bool) returns (ok: bool)
      requires Valid()
      modifies this`ods
      ensures Valid() && Kept()
      ensures ok ==> N.Manifest in OdsAt(written(Ods, d))
      ensures world.puts >= 4 && world.src != [] ==> ok
    {
      var p := written(Ods, d);
      var store := new R.OutputStore(OdsAt(p));
      var outcome;
      ghost var trace;
      outcome, trace := store.NormalizeDataset(world, true, force);
      AttemptKeepsSound(OdsAt(p), trace);
      ManifestStays(OdsAt(p), trace);
      ods := ods[p := store.objects];
      ok := outcome != N.DIED;
    }

    /** build-features on what the ods layer holds: raises unless it completes. */
    method FeaturesPhase(d: Dataset, world: F.World) returns (ok: bool)
      requires Valid() && F.Each(world.order)
      modifies this`dwd
      ensures Valid() && Kept()
      ensures ok ==> F.Manifest in DwdAt(written(Dwd, d))
      ensures ok <==> F.Succeeds(PoseRows(OdsAt(written(Ods, d))), world)
      ensures ok ==>
        N.Pose in OdsAt(written(Ods, d)) && OdsAt(written(Ods, d))[N.Pose].PoseFile? &&
        forall name: F.Name :: name in DwdAt(written(Dwd, d)) &&
          DwdAt(written(Dwd, d))[name] == OdsAt(written(Ods, d))[N.Pose].rows
    {
      var p, src := written(Dwd, d), PoseRows(OdsAt(written(Ods, d)));
      var store := new F.FeatureStore(DwdAt(p));
      F.AfterOne(DwdAt(p), src, world);
      ok := store.BuildFeatures(src, world);
      dwd := dwd[p := store.objects];
    }

    /** etl_run: normalize, then features. A run that does not fail leaves both manifests
        where the skip test looks. */
    method EtlRun(d: Dataset, fate: Fate, force: bool) returns (status: Status)
      requires Valid() && F.Each(fate.features.order)
      modifies this`ods, this`dwd
      ensures Valid() && Kept()
      ensures status != FAIL ==> Done(d)
      ensures Smooth(fate) ==> status == if fate.warn then WARN else OK
    {
      if fate.refused { return FAIL; }
      var ok := NormalizePhase(d, fate.normalize, force);
      if !ok || fate.raises { return FAIL; }
      label Normalized:
      assert PoseRows(OdsAt(written(Ods, d))).Some?;
      ok := FeaturesPhase(d, fate.features);
      assert N.Manifest in OdsAt(written(Ods, d));
      if !ok || fate.late { return FAIL; }
      status := if fate.warn then WARN else OK;
    }

    /** One dataset of the scan: skipped if both manifests are found, else run. */
    method Visit(d: Dataset, force: bool, fate: Fate) returns (visit: VisitResult)
      requires Valid() && F.Each(fate.features.order)
      modifies this`ods, this`dwd
      ensures Valid() && Kept()
      ensures visit == Skipped <==> !force && old(Done(d))
      ensures visit == Skipped ==> ods == old(ods) && dwd == old(dwd)
      ensures visit != Failed ==> Done(d)
      ensures Smooth(fate) ==> visit != Failed
    {
      if !force && Done(d) { return Skipped; }
      var status := EtlRun(d, fate, force);
      visit := if status == OK || status == WARN then Succeeded else Failed;
    }

    /** The scan loop and its counters; `ads` tells how the ads step went, if it was asked
        for. */
    method EtlScan(discovered: seq<Dataset>, limit: Option<int>, force: bool, fates: nat -> Fate, ads: Option<bool>)
      returns (t: Totals)
      requires Valid() && forall i :: F.Each(fates(i).features.order)
      modifies this`ods, this`dwd
      ensures Valid() && Kept()
      ensures t.total == |Limited(discovered, limit)| == t.skipped + |t.executed|
      ensures t.succeeded + t.failed + t.skipped == t.total + (if ads == Some(false) then 1 else 0)
      ensures t.failed == 0 ==> AllDone(Limited(discovered, limit))
      ensures (forall i :: Smooth(fates(i))) ==> t.failed == if ads == Some(false) then 1 else 0
      ensures !force && old(AllDone(Limited(discovered, limit))) ==>
        t.skipped == t.total && t.succeeded == 0 && t.executed == [] && ods == old(ods) && dwd == old(dwd)
    {
      var chosen := Limited(discovered, limit);
      var succeeded, failed, skipped := 0, 0, 0;
      var executed: seq<Dataset> := [];
      for i := 0 to |chosen|
        invariant Valid() && Kept()
        invariant succeeded + failed == |executed| && |executed| + skipped == i
        invariant failed == 0 ==> forall k :: 0 <= k < i ==> Done(chosen[k])
        invariant (forall k :: Smooth(fates(k))) ==> failed == 0
        invariant !force && old(AllDone(chosen)) ==> executed == [] && ods == old(ods) && dwd == old(dwd)
      {
        label Before:
        var visit := Visit(chosen[i], force, fates(i));
        forall k | 0 <= k < i && old@Before(Done(chosen[k])) ensures Done(chosen[k]) {}
        match visit
        case Skipped => skipped := skipped + 1;
        case Succeeded => succeeded, executed := succeeded + 1, executed + [chosen[i]];
        case Failed => failed, executed := failed + 1, executed + [chosen[i]];
      }
      if ads == Some(false) { failed := failed + 1; }
      t := Totals(|chosen|, succeeded, failed, skipped, executed);
    }

    /** After a scan without failures, scanning the same datasets again without force runs
        nothing, skips every one of them and leaves the lake as the first scan left it. */
    method ScanTwice(discovered: seq<Dataset>, limit: Option<int>, force: bool, fates: nat -> Fate, fates': nat -> Fate,
                     ads: Option<bool>, ads': Option<bool>)
      returns (first: Totals, second: Totals)
      requires Valid() && forall i :: F.Each(fates(i).features.order) && F.Each(fates'(i).features.order)
      modifies this`ods, this`dwd
      ensures Valid()
      ensures first.failed == 0 ==>
        second.skipped == second.total == first.total && second.executed == [] && second.succeeded == 0 &&
        second.failed == if ads' == Some(false) then 1 else 0
    {
      first := EtlScan(discovered, limit, force, fates, ads);
      second := EtlScan(discovered, limit, false, fates', ads');
    }
  }

  /** Objects are never deleted. */
  lemma {:induction false} ObjectsStay(s: N.State, steps: seq<N.Step>)
    ensures s.store.Keys <= N.Run(s, steps).store.Keys
    decreases steps
  {
    if steps != [] { ObjectsStay(N.Perform(s, steps[0]), steps[1..]); }
  }

  lemma ManifestStays(store: N.Store, trace: seq<N.Step>)
    ensures store.Keys <= N.Run(N.State(store, map[]), trace).store.Keys
  {
    ObjectsStay(N.State(store, map[]), trace);
  }

  /** discovered[:limit] when a positive limit is given. */
  function Limited(discovered: seq<Dataset>, limit: Option<int>): seq<Dataset> {
    if limit.Some? && limit.value > 0 && limit.value <= |discovered| then discovered[..limit.value] else discovered
  }

  /** A positive limit lets the first so many through; no limit, zero or less let all. */
  lemma LimitedMeans(discovered: seq<Dataset>, limit: Option<int>)
    ensures Limited(discovered, limit) <= discovered
    ensures |Limited(discovered, limit)| ==
      if limit.Some? && 0 < limit.value < |discovered| then limit.value else |discovered|
  {}
}
