/**
 Budgeted selection of the devscale planner: includes, excludes, file cap, byte cap
 (scripts/_local_devscale_lib.py, lines 184-227 and 251-320).
 */
module Planner {
  import opened Wrappers
  import opened Schemas
  import Glob

  datatype Obj = Obj(relKey: string, sizeBytes: int)

  datatype Stats = Stats(
    afterInclude: nat, afterExclude: nat, afterMaxFiles: nat,
    selectedCount: nat, selectedBytes: int,
    truncatedByFiles: bool, truncatedByBytes: bool, firstOversize: Option<int>)

  function Bytes(xs: seq<Obj>): int {
    if xs == [] then 0 else Bytes(xs[..|xs| - 1]) + xs[|xs| - 1].sizeBytes
  }

  /** Keys that some pattern matches (`hit`), or that none does (`!hit`). */
  function Hits(member: (string, char) -> bool, pats: seq<string>, hit: bool): Obj -> bool {
    (o: Obj) => Glob.Matches(member, pats, o.relKey) == hit
  }

  function Wanted(member: (string, char) -> bool, includes: seq<string>, excludes: seq<string>): Obj -> bool {
    (o: Obj) => Glob.Matches(member, includes, o.relKey) && !Glob.Matches(member, excludes, o.relKey)
  }

  /** A list comprehension `[o for o in xs if p(o)]`. */
  function Keep(p: Obj -> bool, xs: seq<Obj>): (r: seq<Obj>) {
    if xs == [] then []
    else
      var k := Keep(p, xs[..|xs| - 1]);
      if p(xs[|xs| - 1]) then k + [xs[|xs| - 1]] else k
  }

  /** The include-minus-exclude list the two comprehensions compute. */
  function Candidates(member: (string, char) -> bool, includes: seq<string>, excludes: seq<string>,
                      xs: seq<Obj>): seq<Obj>
  {
    Keep(Wanted(member, includes, excludes), xs)
  }

  /** Python's `xs[:n]`: a negative `n` counts from the end. */
  function SliceTo(xs: seq<Obj>, n: int): seq<Obj> {
    if n >= 0 then (if n <= |xs| then xs[..n] else xs)
    else if |xs| + n >= 0 then xs[..|xs| + n] else []
  }

  /** Any cap gives a prefix: of that length, or short of the end by so much. */
  lemma SliceMeans(xs: seq<Obj>, n: int)
    ensures SliceTo(xs, n) <= xs
    ensures n >= 0 ==> |SliceTo(xs, n)| == if n <= |xs| then n else |xs|
    ensures n < 0 ==> |SliceTo(xs, n)| == if |xs| + n >= 0 then |xs| + n else 0
  {}

  /** The list after the file cap. */
  function CapFiles(xs: seq<Obj>, maxFiles: Option<int>): seq<Obj> {
    if maxFiles.Some? && |xs| > maxFiles.value then SliceTo(xs, maxFiles.value) else xs
  }

  predicate FitsBytes(xs: seq<Obj>, maxBytes: Option<int>) {
    maxBytes.None? || Bytes(xs) <= maxBytes.value
  }

  predicate FitsFiles(xs: seq<Obj>, maxFiles: Option<int>) {
    maxFiles.None? || |xs| <= maxFiles.value
  }

  predicate NonNegative(xs: seq<Obj>) { forall i :: 0 <= i < |xs| ==> xs[i].sizeBytes >= 0 }

  /** `n` is where the greedy loop stops on `xs`: every non-empty prefix up to `n` fits,
      and the prefix one longer, if there is one, does not. */
  ghost predicate StopsAt(xs: seq<Obj>, maxBytes: Option<int>, n: nat) {
    n <= |xs| &&
    (forall j :: 0 < j <= n ==> FitsBytes(xs[..j], maxBytes)) &&
    (n < |xs| ==> !FitsBytes(xs[..n + 1], maxBytes))
  }

  /** Filtering keeps every occurrence of a wanted object and nothing else, in order. */
  lemma {:induction false} KeepIsFilter(p: Obj -> bool, xs: seq<Obj>)
    ensures forall o :: multiset(Keep(p, xs))[o] == if p(o) then multiset(xs)[o] else 0
    ensures |Keep(p, xs)| <= |xs|
  {
    if xs != [] {
      KeepIsFilter(p, xs[..|xs| - 1]);
      assert xs == xs[..|xs| - 1] + [xs[|xs| - 1]];
    }
  }

  method Comprehension(member: (string, char) -> bool, pats: seq<string>, keep: bool, xs: seq<Obj>)
    returns (r: seq<Obj>)
    ensures r == Keep(Hits(member, pats, keep), xs)
  {
    r := [];
    for i := 0 to |xs|
      invariant r == Keep(Hits(member, pats, keep), xs[..i])
    {
      var hit := Glob.MatchAny(member, pats, xs[i].relKey);
      assert xs[..i + 1][..i] == xs[..i];
      if hit == keep { r := r + [xs[i]]; }
    }
    assert xs[..|xs|] == xs;
  }

  lemma {:induction false} KeepTwice(p: Obj -> bool, q: Obj -> bool, r: Obj -> bool, xs: seq<Obj>)
    requires forall o :: r(o) <==> p(o) && q(o)
    ensures Keep(q, Keep(p, xs)) == Keep(r, xs)
  {
    if xs != [] {
      var n := |xs| - 1;
      KeepTwice(p, q, r, xs[..n]);
      var k := Keep(p, xs[..n]);
      assert (k + [xs[n]])[..|k|] == k;
    }
  }

  lemma BytesStep(xs: seq<Obj>, i: nat)
    requires i < |xs|
    ensures Bytes(xs[..i + 1]) == Bytes(xs[..i]) + xs[i].sizeBytes
  {
    assert xs[..i + 1][..i] == xs[..i];
  }

  /** The accumulating loop with its early break. */
  method TakeWithinBytes(xs: seq<Obj>, maxBytes: Option<int>)
    returns (final: seq<Obj>, total: int, truncated: bool, first: Option<int>)
    ensures final <= xs && StopsAt(xs, maxBytes, |final|)
    ensures total == Bytes(final)
    ensures truncated <==> |final| < |xs|
    ensures first == if final == [] && xs != [] then Some(xs[0].sizeBytes) else None
  {
    truncated, first, total, final := false, None, 0, [];
    for i := 0 to |xs|
      invariant final == xs[..i] && total == Bytes(final)
      invariant first == None && !truncated
      invariant forall j :: 0 < j <= i ==> FitsBytes(xs[..j], maxBytes)
    {
      var size := xs[i].sizeBytes;
      BytesStep(xs, i);
      if maxBytes.Some? && total + size > maxBytes.value {
        truncated := true;
        if final == [] && first.None? { first := Some(size); }
        return;
      }
      final := final + [xs[i]];
      total := total + size;
    }
  }

  /** Filter, cap, and add up greedily; the result is exactly where the greedy rule
      stops, and every statistic is the real count or sum. */
  method FilterForDataset(member: (string, char) -> bool, objects: seq<Obj>,
                          includes: seq<string>, excludes: seq<string>,
                          maxFiles: Option<int>, maxBytes: Option<int>)
    returns (final: seq<Obj>, stats: Stats)
    ensures var candidates := Candidates(member, includes, excludes, objects);
            var capped := CapFiles(candidates, maxFiles);
            final <= capped && StopsAt(capped, maxBytes, |final|) &&
            stats.selectedCount == |final| && stats.selectedBytes == Bytes(final) &&
            stats.afterInclude == |Keep(Hits(member, includes, true), objects)| &&
            stats.afterExclude == |candidates| && stats.afterMaxFiles == |capped| &&
            (stats.truncatedByFiles <==> !FitsFiles(candidates, maxFiles)) &&
            (stats.truncatedByBytes <==> |final| < |capped|) &&
            stats.firstOversize ==
              (if final == [] && capped != [] then Some(capped[0].sizeBytes) else None)
  {
    var stage1 := Comprehension(member, includes, true, objects);
    var stage2 := Comprehension(member, excludes, false, stage1);
    KeepTwice(Hits(member, includes, true), Hits(member, excludes, false),
              Wanted(member, includes, excludes), objects);
    var afterExclude := |stage2|;
    var truncatedByFiles := false;
    if maxFiles.Some? && |stage2| > maxFiles.value {
      stage2 := SliceTo(stage2, maxFiles.value);
      truncatedByFiles := true;
    }
    var total, truncatedByBytes, first;
    final, total, truncatedByBytes, first := TakeWithinBytes(stage2, maxBytes);
    stats := Stats(|stage1|, afterExclude, |stage2|, |final|, total, truncatedByFiles, truncatedByBytes, first);
  }

  // ---------- what the greedy stop means ----------

  lemma {:induction false} BytesMonotone(xs: seq<Obj>, i: nat, j: nat)
    requires NonNegative(xs) && i <= j <= |xs|
    ensures Bytes(xs[..i]) <= Bytes(xs[..j])
    decreases j
  {
    if i < j {
      BytesMonotone(xs, i, j - 1);
      assert xs[..j][..j - 1] == xs[..j - 1];
    }
  }

  /** The selection obeys both caps and no longer prefix of the candidates does
      (sizes are non-negative, the file cap is not negative). The empty selection is
      the answer when not even one file fits. */
  lemma SelectionIsLongest(candidates: seq<Obj>, maxFiles: Option<int>, maxBytes: Option<int>, n: nat, m: nat)
    requires NonNegative(candidates)
    requires maxFiles.Some? ==> maxFiles.value >= 0
    requires StopsAt(CapFiles(candidates, maxFiles), maxBytes, n)
    requires 0 < m <= |candidates|
    ensures n <= |candidates|
    ensures m <= n <==>
      FitsFiles(candidates[..m], maxFiles) && FitsBytes(candidates[..m], maxBytes)
  {
    var capped := CapFiles(candidates, maxFiles);
    if m <= |capped| {
      assert capped[..m] == candidates[..m];
      if n < m {
        assert capped[..n + 1] == candidates[..n + 1];
        BytesMonotone(candidates, n + 1, m);
      }
    }
  }

  /** A negative file cap is not a cap at all: Python's slice drops files from the end.
      The cap is respected exactly when it is not negative. */
  lemma FileCapRespected(candidates: seq<Obj>, cap: int)
    ensures FitsFiles(CapFiles(candidates, Some(cap)), Some(cap)) <==> cap >= 0
  {}

  /** Raising either cap only extends the selection. */
  lemma RaisingCapsExtends(candidates: seq<Obj>, f1: Option<int>, b1: Option<int>, n1: nat,
                           f2: Option<int>, b2: Option<int>, n2: nat)
    requires NonNegative(candidates)
    requires f1.Some? ==> f1.value >= 0
    requires f2.None? || (f1.Some? && f1.value <= f2.value)
    requires b2.None? || (b1.Some? && b1.value <= b2.value)
    requires StopsAt(CapFiles(candidates, f1), b1, n1)
    requires StopsAt(CapFiles(candidates, f2), b2, n2)
    ensures n1 <= n2
  {
    if 0 < n1 {
      SelectionIsLongest(candidates, f1, b1, n1, n1);
      SelectionIsLongest(candidates, f2, b2, n2, n1);
    }
  }

  // ---------- cmd_plan totals ----------

  datatype Dataset = Dataset(objects: seq<Obj>, includes: seq<string>, excludes: seq<string>,
                             maxFiles: Option<int>, maxBytes: Option<int>)

  /** The files planned for one dataset are the greedy selection from its candidates. */
  ghost predicate Planned(member: (string, char) -> bool, ds: Dataset, selected: seq<Obj>) {
    var capped := CapFiles(Candidates(member, ds.includes, ds.excludes, ds.objects), ds.maxFiles);
    selected <= capped && StopsAt(capped, ds.maxBytes, |selected|)
  }

  datatype Totals = Totals(files: nat, bytes: int, overLimit: bool)

  lemma {:induction false} BytesConcat(xs: seq<Obj>, ys: seq<Obj>)
    ensures Bytes(xs + ys) == Bytes(xs) + Bytes(ys)
  {
    if ys == [] {
      assert xs + ys == xs;
    } else {
      BytesConcat(xs, ys[..|ys| - 1]);
      assert (xs + ys)[..|xs + ys| - 1] == xs + ys[..|ys| - 1];
    }
  }

  method PlanOne(member: (string, char) -> bool, ds: Dataset) returns (selected: seq<Obj>, count: nat, size: int)
    ensures Planned(member, ds, selected) && count == |selected| && size == Bytes(selected)
  {
    var stats;
    selected, stats := FilterForDataset(member, ds.objects, ds.includes, ds.excludes, ds.maxFiles, ds.maxBytes);
    count, size := stats.selectedCount, stats.selectedBytes;
  }

  lemma PlanGrows(plan: seq<seq<Obj>>, selected: seq<Obj>)
    ensures |Flatten(plan + [selected])| == |Flatten(plan)| + |selected|
    ensures Bytes(Flatten(plan + [selected])) == Bytes(Flatten(plan)) + Bytes(selected)
  {
    assert (plan + [selected])[..|plan|] == plan;
    BytesConcat(Flatten(plan), selected);
  }

  /** The plan's totals are the count and byte sum of all planned files together, and
      the over-limit flag compares that very sum with the cap. */
  method Plan(member: (string, char) -> bool, datasets: seq<Dataset>, totalCap: int)
    returns (plan: seq<seq<Obj>>, totals: Totals)
    ensures |plan| == |datasets|
    ensures forall d :: 0 <= d < |datasets| ==> Planned(member, datasets[d], plan[d])
    ensures totals.files == |Flatten(plan)| && totals.bytes == Bytes(Flatten(plan))
    ensures totals.overLimit <==> Bytes(Flatten(plan)) > totalCap
  {
    plan := [];
    var files, bytes := 0, 0;
    for i := 0 to |datasets|
      invariant |plan| == i
      invariant files == |Flatten(plan)| && bytes == Bytes(Flatten(plan))
      invariant forall d :: 0 <= d < i ==> Planned(member, datasets[d], plan[d])
    {
      var selected, count, size := PlanOne(member, datasets[i]);
      PlanGrows(plan, selected);
      plan, files, bytes := plan + [selected], files + count, bytes + size;
    }
    totals := Totals(files, bytes, bytes > totalCap);
  }
}
