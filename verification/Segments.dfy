/**
 Trajectory segmentation by frame state (src/robot_dh/etl/features.py, lines 268-346).
 Velocities, press candidates and step lengths are inputs; times and lengths are reals.
 */
module Segments {

  datatype State = MOVE | QUIET | PRESS

  datatype Frame = Frame(velocity: real, time: real, isPress: bool, delta: real)

  datatype Segment = Segment(index: nat, start: nat, end: nat, kind: State,
                             startTime: real, endTime: real, duration: real, distance: real)

  /** Quiet overrides move, and press overrides both. */
  function StateOf(f: Frame, quiet: real): State {
    if f.isPress then PRESS else if f.velocity <= quiet then QUIET else MOVE
  }

  function States(fs: seq<Frame>, quiet: real): (r: seq<State>)
    ensures |r| == |fs|
  {
    seq(|fs|, i requires 0 <= i < |fs| => StateOf(fs[i], quiet))
  }

  /** Length travelled on frames lo..hi, the step into `lo` not counted. */
  function Travel(fs: seq<Frame>, lo: nat, hi: nat): real
    requires lo <= hi < |fs|
    decreases hi
  {
    if lo == hi then 0.0 else Travel(fs, lo, hi - 1) + fs[hi].delta
  }

  /** np.sum(delta_d[lo : hi]) as the loop-free source computes it. */
  method SumDeltas(fs: seq<Frame>, lo: nat, hi: nat) returns (sum: real)
    requires lo <= hi < |fs|
    ensures sum == Travel(fs, lo, hi)
  {
    sum := 0.0;
    for k := lo + 1 to hi + 1
      invariant sum == Travel(fs, lo, k - 1)
    {
      sum := sum + fs[k].delta;
    }
  }

  predicate SegmentOk(s: Segment, i: nat, fs: seq<Frame>, quiet: real) {
    s.index == i && s.start <= s.end < |fs| &&
    (forall k :: s.start <= k <= s.end ==> StateOf(fs[k], quiet) == s.kind) &&
    s.startTime == fs[s.start].time && s.endTime == fs[s.end].time &&
    s.duration == s.endTime - s.startTime && s.distance == Travel(fs, s.start, s.end)
  }

  /** `segs` cut the first `n` frames into maximal runs of one state. */
  predicate Encodes(segs: seq<Segment>, fs: seq<Frame>, quiet: real, n: nat) {
    n <= |fs| && (segs == [] <==> n == 0) &&
    (forall i :: 0 <= i < |segs| ==> SegmentOk(segs[i], i, fs, quiet)) &&
    (segs != [] ==> segs[0].start == 0) &&
    (forall i :: 0 < i < |segs| ==> segs[i].start == segs[i - 1].end + 1) &&
    (forall i :: 0 < i < |segs| ==> segs[i].kind != segs[i - 1].kind) &&
    (segs != [] ==> segs[|segs| - 1].end == n - 1)
  }

  method MakeSegment(fs: seq<Frame>, quiet: real, index: nat, start: nat, end: nat, kind: State)
    returns (s: Segment)
    requires start <= end < |fs|
    requires forall k :: start <= k <= end ==> StateOf(fs[k], quiet) == kind
    ensures SegmentOk(s, index, fs, quiet) && s.start == start && s.end == end && s.kind == kind
  {
    var distance := 0.0;
    if end > start { distance := SumDeltas(fs, start, end); }
    s := Segment(index, start, end, kind, fs[start].time, fs[end].time, fs[end].time - fs[start].time, distance);
  }

  lemma AppendSegment(segs: seq<Segment>, s: Segment, fs: seq<Frame>, quiet: real, n: nat)
    requires Encodes(segs, fs, quiet, n) && SegmentOk(s, |segs|, fs, quiet) && s.start == n
    requires segs != [] ==> segs[|segs| - 1].kind != s.kind
    ensures Encodes(segs + [s], fs, quiet, s.end + 1)
  {}

  method ComputeSegments(fs: seq<Frame>, quiet: real) returns (segs: seq<Segment>)
    ensures Encodes(segs, fs, quiet, |fs|)
    ensures forall i, k :: 0 <= i < |segs| && segs[i].start <= k <= segs[i].end ==>
      segs[i].kind == if fs[k].isPress then PRESS else if fs[k].velocity <= quiet then QUIET else MOVE
  {
    segs := [];
    var n := |fs|;
    if n == 0 { return; }
    var states := States(fs, quiet);
    if n == 1 {
      segs := [Segment(0, 0, 0, states[0], fs[0].time, fs[0].time, 0.0, 0.0)];
      AppendSegment([], segs[0], fs, quiet, 0);
      return;
    }
    var start, current, count := 0, states[0], 0;
    for i := 1 to n
      invariant start < i && count == |segs|
      invariant forall k :: start <= k < i ==> StateOf(fs[k], quiet) == current
      invariant Encodes(segs, fs, quiet, start)
      invariant segs != [] ==> segs[|segs| - 1].kind != current
    {
      if states[i] != current {
        var s := MakeSegment(fs, quiet, count, start, i - 1, current);
        AppendSegment(segs, s, fs, quiet, start);
        segs := segs + [s];
        count := count + 1;
        start := i;
        current := states[i];
      }
    }
    var s := MakeSegment(fs, quiet, count, start, n - 1, current);
    AppendSegment(segs, s, fs, quiet, start);
    segs := segs + [s];
  }

  // ---------- what a run-length code gives ----------

  function Repeat(kind: State, n: nat): (r: seq<State>)
    ensures |r| == n && forall i :: 0 <= i < n ==> r[i] == kind
  {
    seq(n, i => kind)
  }

  function Expand(segs: seq<Segment>): seq<State> {
    if segs == [] then []
    else
      var s := segs[|segs| - 1];
      Expand(segs[..|segs| - 1]) + Repeat(s.kind, if s.start <= s.end then s.end - s.start + 1 else 0)
  }

  lemma DropLast(segs: seq<Segment>, fs: seq<Frame>, quiet: real, n: nat)
    requires Encodes(segs, fs, quiet, n) && segs != []
    ensures Encodes(segs[..|segs| - 1], fs, quiet, segs[|segs| - 1].start)
  {}

  /** Expansion gives back the per-frame states. */
  lemma {:induction false} ExpandGivesStates(segs: seq<Segment>, fs: seq<Frame>, quiet: real, n: nat)
    requires Encodes(segs, fs, quiet, n)
    ensures Expand(segs) == States(fs, quiet)[..n]
    decreases |segs|
  {
    if segs != [] {
      var s := segs[|segs| - 1];
      DropLast(segs, fs, quiet, n);
      ExpandGivesStates(segs[..|segs| - 1], fs, quiet, s.start);
    }
  }

  /** Every frame lies in one segment and only one. */
  lemma {:induction false} FrameInOneSegment(segs: seq<Segment>, fs: seq<Frame>, quiet: real, n: nat, k: nat)
    returns (i: nat)
    requires Encodes(segs, fs, quiet, n) && k < n
    ensures i < |segs| && segs[i].start <= k <= segs[i].end
    ensures forall j :: 0 <= j < |segs| && segs[j].start <= k <= segs[j].end ==> j == i
    decreases |segs|
  {
    var last := |segs| - 1;
    DropLast(segs, fs, quiet, n);
    if segs[last].start <= k {
      i := last;
      forall j | 0 <= j < last ensures segs[j].end < segs[last].start { EndsBefore(segs, fs, quiet, n, j, last); }
    } else {
      i := FrameInOneSegment(segs[..last], fs, quiet, segs[last].start, k);
      assert forall j :: 0 <= j < last ==> segs[..last][j] == segs[j];
    }
  }

  lemma {:induction false} EndsBefore(segs: seq<Segment>, fs: seq<Frame>, quiet: real, n: nat, i: nat, j: nat)
    requires Encodes(segs, fs, quiet, n) && i < j < |segs|
    ensures segs[i].end < segs[j].start
    decreases j
  {
    if i + 1 < j { EndsBefore(segs, fs, quiet, n, i, j - 1); }
  }

  /** The run-length code of a trajectory is unique: the one-frame shortcut and the loop
      cannot disagree, and neither can any other maximal segmentation. */
  lemma {:induction false} EncodingUnique(a: seq<Segment>, b: seq<Segment>, fs: seq<Frame>, quiet: real, n: nat)
    requires Encodes(a, fs, quiet, n) && Encodes(b, fs, quiet, n)
    ensures a == b
    decreases |a|
  {
    if n > 0 {
      var s, t := a[|a| - 1], b[|b| - 1];
      LastStartUnique(a, b, fs, quiet, n);
      DropLast(a, fs, quiet, n);
      DropLast(b, fs, quiet, n);
      EncodingUnique(a[..|a| - 1], b[..|b| - 1], fs, quiet, s.start);
      assert |a| - 1 == |a[..|a| - 1]| == |b[..|b| - 1]| == |b| - 1;
      SameSegment(s, t, |a| - 1, fs, quiet);
      Reassemble(a, b);
    }
  }

  lemma SameSegment(s: Segment, t: Segment, i: nat, fs: seq<Frame>, quiet: real)
    requires SegmentOk(s, i, fs, quiet) && SegmentOk(t, i, fs, quiet) && s.start == t.start && s.end == t.end
    ensures s == t
  {
    assert StateOf(fs[s.start], quiet) == s.kind;
    assert StateOf(fs[t.start], quiet) == t.kind;
  }

  lemma Reassemble(a: seq<Segment>, b: seq<Segment>)
    requires a != [] && b != [] && a[..|a| - 1] == b[..|b| - 1] && a[|a| - 1] == b[|b| - 1]
    ensures a == b
  {
    assert a == a[..|a| - 1] + [a[|a| - 1]] && b == b[..|b| - 1] + [b[|b| - 1]];
  }

  lemma LastStartUnique(a: seq<Segment>, b: seq<Segment>, fs: seq<Frame>, quiet: real, n: nat)
    requires Encodes(a, fs, quiet, n) && Encodes(b, fs, quiet, n) && n > 0
    ensures a[|a| - 1].start == b[|b| - 1].start
  {
    NotLater(a, b, fs, quiet, n);
    NotLater(b, a, fs, quiet, n);
  }

  lemma NotLater(a: seq<Segment>, b: seq<Segment>, fs: seq<Frame>, quiet: real, n: nat)
    requires Encodes(a, fs, quiet, n) && Encodes(b, fs, quiet, n) && n > 0
    ensures a[|a| - 1].start <= b[|b| - 1].start
  {
    var s, t := a[|a| - 1], b[|b| - 1];
    assert SegmentOk(s, |a| - 1, fs, quiet) && SegmentOk(t, |b| - 1, fs, quiet);
    assert StateOf(fs[n - 1], quiet) == s.kind == t.kind;
    var m := |a| - 1;
    if m > 0 {
      var p := a[m - 1];
      assert SegmentOk(p, m - 1, fs, quiet);
      assert a[m].kind != a[m - 1].kind && a[m].start == a[m - 1].end + 1;
      assert StateOf(fs[p.end], quiet) == p.kind;
    }
  }

  // ---------- totals ----------

  /** Segment distances, each preceded by the step that leads into it. */
  function Distances(segs: seq<Segment>, fs: seq<Frame>): real {
    if segs == [] then 0.0
    else
      var s := segs[|segs| - 1];
      Distances(segs[..|segs| - 1], fs) + s.distance +
      (if |segs| > 1 && s.start < |fs| then fs[s.start].delta else 0.0)
  }

  /** Segment durations, each preceded by the gap since the frame before it. */
  function Durations(segs: seq<Segment>, fs: seq<Frame>): real {
    if segs == [] then 0.0
    else
      var s := segs[|segs| - 1];
      Durations(segs[..|segs| - 1], fs) + s.duration +
      (if |segs| > 1 && 0 < s.start < |fs| then fs[s.start].time - fs[s.start - 1].time else 0.0)
  }

  lemma {:induction false} TravelSplits(fs: seq<Frame>, lo: nat, mid: nat, hi: nat)
    requires lo < mid <= hi < |fs|
    ensures Travel(fs, lo, hi) == Travel(fs, lo, mid - 1) + fs[mid].delta + Travel(fs, mid, hi)
    decreases hi
  {
    if mid < hi { TravelSplits(fs, lo, mid, hi - 1); }
  }

  /** Distances plus boundary steps are the whole path, and durations plus boundary gaps
      the whole time: segmentation neither loses nor double counts anything. */
  lemma {:induction false} TotalsConserved(segs: seq<Segment>, fs: seq<Frame>, quiet: real, n: nat)
    requires Encodes(segs, fs, quiet, n) && n > 0
    ensures Distances(segs, fs) == Travel(fs, 0, n - 1)
    ensures Durations(segs, fs) == fs[n - 1].time - fs[0].time
    decreases |segs|
  {
    var s := segs[|segs| - 1];
    DropLast(segs, fs, quiet, n);
    assert SegmentOk(s, |segs| - 1, fs, quiet);
    if |segs| == 1 {
      assert segs[..0] == [];
    } else {
      TotalsConserved(segs[..|segs| - 1], fs, quiet, s.start);
      TravelSplits(fs, 0, s.start, n - 1);
    }
  }
}
