/**
 Cross-shard episode grouping (src/robot_dh/lake/hf_adapters.py, lines 921-1083): shard
 columns are concatenated, rows are grouped by episode and sorted by frame, stably.
 Poses and actions are opaque; a missing (NaN) timestamp is None.
 */
module Episodes {
  import opened Wrappers

  /** Parallel columns, one entry per row; actions are all there or not at all. */
  datatype Columns = Columns(eps: seq<int>, frames: seq<int>, times: seq<Option<real>>, poses: seq<int>,
                             actions: Option<seq<int>>)

  /** One row across all columns. */
  datatype Row = Row(ep: int, frame: int, time: Option<real>, pose: int, action: Option<int>)

  /** What is emitted for an episode. */
  datatype Bundle = Bundle(ep: int, poses: seq<int>, times: Option<seq<real>>, actions: Option<seq<int>>)

  predicate Aligned(c: Columns) {
    |c.eps| == |c.frames| == |c.times| == |c.poses| && (c.actions.Some? ==> |c.actions.value| == |c.poses|)
  }

  function RowAt(c: Columns, i: nat): Row
    requires Aligned(c) && i < |c.poses|
  {
    Row(c.eps[i], c.frames[i], c.times[i], c.poses[i], if c.actions.Some? then Some(c.actions.value[i]) else None)
  }

  function RowsOf(c: Columns): (r: seq<Row>)
    requires Aligned(c)
    ensures |r| == |c.poses|
  {
    seq(|c.poses|, i requires 0 <= i < |c.poses| => RowAt(c, i))
  }

  // ---------- concatenating shards ----------

  predicate AllAligned(rs: seq<Columns>) { forall i :: 0 <= i < |rs| ==> Aligned(rs[i]) }

  predicate AllHaveActions(rs: seq<Columns>) { forall i :: 0 <= i < |rs| ==> rs[i].actions.Some? }

  /** Column-wise concatenation; actions survive only if every record has them. */
  function Concat(rs: seq<Columns>): (c: Columns)
    requires AllAligned(rs)
    ensures Aligned(c) && (c.actions.Some? <==> AllHaveActions(rs))
  {
    if rs == [] then Columns([], [], [], [], Some([]))
    else
      var n := |rs| - 1;
      var c := Concat(rs[..n]);
      Columns(c.eps + rs[n].eps, c.frames + rs[n].frames, c.times + rs[n].times, c.poses + rs[n].poses,
              if c.actions.Some? && rs[n].actions.Some? then Some(c.actions.value + rs[n].actions.value) else None)
  }

  // ---------- grouping and sorting ----------

  /** np.flatnonzero(eps == ep). */
  function Indices(eps: seq<int>, ep: int): (r: seq<nat>)
    ensures forall k :: 0 <= k < |r| ==> r[k] < |eps|
  {
    if eps == [] then []
    else
      var n := |eps| - 1;
      var r := Indices(eps[..n], ep);
      if eps[n] == ep then r + [n] else r
  }

  predicate InBounds(order: seq<nat>, frames: seq<int>) { forall k :: 0 <= k < |order| ==> order[k] < |frames| }

  /** Insert `x` behind every index whose frame is not greater. */
  function InsertStable(frames: seq<int>, x: nat, order: seq<nat>): (r: seq<nat>)
    requires x < |frames| && InBounds(order, frames)
    ensures InBounds(r, frames)
  {
    if order == [] || frames[order[|order| - 1]] <= frames[x] then order + [x]
    else InsertStable(frames, x, order[..|order| - 1]) + [order[|order| - 1]]
  }

  /** idx[np.argsort(frames[idx], kind="stable")]. */
  function StableSort(frames: seq<int>, idx: seq<nat>): (r: seq<nat>)
    requires InBounds(idx, frames)
    ensures InBounds(r, frames)
  {
    if idx == [] then [] else InsertStable(frames, idx[|idx| - 1], StableSort(frames, idx[..|idx| - 1]))
  }

  function OrderOf(c: Columns, ep: int): (r: seq<nat>)
    requires Aligned(c)
    ensures InBounds(r, c.frames)
  {
    StableSort(c.frames, Indices(c.eps, ep))
  }

  function Gather<T>(xs: seq<T>, order: seq<nat>): (r: seq<T>)
    requires forall k :: 0 <= k < |order| ==> order[k] < |xs|
    ensures |r| == |order|
  {
    seq(|order|, k requires 0 <= k < |order| => xs[order[k]])
  }

  /** All missing: no timestamps; otherwise missing ones read as zero. */
  function FillTimes(ts: seq<Option<real>>): Option<seq<real>> {
    if forall i :: 0 <= i < |ts| ==> ts[i].None? then None
    else Some(seq(|ts|, i requires 0 <= i < |ts| => if ts[i].Some? then ts[i].value else 0.0))
  }

  /** Each column of the episode, picked with one and the same order. */
  function BundleOf(c: Columns, ep: int): Bundle
    requires Aligned(c)
  {
    var order := OrderOf(c, ep);
    Bundle(ep, Gather(c.poses, order), FillTimes(Gather(c.times, order)),
           if c.actions.Some? then Some(Gather(c.actions.value, order)) else None)
  }

  /** pd.unique: episode numbers in order of first appearance. */
  method Unique(eps: seq<int>) returns (u: seq<int>)
    ensures forall i, j :: 0 <= i < j < |u| ==> u[i] != u[j]
    ensures forall x :: x in u <==> x in eps
  {
    u := [];
    for i := 0 to |eps|
      invariant forall a, b :: 0 <= a < b < |u| ==> u[a] != u[b]
      invariant forall x :: x in u <==> x in eps[..i]
    {
      assert eps[..i + 1] == eps[..i] + [eps[i]];
      if eps[i] !in u { u := u + [eps[i]]; }
    }
    assert eps[..|eps|] == eps;
  }

  /** The emitting loop: one bundle per episode number, none repeated, none missing. */
  method EmitEpisodes(c: Columns) returns (out: seq<Bundle>)
    requires Aligned(c)
    ensures forall k :: 0 <= k < |out| ==> out[k] == BundleOf(c, out[k].ep)
    ensures forall i, j :: 0 <= i < j < |out| ==> out[i].ep != out[j].ep
    ensures forall x :: x in c.eps <==> exists k :: 0 <= k < |out| && out[k].ep == x
  {
    out := [];
    var unique := Unique(c.eps);
    for u := 0 to |unique|
      invariant |out| == u
      invariant forall k :: 0 <= k < u ==> out[k].ep == unique[k] && out[k] == BundleOf(c, unique[k])
    {
      out := out + [BundleOf(c, unique[u])];
    }
    forall x | x in c.eps ensures exists k :: 0 <= k < |out| && out[k].ep == x {
      var k :| 0 <= k < |unique| && unique[k] == x;
      assert out[k].ep == x;
    }
    forall k | 0 <= k < |out| ensures out[k].ep in c.eps { assert unique[k] in unique; }
  }

  // ---------- the order is a stable sort of the episode's rows ----------

  /** Strictly increasing by (frame, position). */
  predicate StablySorted(frames: seq<int>, order: seq<nat>)
    requires InBounds(order, frames)
  {
    forall i, j :: 0 <= i < j < |order| ==>
      frames[order[i]] < frames[order[j]] || (frames[order[i]] == frames[order[j]] && order[i] < order[j])
  }

  lemma {:induction false} IndicesAre(eps: seq<int>, ep: int)
    ensures forall i: nat :: i in Indices(eps, ep) <==> i < |eps| && eps[i] == ep
    ensures forall a, b :: 0 <= a < b < |Indices(eps, ep)| ==> Indices(eps, ep)[a] < Indices(eps, ep)[b]
  {
    if eps != [] {
      var n := |eps| - 1;
      IndicesAre(eps[..n], ep);
      assert forall i: nat :: i < n ==> eps[..n][i] == eps[i];
    }
  }

  lemma {:induction false} InsertMembers(frames: seq<int>, x: nat, order: seq<nat>)
    requires x < |frames| && InBounds(order, frames)
    ensures forall i :: i in InsertStable(frames, x, order) <==> i in order || i == x
  {
    if order != [] && frames[order[|order| - 1]] > frames[x] {
      InsertMembers(frames, x, order[..|order| - 1]);
      assert order == order[..|order| - 1] + [order[|order| - 1]];
    }
  }

  predicate Precedes(frames: seq<int>, a: nat, b: nat)
    requires a < |frames| && b < |frames|
  {
    frames[a] < frames[b] || (frames[a] == frames[b] && a < b)
  }

  lemma {:induction false} InsertKeepsSorted(frames: seq<int>, x: nat, order: seq<nat>)
    requires x < |frames| && InBounds(order, frames) && StablySorted(frames, order)
    requires forall i :: i in order ==> i < x
    ensures StablySorted(frames, InsertStable(frames, x, order))
  {
    if order == [] || frames[order[|order| - 1]] <= frames[x] {
      forall k | 0 <= k < |order| ensures Precedes(frames, order[k], x) {
        assert order[k] in order;
        if k < |order| - 1 { assert Precedes(frames, order[k], order[|order| - 1]); }
      }
    } else {
      var n := |order| - 1;
      var r := InsertStable(frames, x, order[..n]);
      forall i | i in order[..n] ensures i < x { assert i in order; }
      InsertKeepsSorted(frames, x, order[..n]);
      InsertMembers(frames, x, order[..n]);
      assert order[n] in order;
      forall k | 0 <= k < |r| ensures Precedes(frames, r[k], order[n]) {
        assert r[k] in r;
        if r[k] != x {
          var m :| 0 <= m < n && order[..n][m] == r[k];
          assert Precedes(frames, order[m], order[n]);
        }
      }
    }
  }

  lemma {:induction false} StableSortMembers(frames: seq<int>, idx: seq<nat>)
    requires InBounds(idx, frames)
    ensures forall i :: i in StableSort(frames, idx) <==> i in idx
  {
    if idx != [] {
      var n := |idx| - 1;
      StableSortMembers(frames, idx[..n]);
      InsertMembers(frames, idx[n], StableSort(frames, idx[..n]));
      assert idx == idx[..n] + [idx[n]];
    }
  }

  lemma {:induction false} StableSortSorts(frames: seq<int>, idx: seq<nat>)
    requires InBounds(idx, frames) && forall a, b :: 0 <= a < b < |idx| ==> idx[a] < idx[b]
    ensures StablySorted(frames, StableSort(frames, idx))
  {
    if idx != [] {
      var n := |idx| - 1;
      StableSortSorts(frames, idx[..n]);
      StableSortMembers(frames, idx[..n]);
      assert forall a :: 0 <= a < n ==> idx[..n][a] == idx[a];
      InsertKeepsSorted(frames, idx[n], StableSort(frames, idx[..n]));
    }
  }

  lemma OrderIsStable(c: Columns, ep: int)
    requires Aligned(c)
    ensures StablySorted(c.frames, OrderOf(c, ep))
    ensures forall i: nat :: i in OrderOf(c, ep) <==> i < |c.eps| && c.eps[i] == ep
  {
    IndicesAre(c.eps, ep);
    StableSortSorts(c.frames, Indices(c.eps, ep));
    StableSortMembers(c.frames, Indices(c.eps, ep));
  }

  // ---------- main results ----------

  /** The bundle that a list of rows makes. */
  function FromRows(ep: int, rows: seq<Row>, withActions: bool): Bundle {
    Bundle(ep, seq(|rows|, k requires 0 <= k < |rows| => rows[k].pose),
           FillTimes(seq(|rows|, k requires 0 <= k < |rows| => rows[k].time)),
           if withActions then
             Some(seq(|rows|, k requires 0 <= k < |rows| => if rows[k].action.Some? then rows[k].action.value else 0))
           else None)
  }

  /** The rows of an episode, in emitted order. */
  function EpisodeRows(c: Columns, ep: int): seq<Row>
    requires Aligned(c)
  {
    Gather(RowsOf(c), OrderOf(c, ep))
  }

  lemma BundleIsFromRows(c: Columns, ep: int)
    requires Aligned(c)
    ensures BundleOf(c, ep) == FromRows(ep, EpisodeRows(c, ep), c.actions.Some?)
    ensures forall k :: 0 <= k < |EpisodeRows(c, ep)| ==> EpisodeRows(c, ep)[k].ep == ep
    ensures forall i, j :: 0 <= i < j < |EpisodeRows(c, ep)| ==>
      EpisodeRows(c, ep)[i].frame <= EpisodeRows(c, ep)[j].frame
  {
    OrderIsStable(c, ep);
    var rows, order := EpisodeRows(c, ep), OrderOf(c, ep);
    assert seq(|rows|, k requires 0 <= k < |rows| => rows[k].pose) == Gather(c.poses, order);
    assert seq(|rows|, k requires 0 <= k < |rows| => rows[k].time) == Gather(c.times, order);
    if c.actions.Some? {
      assert seq(|rows|, k requires 0 <= k < |rows| => if rows[k].action.Some? then rows[k].action.value else 0) ==
             Gather(c.actions.value, order);
    }
    forall k | 0 <= k < |rows| ensures rows[k].ep == ep { assert order[k] in order; }
  }

  lemma FillTimesMean(ts: seq<Option<real>>)
    ensures FillTimes(ts).None? <==> forall k :: 0 <= k < |ts| ==> ts[k].None?
    ensures FillTimes(ts).Some? ==>
      |FillTimes(ts).value| == |ts| &&
      forall k :: 0 <= k < |ts| ==> FillTimes(ts).value[k] == if ts[k].Some? then ts[k].value else 0.0
  {}

  /** What a list of rows makes, entry by entry. */
  lemma FromRowsMean(ep: int, rows: seq<Row>, withActions: bool)
    ensures var b := FromRows(ep, rows, withActions);
      b.ep == ep && |b.poses| == |rows| && (forall k :: 0 <= k < |rows| ==> b.poses[k] == rows[k].pose) &&
      (b.times.None? <==> forall k :: 0 <= k < |rows| ==> rows[k].time.None?) &&
      (b.times.Some? ==>
        |b.times.value| == |rows| &&
        forall k :: 0 <= k < |rows| ==>
          b.times.value[k] == if rows[k].time.Some? then rows[k].time.value else 0.0)
  {
    var ts := seq(|rows|, k requires 0 <= k < |rows| => rows[k].time);
    FillTimesMean(ts);
    assert forall k :: 0 <= k < |rows| ==> ts[k] == rows[k].time;
  }

  lemma ActionsOfRows(c: Columns, ep: int)
    requires Aligned(c)
    ensures var rows, b := EpisodeRows(c, ep), BundleOf(c, ep);
      (b.actions.Some? <==> c.actions.Some?) &&
      (b.actions.Some? ==>
        |b.actions.value| == |rows| && forall k :: 0 <= k < |rows| ==> rows[k].action == Some(b.actions.value[k]))
  {}

  /** Poses, times and actions of a bundle stay aligned: entry by entry they come from one
      and the same source row, in non-decreasing frame order. */
  lemma BundleRowsAligned(c: Columns, ep: int)
    requires Aligned(c)
    ensures BundleOf(c, ep) == FromRows(ep, EpisodeRows(c, ep), c.actions.Some?)
    ensures forall k :: 0 <= k < |EpisodeRows(c, ep)| ==> EpisodeRows(c, ep)[k].ep == ep
    ensures forall i, j :: 0 <= i < j < |EpisodeRows(c, ep)| ==>
      EpisodeRows(c, ep)[i].frame <= EpisodeRows(c, ep)[j].frame
    ensures var rows, b := EpisodeRows(c, ep), BundleOf(c, ep);
      b.ep == ep && |b.poses| == |rows| && (forall k :: 0 <= k < |rows| ==> b.poses[k] == rows[k].pose) &&
      (b.times.None? <==> forall k :: 0 <= k < |rows| ==> rows[k].time.None?) &&
      (b.times.Some? ==>
        |b.times.value| == |rows| &&
        forall k :: 0 <= k < |rows| ==>
          b.times.value[k] == if rows[k].time.Some? then rows[k].time.value else 0.0) &&
      (b.actions.Some? <==> c.actions.Some?) &&
      (b.actions.Some? ==>
        |b.actions.value| == |rows| &&
        forall k :: 0 <= k < |rows| ==> rows[k].action == Some(b.actions.value[k]))
  {
    BundleIsFromRows(c, ep);
    FromRowsMean(ep, EpisodeRows(c, ep), c.actions.Some?);
    ActionsOfRows(c, ep);
  }

  /** The rows of an episode are the columns' own entries, in the stable order. */
  lemma EpisodeRowsMean(c: Columns, ep: int, k: nat)
    requires Aligned(c) && k < |OrderOf(c, ep)|
    ensures var i := OrderOf(c, ep)[k];
      |EpisodeRows(c, ep)| == |OrderOf(c, ep)| && i < |c.poses| &&
      EpisodeRows(c, ep)[k] ==
        Row(c.eps[i], c.frames[i], c.times[i], c.poses[i], if c.actions.Some? then Some(c.actions.value[i]) else None)
  {}

  /** Every row lands in exactly one episode's bundle, at exactly one place. */
  lemma RowInOneBundle(c: Columns, i: nat) returns (k: nat)
    requires Aligned(c) && i < |c.poses|
    ensures k < |OrderOf(c, c.eps[i])| && OrderOf(c, c.eps[i])[k] == i
    ensures forall ep, j :: 0 <= j < |OrderOf(c, ep)| && OrderOf(c, ep)[j] == i ==> ep == c.eps[i] && j == k
  {
    var order := OrderOf(c, c.eps[i]);
    OrderIsStable(c, c.eps[i]);
    k :| 0 <= k < |order| && order[k] == i;
    forall ep, j | 0 <= j < |OrderOf(c, ep)| && OrderOf(c, ep)[j] == i ensures ep == c.eps[i] && j == k {
      OrderIsStable(c, ep);
      assert OrderOf(c, ep)[j] in OrderOf(c, ep);
    }
  }

  /** No two rows share episode and frame. */
  ghost predicate UniqueFrames(c: Columns)
    requires Aligned(c)
  {
    forall i, j :: 0 <= i < j < |c.poses| ==> !(c.eps[i] == c.eps[j] && c.frames[i] == c.frames[j])
  }

  /** Strictly increasing frames. */
  predicate FramesIncrease(rows: seq<Row>) {
    forall i, j :: 0 <= i < j < |rows| ==> rows[i].frame < rows[j].frame
  }

  lemma EpisodeRowsIncrease(c: Columns, ep: int)
    requires Aligned(c) && UniqueFrames(c)
    ensures FramesIncrease(EpisodeRows(c, ep))
  {
    var order, rows := OrderOf(c, ep), EpisodeRows(c, ep);
    OrderIsStable(c, ep);
    forall i, j | 0 <= i < j < |rows| ensures rows[i].frame < rows[j].frame {
      assert order[i] in order && order[j] in order;
      assert rows[i] == RowAt(c, order[i]) && rows[j] == RowAt(c, order[j]);
    }
  }

  lemma EpisodeRowIsRow(c: Columns, ep: int, r: Row)
    requires Aligned(c) && r in EpisodeRows(c, ep)
    ensures r in RowsOf(c) && r.ep == ep
  {
    var order, rows := OrderOf(c, ep), EpisodeRows(c, ep);
    OrderIsStable(c, ep);
    var k :| 0 <= k < |rows| && rows[k] == r;
    assert order[k] in order;
    assert RowsOf(c)[order[k]] == r;
  }

  lemma RowIsEpisodeRow(c: Columns, r: Row)
    requires Aligned(c) && r in RowsOf(c)
    ensures r in EpisodeRows(c, r.ep)
  {
    var order := OrderOf(c, r.ep);
    OrderIsStable(c, r.ep);
    var i :| 0 <= i < |RowsOf(c)| && RowsOf(c)[i] == r;
    assert i in order;
    var k :| 0 <= k < |order| && order[k] == i;
    assert EpisodeRows(c, r.ep)[k] == r;
  }

  lemma EpisodeRowsAre(c: Columns, ep: int)
    requires Aligned(c)
    ensures forall r :: r in EpisodeRows(c, ep) <==> r in RowsOf(c) && r.ep == ep
  {
    forall r ensures r in EpisodeRows(c, ep) <==> r in RowsOf(c) && r.ep == ep {
      if r in EpisodeRows(c, ep) { EpisodeRowIsRow(c, ep, r); }
      if r in RowsOf(c) && r.ep == ep { RowIsEpisodeRow(c, r); }
    }
  }

  /** Rows with strictly increasing frames are determined by which rows they are. */
  lemma {:induction false} IncreasingUnique(a: seq<Row>, b: seq<Row>)
    requires FramesIncrease(a) && FramesIncrease(b) && forall r :: r in a <==> r in b
    ensures a == b
  {
    SameEmpty(a, b);
    if a != [] {
      assert a[0] in a && b[0] in b;
      LeastFirst(a, b[0]);
      LeastFirst(b, a[0]);
      forall r ensures r in a[1..] <==> r in b[1..] {
        TailMember(a, r);
        TailMember(b, r);
      }
      IncreasingUnique(a[1..], b[1..]);
      assert a == [a[0]] + a[1..] && b == [b[0]] + b[1..];
    }
  }

  lemma SameEmpty(a: seq<Row>, b: seq<Row>)
    requires forall r :: r in a <==> r in b
    ensures a == [] <==> b == []
  {
    if a != [] { assert a[0] in a; }
    if b != [] { assert b[0] in b; }
  }

  lemma LeastFirst(a: seq<Row>, r: Row)
    requires FramesIncrease(a) && r in a
    ensures a != [] && (a[0] == r || a[0].frame < r.frame)
  {
    var k :| 0 <= k < |a| && a[k] == r;
  }

  lemma TailMember(a: seq<Row>, r: Row)
    requires FramesIncrease(a) && a != []
    ensures r in a[1..] <==> r in a && r != a[0]
  {
    if r in a[1..] {
      var k :| 0 <= k < |a[1..]| && a[1..][k] == r;
      assert a[k + 1] == r;
    }
    if r in a && r != a[0] {
      var k :| 0 <= k < |a| && a[k] == r;
      assert a[1..][k - 1] == r;
    }
  }

  /** When (episode, frame) pairs are unique, the bundles depend only on which rows there
      are: two concatenations with the same rows emit the same bundle for every episode. */
  lemma BundlesDependOnRowsOnly(c: Columns, d: Columns, ep: int)
    requires Aligned(c) && Aligned(d) && UniqueFrames(c) && UniqueFrames(d)
    requires c.actions.Some? == d.actions.Some?
    requires forall r :: r in RowsOf(c) <==> r in RowsOf(d)
    ensures BundleOf(c, ep) == BundleOf(d, ep)
    ensures ep in c.eps <==> ep in d.eps
  {
    EpisodeRowsAre(c, ep);
    EpisodeRowsAre(d, ep);
    EpisodeRowsIncrease(c, ep);
    EpisodeRowsIncrease(d, ep);
    IncreasingUnique(EpisodeRows(c, ep), EpisodeRows(d, ep));
    BundleRowsAligned(c, ep);
    BundleRowsAligned(d, ep);
    EpisodePresent(c, d, ep);
    EpisodePresent(d, c, ep);
  }

  lemma EpisodePresent(c: Columns, d: Columns, ep: int)
    requires Aligned(c) && Aligned(d) && forall r :: r in RowsOf(c) ==> r in RowsOf(d)
    ensures ep in c.eps ==> ep in d.eps
  {
    if ep in c.eps {
      var i :| 0 <= i < |c.eps| && c.eps[i] == ep;
      assert RowsOf(c)[i] in RowsOf(c);
      var j :| 0 <= j < |RowsOf(d)| && RowsOf(d)[j] == RowsOf(c)[i];
      assert d.eps[j] == ep;
    }
  }

  // ---------- from shards to rows ----------

  /** All rows of all records, each with the actions its own record has. */
  function RawRows(rs: seq<Columns>): seq<Row>
    requires AllAligned(rs)
  {
    if rs == [] then [] else RawRows(rs[..|rs| - 1]) + RowsOf(rs[|rs| - 1])
  }

  function DropActions(rows: seq<Row>): (r: seq<Row>)
    ensures |r| == |rows|
  {
    seq(|rows|, i requires 0 <= i < |rows| => rows[i].(action := None))
  }

  /** Two blocks of columns, one under the other. */
  lemma StackRows(c: Columns, d: Columns, e: Columns)
    requires Aligned(c) && Aligned(d) && Aligned(e)
    requires e.eps == c.eps + d.eps && e.frames == c.frames + d.frames && e.times == c.times + d.times
    requires e.poses == c.poses + d.poses
    requires e.actions == if c.actions.Some? && d.actions.Some? then Some(c.actions.value + d.actions.value) else None
    ensures RowsOf(e) == if e.actions.Some? then RowsOf(c) + RowsOf(d) else DropActions(RowsOf(c) + RowsOf(d))
  {
    var both := RowsOf(c) + RowsOf(d);
    forall i | 0 <= i < |e.poses|
      ensures RowsOf(e)[i] == if e.actions.Some? then both[i] else both[i].(action := None)
    {
      if i < |c.poses| { assert both[i] == RowAt(c, i); } else { assert both[i] == RowAt(d, i - |c.poses|); }
    }
  }

  lemma DropConcat(a: seq<Row>, b: seq<Row>)
    ensures DropActions(a + b) == DropActions(a) + DropActions(b)
    ensures DropActions(DropActions(a)) == DropActions(a)
  {}

  /** The rows as they come out when actions are kept, or not. */
  function Carried(rows: seq<Row>, withActions: bool): seq<Row> {
    if withActions then rows else DropActions(rows)
  }

  lemma CarriedStep(rows: seq<Row>, last: seq<Row>, before: bool, after: bool)
    requires after ==> before
    ensures Carried(Carried(rows, before) + last, after) == Carried(rows + last, after)
  {
    if !after {
      DropConcat(Carried(rows, before), last);
      DropConcat(rows, last);
    }
  }

  /** Concatenation keeps every row, and drops actions only when some record lacks them. */
  lemma {:induction false} ConcatRows(rs: seq<Columns>)
    requires AllAligned(rs)
    ensures RowsOf(Concat(rs)) == Carried(RawRows(rs), AllHaveActions(rs))
  {
    if rs != [] {
      var n := |rs| - 1;
      var c, last := Concat(rs[..n]), RowsOf(rs[n]);
      ConcatRows(rs[..n]);
      StackRows(c, rs[n], Concat(rs));
      CarriedStep(RawRows(rs[..n]), last, c.actions.Some?, Concat(rs).actions.Some?);
    }
  }

  /** No two rows share episode and frame. */
  ghost predicate UniqueKeys(rows: seq<Row>) {
    forall i, j :: 0 <= i < j < |rows| ==> !(rows[i].ep == rows[j].ep && rows[i].frame == rows[j].frame)
  }

  lemma {:induction false} TwoPlaces(xs: seq<Row>, r: Row) returns (a: nat, b: nat)
    requires multiset(xs)[r] >= 2
    ensures a < b < |xs| && xs[a] == r && xs[b] == r
  {
    var n := |xs| - 1;
    assert xs == xs[..n] + [xs[n]];
    if xs[n] == r {
      b := n;
      assert multiset(xs[..n])[r] >= 1;
      a :| 0 <= a < n && xs[..n][a] == r;
    } else {
      a, b := TwoPlaces(xs[..n], r);
    }
  }

  lemma TwiceCounts(xs: seq<Row>, i: nat, j: nat)
    requires i < j < |xs| && xs[i] == xs[j]
    ensures multiset(xs)[xs[i]] >= 2
  {
    assert xs == xs[..j] + [xs[j]] + xs[j + 1..];
    assert xs[..j][i] == xs[i];
    assert xs[i] in multiset(xs[..j]);
  }

  /** Uniqueness of keys is a property of the collection of rows. */
  lemma UniqueKeysTransfer(xs: seq<Row>, ys: seq<Row>)
    requires multiset(xs) == multiset(ys) && UniqueKeys(xs)
    ensures UniqueKeys(ys)
  {
    forall i, j | 0 <= i < j < |ys| ensures !(ys[i].ep == ys[j].ep && ys[i].frame == ys[j].frame) {
      if ys[i] == ys[j] {
        TwiceCounts(ys, i, j);
        var a, b := TwoPlaces(xs, ys[i]);
      } else {
        assert ys[i] in multiset(ys) && ys[j] in multiset(ys);
        assert ys[i] in xs && ys[j] in xs;
        var a :| 0 <= a < |xs| && xs[a] == ys[i];
        var b :| 0 <= b < |xs| && xs[b] == ys[j];
        assert a < b || b < a;
      }
    }
  }

  predicate NoneEmpty(rs: seq<Columns>) { forall i :: 0 <= i < |rs| ==> rs[i].poses != [] }

  lemma {:induction false} ActionsShow(rs: seq<Columns>)
    requires AllAligned(rs) && NoneEmpty(rs)
    ensures AllHaveActions(rs) <==> forall r :: r in RawRows(rs) ==> r.action.Some?
  {
    if rs != [] {
      var n := |rs| - 1;
      ActionsShow(rs[..n]);
      var last := RowsOf(rs[n]);
      assert last[0] in last;
      assert forall r :: r in RawRows(rs) <==> r in RawRows(rs[..n]) || r in last;
      assert AllHaveActions(rs) <==> AllHaveActions(rs[..n]) && rs[n].actions.Some?;
    }
  }

  lemma KeysOfConcat(rs: seq<Columns>)
    requires AllAligned(rs) && UniqueKeys(RawRows(rs))
    ensures UniqueFrames(Concat(rs))
  {
    ConcatRows(rs);
    var c, raw := Concat(rs), RawRows(rs);
    forall i, j | 0 <= i < j < |c.poses| ensures !(c.eps[i] == c.eps[j] && c.frames[i] == c.frames[j]) {
      assert RowsOf(c)[i].ep == raw[i].ep && RowsOf(c)[j].ep == raw[j].ep;
      assert RowsOf(c)[i].frame == raw[i].frame && RowsOf(c)[j].frame == raw[j].frame;
    }
  }

  lemma SameRows(rs: seq<Columns>, ts: seq<Columns>)
    requires AllAligned(rs) && AllAligned(ts) && NoneEmpty(rs) && NoneEmpty(ts)
    requires multiset(RawRows(rs)) == multiset(RawRows(ts))
    ensures AllHaveActions(rs) <==> AllHaveActions(ts)
    ensures forall r :: r in RowsOf(Concat(rs)) <==> r in RowsOf(Concat(ts))
  {
    var a, b := RawRows(rs), RawRows(ts);
    forall r ensures r in a <==> r in b { assert r in multiset(a) <==> r in multiset(b); }
    ActionsShow(rs);
    ActionsShow(ts);
    ConcatRows(rs);
    ConcatRows(ts);
    if !AllHaveActions(rs) {
      DroppedMembers(a, b);
      DroppedMembers(b, a);
    }
  }

  lemma DroppedMembers(a: seq<Row>, b: seq<Row>)
    requires forall r :: r in a ==> r in b
    ensures forall r :: r in DropActions(a) ==> r in DropActions(b)
  {
    forall r | r in DropActions(a) ensures r in DropActions(b) {
      var i :| 0 <= i < |a| && DropActions(a)[i] == r;
      assert a[i] in a;
      var j :| 0 <= j < |b| && b[j] == a[i];
      assert DropActions(b)[j] == r;
    }
  }

  /** The set of bundles depends neither on the order of the shards nor on how rows are
      spread over them: any two lists of accepted shards with the same collection of rows,
      (episode, frame) pairs unique, emit the same bundle for the same episodes. */
  lemma ShardingIrrelevant(rs: seq<Columns>, ts: seq<Columns>, ep: int)
    requires AllAligned(rs) && AllAligned(ts) && NoneEmpty(rs) && NoneEmpty(ts)
    requires multiset(RawRows(rs)) == multiset(RawRows(ts)) && UniqueKeys(RawRows(rs))
    ensures BundleOf(Concat(rs), ep) == BundleOf(Concat(ts), ep)
    ensures ep in Concat(rs).eps <==> ep in Concat(ts).eps
  {
    UniqueKeysTransfer(RawRows(rs), RawRows(ts));
    KeysOfConcat(rs);
    KeysOfConcat(ts);
    SameRows(rs, ts);
    BundlesDependOnRowsOnly(Concat(rs), Concat(ts), ep);
  }
}
