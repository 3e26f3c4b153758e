/**
 From shard files to episode bundles (src/robot_dh/lake/hf_adapters.py, lines 921-988 and
 1086-1157): what is read off each shard, and what a missing column does.
 */
module Shards {
  import opened Wrappers
  import opened Episodes

  /** The columns found in a shard file; the pose column decides the number of rows. */
  datatype Shard = Shard(poses: Option<seq<int>>, eps: Option<seq<int>>, frames: Option<seq<int>>,
                         times: Option<seq<Option<real>>>, actions: Option<seq<int>>)

  predicate Fits<T>(column: Option<seq<T>>, n: nat) { column.Some? ==> |column.value| == n }

  /** All columns of a table have its number of rows. */
  predicate ShardOk(s: Shard) {
    s.poses.Some? ==>
      var n := |s.poses.value|;
      Fits(s.eps, n) && Fits(s.frames, n) && Fits(s.times, n) && Fits(s.actions, n)
  }

  type Table = s: Shard | ShardOk(s) witness Shard(None, None, None, None, None)

  /** A shard that is empty, or has no pose column, is not accepted. */
  predicate Accepted(s: Table) { s.poses.Some? && s.poses.value != [] }

  function OrElse<T>(column: Option<seq<T>>, default: seq<T>): seq<T> {
    if column.Some? then column.value else default
  }

  /** Missing episode numbers read as zero, missing frames as the row position, missing
      times as NaN. */
  function Collect(s: Table): (c: Columns)
    requires Accepted(s)
    ensures Aligned(c) && c.poses != []
  {
    var n := |s.poses.value|;
    Columns(OrElse(s.eps, seq(n, i => 0)), OrElse(s.frames, seq(n, i => i)), OrElse(s.times, seq(n, i => None)),
            s.poses.value, s.actions)
  }

  /** The accepted ones of the shards that could be read. */
  function Usable(shards: seq<Option<Table>>): (r: seq<Table>)
    ensures forall i :: 0 <= i < |r| ==> Accepted(r[i])
  {
    if shards == [] then []
    else
      var n := |shards| - 1;
      var rest := Usable(shards[..n]);
      if shards[n].Some? && Accepted(shards[n].value) then rest + [shards[n].value] else rest
  }

  predicate AllAccepted(tables: seq<Table>) { forall i :: 0 <= i < |tables| ==> Accepted(tables[i]) }

  function Records(tables: seq<Table>): (rs: seq<Columns>)
    requires AllAccepted(tables)
    ensures |rs| == |tables| && AllAligned(rs) && NoneEmpty(rs)
    ensures forall i :: 0 <= i < |rs| ==> rs[i] == Collect(tables[i])
  {
    seq(|tables|, i requires 0 <= i < |tables| => Collect(tables[i]))
  }

  /** adapt_droid_lerobot_v2: nothing for no shards, an error if none can be used, else one
      bundle for every episode number found in the usable ones. */
  method Adapt(shards: seq<Option<Table>>) returns (out: Result<seq<Bundle>>)
    ensures out.Err? <==> shards != [] && Usable(shards) == []
    ensures shards == [] ==> out == Ok([])
    ensures out.Ok? && shards != [] ==>
      var c := Concat(Records(Usable(shards)));
      (forall b :: b in out.value <==> b.ep in c.eps && b == BundleOf(c, b.ep)) &&
      (forall i, j :: 0 <= i < j < |out.value| ==> out.value[i].ep != out.value[j].ep)
  {
    if shards == [] { return Ok([]); }
    var records: seq<Columns> := [];
    for i := 0 to |shards|
      invariant records == Records(Usable(shards[..i]))
    {
      assert shards[..i + 1][..i] == shards[..i];
      if shards[i].Some? && Accepted(shards[i].value) { records := records + [Collect(shards[i].value)]; }
    }
    assert shards[..|shards|] == shards;
    if records == [] { return Err; }
    var c := Concat(records);
    var bundles := EmitEpisodes(c);
    forall b ensures b in bundles <==> b.ep in c.eps && b == BundleOf(c, b.ep) {
      if b.ep in c.eps && b == BundleOf(c, b.ep) {
        var k :| 0 <= k < |bundles| && bundles[k].ep == b.ep;
        assert bundles[k] == b;
      }
    }
    out := Ok(bundles);
  }

  // ---------- spreading rows over shards ----------

  /** All rows of the tables, table by table. */
  function TableRows(tables: seq<Table>): seq<Row>
    requires AllAccepted(tables)
  {
    RawRows(Records(tables))
  }

  /** The bundles depend neither on the order of the shards nor on how rows are spread over
      them: two lists of usable shards with the same collection of rows, (episode, frame)
      pairs unique, lead to the same bundles. */
  lemma SpreadIrrelevant(a: seq<Table>, b: seq<Table>, ep: int)
    requires AllAccepted(a) && AllAccepted(b)
    requires multiset(TableRows(a)) == multiset(TableRows(b)) && UniqueKeys(TableRows(a))
    ensures BundleOf(Concat(Records(a)), ep) == BundleOf(Concat(Records(b)), ep)
    ensures ep in Concat(Records(a)).eps <==> ep in Concat(Records(b)).eps
  {
    ShardingIrrelevant(Records(a), Records(b), ep);
  }

  function CutColumn<T>(column: Option<seq<T>>, lo: nat, hi: nat): Option<seq<T>>
    requires lo <= hi && (column.Some? ==> hi <= |column.value|)
  {
    if column.Some? then Some(column.value[lo..hi]) else None
  }

  /** Rows `lo` up to `hi` of a shard, as a shard of their own. */
  function Cut(s: Table, lo: nat, hi: nat): (t: Table)
    requires Accepted(s) && lo < hi <= |s.poses.value|
    ensures Accepted(t)
  {
    Shard(CutColumn(s.poses, lo, hi), CutColumn(s.eps, lo, hi), CutColumn(s.frames, lo, hi),
          CutColumn(s.times, lo, hi), CutColumn(s.actions, lo, hi))
  }

  lemma FirstPart(s: Table, k: nat, i: nat)
    requires Accepted(s) && 0 < k < |s.poses.value| && i < k
    ensures RowAt(Collect(Cut(s, 0, k)), i) == RowAt(Collect(s), i)
  {}

  lemma SecondPart(s: Table, k: nat, i: nat)
    requires Accepted(s) && 0 < k < |s.poses.value| && k <= i < |s.poses.value|
    ensures RowAt(Collect(Cut(s, k, |s.poses.value|)), i - k) == RowAt(Collect(s), i) <==> s.frames.Some?
  {}

  /** Splitting a shard in two keeps its rows exactly if it has a frame column: without
      one, the frames of the second part start at zero again. A missing episode column
      does not matter here. */
  lemma SplitKeepsRowsIff(s: Table, k: nat)
    requires Accepted(s) && 0 < k < |s.poses.value|
    ensures TableRows([s]) == TableRows([Cut(s, 0, k), Cut(s, k, |s.poses.value|)]) <==> s.frames.Some?
  {
    var n := |s.poses.value|;
    var x, y := Cut(s, 0, k), Cut(s, k, n);
    SingleRows(s);
    PairRows(x, y);
    var whole, parts := RowsOf(Collect(s)), RowsOf(Collect(x)) + RowsOf(Collect(y));
    forall i | 0 <= i < n ensures parts[i] == whole[i] <==> i < k || s.frames.Some? {
      if i < k { FirstPart(s, k, i); } else { SecondPart(s, k, i); }
    }
    assert parts[k] == whole[k] <==> s.frames.Some?;
  }

  lemma SingleRows(s: Table)
    requires Accepted(s)
    ensures TableRows([s]) == RowsOf(Collect(s))
  {
    var rs := Records([s]);
    assert rs == [Collect(s)] && rs[..0] == [];
    assert RawRows(rs) == RawRows(rs[..0]) + RowsOf(rs[0]);
    assert RawRows(rs[..0]) == [];
  }

  lemma PairRows(s: Table, t: Table)
    requires Accepted(s) && Accepted(t)
    ensures TableRows([s, t]) == RowsOf(Collect(s)) + RowsOf(Collect(t))
  {
    var rs := Records([s, t]);
    assert rs == [Collect(s), Collect(t)] && rs[..1] == Records([s]);
    SingleRows(s);
    assert RawRows(rs) == RawRows(rs[..1]) + RowsOf(rs[1]);
  }

  // ---------- shards without an episode column ----------

  /** Where a record's rows begin in the concatenation. */
  function Offset(rs: seq<Columns>, i: nat): nat
    requires AllAligned(rs) && i <= |rs|
  {
    |Concat(rs[..i]).eps|
  }

  lemma ConcatStep(rs: seq<Columns>, i: nat)
    requires AllAligned(rs) && i < |rs|
    ensures Concat(rs[..i + 1]).eps == Concat(rs[..i]).eps + rs[i].eps
    ensures Offset(rs, i + 1) == Offset(rs, i) + |rs[i].eps|
  {
    assert rs[..i + 1][..i] == rs[..i];
  }

  lemma {:induction false} EpsAt(rs: seq<Columns>, i: nat, m: nat)
    requires AllAligned(rs) && i < m <= |rs|
    ensures Offset(rs, i) + |rs[i].eps| <= Offset(rs, m)
    ensures forall r :: 0 <= r < |rs[i].eps| ==> Concat(rs[..m]).eps[Offset(rs, i) + r] == rs[i].eps[r]
    decreases m
  {
    ConcatStep(rs, m - 1);
    if i < m - 1 { EpsAt(rs, i, m - 1); }
  }

  lemma {:induction false} RowHome(rs: seq<Columns>, m: nat, r: nat) returns (j: nat)
    requires AllAligned(rs) && m <= |rs| && r < Offset(rs, m)
    ensures j < m && Offset(rs, j) <= r < Offset(rs, j) + |rs[j].eps|
    decreases m
  {
    ConcatStep(rs, m - 1);
    if r < Offset(rs, m - 1) { j := RowHome(rs, m - 1, r); } else { j := m - 1; }
  }

  /** Record `i` is an episode of its own: the rows of episode zero are exactly its rows. */
  ghost predicate OwnEpisode(rs: seq<Columns>, i: nat)
    requires AllAligned(rs) && i < |rs|
  {
    forall r :: 0 <= r < |Concat(rs).eps| ==>
      (Concat(rs).eps[r] == 0 <==> Offset(rs, i) <= r < Offset(rs, i) + |rs[i].eps|)
  }

  /** All shards without an episode column are merged into episode zero. */
  lemma MissingColumnMerges(tables: seq<Table>, i: nat, r: nat)
    requires AllAccepted(tables) && i < |tables| && tables[i].eps.None? && r < |tables[i].poses.value|
    ensures var rs := Records(tables);
      Offset(rs, i) + r < |Concat(rs).eps| && Concat(rs).eps[Offset(rs, i) + r] == 0
  {
    var rs := Records(tables);
    assert rs[i].eps == seq(|tables[i].poses.value|, k => 0) && rs[i].eps[r] == 0;
    EpsAt(rs, i, |rs|);
    assert rs[..|rs|] == rs;
  }

  /** No other shard has a row of episode zero. */
  predicate ZeroIsFree(tables: seq<Table>, i: nat) {
    forall j :: 0 <= j < |tables| && j != i ==> tables[j].eps.Some? && 0 !in tables[j].eps.value
  }

  lemma OwnEpisodeIff(tables: seq<Table>, i: nat)
    requires AllAccepted(tables) && i < |tables| && tables[i].eps.None?
    ensures OwnEpisode(Records(tables), i) <==> ZeroIsFree(tables, i)
  {
    var rs := Records(tables);
    var all := Concat(rs).eps;
    assert rs[..|rs|] == rs;
    if ZeroIsFree(tables, i) {
      forall r | 0 <= r < |all| ensures all[r] == 0 <==> Offset(rs, i) <= r < Offset(rs, i) + |rs[i].eps| {
        var j := RowHome(rs, |rs|, r);
        EpsAt(rs, j, |rs|);
        OneHome(rs, i, j, r);
        assert all[r] == rs[j].eps[r - Offset(rs, j)];
        if j != i { assert rs[j].eps[r - Offset(rs, j)] in tables[j].eps.value; }
      }
    } else {
      var j :| 0 <= j < |tables| && j != i && (tables[j].eps.None? || 0 in tables[j].eps.value);
      var r: nat :| r < |rs[j].eps| && rs[j].eps[r] == 0 by { ZeroRow(tables, j); }
      EpsAt(rs, j, |rs|);
      OneHome(rs, i, j, Offset(rs, j) + r);
      assert all[Offset(rs, j) + r] == 0;
    }
  }

  lemma ZeroRow(tables: seq<Table>, j: nat)
    requires AllAccepted(tables) && j < |tables| && (tables[j].eps.None? || 0 in tables[j].eps.value)
    ensures exists r: nat :: r < |Records(tables)[j].eps| && Records(tables)[j].eps[r] == 0
  {
    var eps := Records(tables)[j].eps;
    if tables[j].eps.None? {
      assert eps[0] == 0;
    } else {
      var r :| 0 <= r < |eps| && eps[r] == 0;
    }
  }

  /** A row lies in one record only. */
  lemma OneHome(rs: seq<Columns>, i: nat, j: nat, r: nat)
    requires AllAligned(rs) && i < |rs| && j < |rs| && Offset(rs, j) <= r < Offset(rs, j) + |rs[j].eps|
    ensures Offset(rs, i) <= r < Offset(rs, i) + |rs[i].eps| ==> i == j
  {
    if i < j { EpsAt(rs, i, j); }
    if j < i { EpsAt(rs, j, i); }
  }

  /** The promise that a shard without an episode column is an episode of its own is kept
      for every such shard if and only if there is at most one of them, and then no other
      row carries episode number zero. */
  lemma OwnEpisodesIff(tables: seq<Table>)
    requires AllAccepted(tables)
    ensures (forall i :: 0 <= i < |tables| && tables[i].eps.None? ==> OwnEpisode(Records(tables), i)) <==>
      (forall i :: 0 <= i < |tables| && tables[i].eps.None? ==> ZeroIsFree(tables, i))
  {
    forall i | 0 <= i < |tables| && tables[i].eps.None?
      ensures OwnEpisode(Records(tables), i) <==> ZeroIsFree(tables, i)
    {
      OwnEpisodeIff(tables, i);
    }
  }

  // ---------- what is read off a shard ----------

  /** Each column of a record: the shard's own, or zeros, row positions and missing times. */
  lemma CollectMeans(s: Table)
    requires Accepted(s)
    ensures var c := Collect(s);
      s.poses == Some(c.poses) && c.actions == s.actions &&
      (s.eps.Some? ==> c.eps == s.eps.value) && (s.frames.Some? ==> c.frames == s.frames.value) &&
      (s.times.Some? ==> c.times == s.times.value) &&
      forall i :: 0 <= i < |c.poses| ==>
        (s.eps.None? ==> c.eps[i] == 0) && (s.frames.None? ==> c.frames[i] == i) &&
        (s.times.None? ==> c.times[i] == None)
  {}

  /** The usable shards: those read that have a pose column with rows, as often as given. */
  lemma {:induction false} UsableMeans(shards: seq<Option<Table>>)
    ensures forall t: Table | t.poses.Some? && t.poses.value != [] ::
      multiset(Usable(shards))[t] == multiset(shards)[Some(t)]
    ensures forall t <- Usable(shards) :: t.poses.Some? && t.poses.value != []
  {
    if shards != [] {
      var n := |shards| - 1;
      UsableMeans(shards[..n]);
      assert shards == shards[..n] + [shards[n]];
    }
  }

  /** Row `k` of one record is row `r` of another, as far as it keeps actions. */
  predicate SameRow(c: Columns, k: nat, d: Columns, r: nat)
    requires Aligned(c) && Aligned(d)
  {
    k < |c.poses| && r < |d.poses| && c.eps[k] == d.eps[r] && c.frames[k] == d.frames[r] &&
    c.times[k] == d.times[r] && c.poses[k] == d.poses[r] &&
    (c.actions.Some? ==> d.actions.Some? && c.actions.value[k] == d.actions.value[r])
  }

  lemma LastRecord(rs: seq<Columns>, m: nat, r: nat)
    requires AllAligned(rs) && m < |rs| && r < |rs[m].poses|
    ensures SameRow(Concat(rs[..m + 1]), Offset(rs, m) + r, rs[m], r)
  {
    assert rs[..m + 1][..m] == rs[..m];
  }

  lemma EarlierRecords(rs: seq<Columns>, m: nat, k: nat)
    requires AllAligned(rs) && m < |rs| && k < Offset(rs, m)
    ensures SameRow(Concat(rs[..m + 1]), k, Concat(rs[..m]), k)
  {
    assert rs[..m + 1][..m] == rs[..m];
  }

  /** Row by row, a concatenation holds the records' own rows, one record after the other. */
  lemma {:induction false} RowsAt(rs: seq<Columns>, i: nat, m: nat, r: nat)
    requires AllAligned(rs) && i < m <= |rs| && r < |rs[i].poses|
    ensures Offset(rs, i) + r < Offset(rs, m) && SameRow(Concat(rs[..m]), Offset(rs, i) + r, rs[i], r)
    decreases m
  {
    if i < m - 1 {
      RowsAt(rs, i, m - 1, r);
      EarlierRecords(rs, m - 1, Offset(rs, i) + r);
    } else {
      LastRecord(rs, i, r);
    }
  }
}
