/**
 Building inference samples and cutting them into batches
 (src/robot_dh/inference/batch.py, lines 53-74, 116-148, 171-175).
 */
module Batches {
  import opened Wrappers
  import opened Schemas

  // ---------- iter_batches ----------

  /** The slices `samples[start : start + size]`; a size below one counts as one. Glued
      together they are the samples again, none is empty, and all but the last are full. */
  method IterBatches<T>(samples: seq<T>, batchSize: int) returns (batches: seq<seq<T>>)
    ensures Flatten(batches) == samples
    ensures forall b :: 0 <= b < |batches| ==> batches[b] != []
    ensures forall b :: 0 <= b < |batches| - 1 ==> |batches[b]| == if batchSize > 1 then batchSize else 1
    ensures batches != [] ==> |batches[|batches| - 1]| <= if batchSize > 1 then batchSize else 1
  {
    var size := if batchSize > 1 then batchSize else 1;
    batches := [];
    var start := 0;
    while start < |samples|
      invariant 0 <= start
      invariant Flatten(batches) == samples[..if start < |samples| then start else |samples|]
      invariant forall b :: 0 <= b < |batches| ==> batches[b] != [] && |batches[b]| <= size
      invariant forall b :: 0 <= b < |batches| - 1 ==> |batches[b]| == size
      invariant start < |samples| && batches != [] ==> |batches[|batches| - 1]| == size
      decreases |samples| - start
    {
      var stop := if start + size < |samples| then start + size else |samples|;
      var batch := samples[start..stop];
      assert (batches + [batch])[..|batches|] == batches;
      assert samples[..start] + batch == samples[..stop];
      batches := batches + [batch];
      start := start + size;
    }
  }

  // ---------- sample identifiers ----------

  /** One input row; `payload` stands for the columns carried over unread. */
  datatype Row = Row(sampleId: Option<string>, dataset: Option<string>, version: Option<string>,
                     episode: Option<string>, payload: int)

  function Digit(d: nat): (c: char)
    requires d < 10
  {
    "0123456789"[d]
  }

  /** Python's `str(n)` for a natural number. */
  function Decimal(n: nat): string {
    if n < 10 then [Digit(n)] else Decimal(n / 10) + [Digit(n % 10)]
  }

  function OrElse(x: Option<string>, default: string): string {
    if x.None? || x.value == "" then default else x.value
  }

  /** The row's own text if it has one, else the builder's: `row or default`. */
  function RowOr(own: Option<string>, default: Option<string>): Option<string> {
    if own.Some? && own.value != "" then own else default
  }

  function EpisodeOf(row: Row, index: nat): string {
    if row.episode.Some? then row.episode.value else Decimal(index)
  }

  /** f"{ds or 'unknown'}:{ver or 'v1'}:{episode}:{row_index}". */
  function GeneratedId(row: Row, dataset: Option<string>, version: Option<string>, index: nat): string {
    IdPrefix(row, dataset, version, index) + ":" + Decimal(index)
  }

  function IdPrefix(row: Row, dataset: Option<string>, version: Option<string>, index: nat): string {
    OrElse(RowOr(row.dataset, dataset), "unknown") + ":" + OrElse(RowOr(row.version, version), "v1") + ":" +
    EpisodeOf(row, index)
  }

  function IdOf(row: Row, dataset: Option<string>, version: Option<string>, index: nat): string {
    if row.sampleId.Some? then row.sampleId.value else GeneratedId(row, dataset, version, index)
  }

  /** _row_to_sample. */
  function SampleOf(row: Row, dataset: Option<string>, version: Option<string>, index: nat): Sample {
    Sample(IdOf(row, dataset, version, index), RowOr(row.dataset, dataset), RowOr(row.version, version),
           EpisodeOf(row, index), row.payload)
  }

  /** All rows of the readable files, in order; a missing file (None) is skipped. */
  function AllRows(files: seq<Option<seq<Row>>>): seq<Row> {
    if files == [] then []
    else AllRows(files[..|files| - 1]) + (if files[|files| - 1].None? then [] else files[|files| - 1].value)
  }

  function SamplesOf(rows: seq<Row>, dataset: Option<string>, version: Option<string>): (samples: seq<Sample>)
    ensures |samples| == |rows|
  {
    seq(|rows|, i requires 0 <= i < |rows| => SampleOf(rows[i], dataset, version, i))
  }

  /** How many samples a limit lets through: it is tested after each append, so a limit
      of zero or less still yields one. */
  function Limited(total: nat, limit: Option<int>): nat {
    if limit.None? then total
    else
      var cap := if limit.value < 1 then 1 else limit.value;
      if total < cap then total else cap
  }

  /** The inner loop over one file's rows; `full` reports that the limit was reached. */
  method AppendRows(out: seq<Sample>, rows: seq<Row>, dataset: Option<string>, version: Option<string>,
                    limit: Option<int>, ghost before: seq<Row>)
    returns (more: seq<Sample>, full: bool)
    requires out == SamplesOf(before, dataset, version)
    requires out != [] && limit.Some? ==> |out| < limit.value
    ensures more <= SamplesOf(before + rows, dataset, version)
    ensures full ==> more != [] && limit.Some? && |more| == if limit.value < 1 then 1 else limit.value
    ensures !full ==> more == SamplesOf(before + rows, dataset, version)
    ensures !full && more != [] && limit.Some? ==> |more| < limit.value
  {
    more, full := out, false;
    var rowIndex := |out|;
    ghost var all := SamplesOf(before + rows, dataset, version);
    SamplesOfPrefix(before, before + rows, dataset, version);
    for r := 0 to |rows|
      invariant rowIndex == |more| == |before| + r
      invariant more == all[..rowIndex]
      invariant more != [] && limit.Some? ==> |more| < limit.value
    {
      assert (before + rows)[rowIndex] == rows[r];
      assert all[..rowIndex + 1] == all[..rowIndex] + [all[rowIndex]];
      more := more + [SampleOf(rows[r], dataset, version, rowIndex)];
      rowIndex := rowIndex + 1;
      if limit.Some? && |more| >= limit.value { return more, true; }
    }
  }

  /** The nested loops over files and rows with one running row index. On input that is
      not empty the limit is kept if and only if it is at least one. */
  method Build(files: seq<Option<seq<Row>>>, dataset: Option<string>, version: Option<string>, limit: Option<int>)
    returns (samples: Result<seq<Sample>>)
    ensures var all := SamplesOf(AllRows(files), dataset, version);
            samples == if all == [] then Err else Ok(all[..Limited(|all|, limit)])
    ensures samples.Ok? && limit.Some? ==> (|samples.value| <= limit.value <==> limit.value >= 1)
  {
    var out: seq<Sample> := [];
    for f := 0 to |files|
      invariant out == SamplesOf(AllRows(files[..f]), dataset, version)
      invariant out != [] && limit.Some? ==> |out| < limit.value
    {
      ghost var before := AllRows(files[..f]);
      assert files[..f + 1][..f] == files[..f];
      if files[f].Some? {
        var full;
        out, full := AppendRows(out, files[f].value, dataset, version, limit, before);
        if full {
          RowsPrefix(files, f + 1);
          assert before + files[f].value == AllRows(files[..f + 1]);
          SamplesOfPrefix(before + files[f].value, AllRows(files), dataset, version);
          PrefixIsTake(out, SamplesOf(before + files[f].value, dataset, version),
                       SamplesOf(AllRows(files), dataset, version));
          return Ok(out);
        }
      } else {
        assert AllRows(files[..f + 1]) == before;
      }
    }
    assert files[..|files|] == files;
    if out == [] { return Err; }
    assert out[..|out|] == out;
    return Ok(out);
  }

  lemma PrefixIsTake(a: seq<Sample>, b: seq<Sample>, c: seq<Sample>)
    requires a <= b && b <= c
    ensures |a| <= |c| && a == c[..|a|]
  {}

  lemma SamplesOfPrefix(xs: seq<Row>, ys: seq<Row>, dataset: Option<string>, version: Option<string>)
    requires xs <= ys
    ensures SamplesOf(xs, dataset, version) <= SamplesOf(ys, dataset, version)
  {}

  lemma {:induction false} RowsPrefix(files: seq<Option<seq<Row>>>, f: nat)
    requires f <= |files|
    ensures AllRows(files[..f]) <= AllRows(files)
    decreases |files| - f
  {
    if f < |files| {
      RowsPrefix(files, f + 1);
      assert files[..f + 1][..f] == files[..f];
      assert AllRows(files[..f]) <= AllRows(files[..f + 1]);
    } else {
      assert files[..f] == files;
    }
  }

  // ---------- generated identifiers never collide ----------

  lemma {:induction false} DecimalDigits(n: nat)
    ensures Decimal(n) != "" && ':' !in Decimal(n)
  {
    if n >= 10 { DecimalDigits(n / 10); }
  }

  lemma DigitInjective(a: nat, b: nat)
    requires a < 10 && b < 10 && Digit(a) == Digit(b)
    ensures a == b
  {}

  lemma {:induction false} DecimalInjective(m: nat, n: nat)
    requires Decimal(m) == Decimal(n)
    ensures m == n
  {
    var s, t := Decimal(m), Decimal(n);
    DecimalDigits(m / 10);
    DecimalDigits(n / 10);
    assert s[|s| - 1] == Digit(m % 10) && t[|t| - 1] == Digit(n % 10);
    DigitInjective(m % 10, n % 10);
    if m >= 10 && n >= 10 {
      assert s[..|s| - 1] == Decimal(m / 10) && t[..|t| - 1] == Decimal(n / 10);
      DecimalInjective(m / 10, n / 10);
    } else {
      assert |s| == 1 <==> m < 10;
      assert |t| == 1 <==> n < 10;
    }
  }

  /** The text after the last colon. */
  function AfterColon(s: string): string {
    if s == "" || s[|s| - 1] == ':' then "" else AfterColon(s[..|s| - 1]) + [s[|s| - 1]]
  }

  lemma {:induction false} AfterColonOf(a: string, c: string)
    requires ':' !in c
    ensures AfterColon(a + ":" + c) == c
  {
    var s := a + ":" + c;
    if c != "" {
      AfterColonOf(a, c[..|c| - 1]);
      assert s[..|s| - 1] == a + ":" + c[..|c| - 1];
    }
  }

  /** Across all files, generated identifiers are pairwise distinct, whatever dataset,
      version and episode texts (colons included) the rows carry. */
  lemma GeneratedIdsDistinct(r: Row, s: Row, dataset: Option<string>, version: Option<string>, i: nat, j: nat)
    requires i != j
    ensures GeneratedId(r, dataset, version, i) != GeneratedId(s, dataset, version, j)
  {
    DecimalDigits(i);
    DecimalDigits(j);
    AfterColonOf(IdPrefix(r, dataset, version, i), Decimal(i));
    AfterColonOf(IdPrefix(s, dataset, version, j), Decimal(j));
    if Decimal(i) == Decimal(j) { DecimalInjective(i, j); }
  }

  /** Row `i` brings an identifier that row `j` brings too, or is given. */
  predicate Collides(rows: seq<Row>, dataset: Option<string>, version: Option<string>, i: nat, j: nat) {
    i < |rows| && j < |rows| && i != j && rows[i].sampleId.Some? &&
    rows[i].sampleId.value == IdOf(rows[j], dataset, version, j)
  }

  /** The samples built from the input have distinct identifiers if and only if no row
      brings an identifier that another row brings or is given; generated identifiers
      never collide among themselves. */
  lemma DistinctIff(rows: seq<Row>, dataset: Option<string>, version: Option<string>)
    ensures DistinctIds(SamplesOf(rows, dataset, version)) <==>
            !exists i: nat, j: nat :: Collides(rows, dataset, version, i, j)
  {
    var xs := SamplesOf(rows, dataset, version);
    if i: nat, j: nat :| Collides(rows, dataset, version, i, j) {
      assert xs[i].id == xs[j].id;
      assert i < j || j < i;
    }
    if i, j :| 0 <= i < j < |rows| && xs[i].id == xs[j].id {
      if rows[i].sampleId.Some? {
        assert Collides(rows, dataset, version, i, j);
      } else if rows[j].sampleId.Some? {
        assert Collides(rows, dataset, version, j, i);
      } else {
        GeneratedIdsDistinct(rows[i], rows[j], dataset, version, i, j);
      }
    }
  }

  /** A retried file can repeat an identifier. */
  lemma CarriedIdsMayCollide()
    ensures var row := Row(Some("a"), None, None, None, 0);
            SamplesOf([row, row], None, None)[0].id == SamplesOf([row, row], None, None)[1].id
  {}

  // ---------- what a sample is made of ----------

  /** The number a text of digits stands for. */
  function NumberOf(s: string): nat {
    if s == "" then 0
    else
      var c := s[|s| - 1];
      NumberOf(s[..|s| - 1]) * 10 + if '0' <= c <= '9' then c as nat - '0' as nat else 0
  }

  lemma DigitMeans(d: nat)
    requires d < 10
    ensures '0' <= Digit(d) <= '9' && Digit(d) as nat == '0' as nat + d
  {}

  /** The decimal text of a number: digits that stand for it, no needless zero in front. */
  lemma {:induction false} DecimalMeans(n: nat)
    ensures Decimal(n) != "" && NumberOf(Decimal(n)) == n
    ensures forall i :: 0 <= i < |Decimal(n)| ==> '0' <= Decimal(n)[i] <= '9'
    ensures n > 0 ==> Decimal(n)[0] != '0'
  {
    DigitMeans(n % 10);
    if n >= 10 {
      DecimalMeans(n / 10);
      var s, t := Decimal(n), Decimal(n / 10);
      assert s[..|s| - 1] == t && s[|s| - 1] == Digit(n % 10) && s[0] == t[0];
    } else {
      assert [Digit(n)][..0] == "" && NumberOf("") == 0;
    }
  }

  /** Each column of a sample in terms of its row: the row's own text unless it is missing
      (or, for dataset and version, empty), else the builder's or the row index. */
  lemma SampleMeans(rows: seq<Row>, dataset: Option<string>, version: Option<string>, i: nat)
    requires i < |rows|
    ensures var (s, r) := (SamplesOf(rows, dataset, version)[i], rows[i]);
      s.payload == r.payload &&
      s.dataset == (if r.dataset.Some? && |r.dataset.value| > 0 then r.dataset else dataset) &&
      s.version == (if r.version.Some? && |r.version.value| > 0 then r.version else version) &&
      s.episode == (if r.episode.Some? then r.episode.value else Decimal(i)) &&
      s.id == if r.sampleId.Some? then r.sampleId.value
              else (if s.dataset.Some? && |s.dataset.value| > 0 then s.dataset.value else "unknown") + ":" +
                   (if s.version.Some? && |s.version.value| > 0 then s.version.value else "v1") + ":" +
                   s.episode + ":" + Decimal(i)
  {}
}
