/**
 Local paths as pathlib and the file system read them (src/robot_dh/lake/store.py, lines
 119-120, 351 and 426-438): double slashes and `.` vanish, an absolute name replaces the
 directory it is joined to, `..` goes up. Symbolic links are not modelled.
 */
module LocalPath {
  import opened LakeUri

  const SUFFIX := ".part"

  // ---------- pathlib ----------

  /** A parsed path: how many slashes its root counts for, and its segments. */
  datatype Path = Path(root: nat, segs: seq<string>)

  /** No leading slash, one (or three and more, which count as one), or exactly two. */
  function Root(text: string): nat {
    if text == "" || text[0] != '/' then 0
    else if |text| >= 2 && text[1] == '/' && !(|text| >= 3 && text[2] == '/') then 2
    else 1
  }

  function DropDots(xs: seq<string>): seq<string> {
    if xs == [] then []
    else if xs[0] == "." then DropDots(xs[1..])
    else [xs[0]] + DropDots(xs[1..])
  }

  function Names(text: string): seq<string> { DropDots(Segments(text)) }

  /** `Path(text)`. */
  function PathOf(text: string): Path { Path(Root(text), Names(text)) }

  /** `dir / name`. */
  function Under(dir: Path, name: string): Path {
    if Root(name) > 0 then PathOf(name) else Path(dir.root, dir.segs + Names(name))
  }

  /** A segment list as pathlib keeps it. */
  predicate Kept(xs: seq<string>) { Clean(xs) && forall i :: 0 <= i < |xs| ==> xs[i] != "." }

  lemma {:induction false} DropDotsKeeps(xs: seq<string>)
    requires Clean(xs)
    ensures Kept(DropDots(xs))
    ensures Kept(xs) ==> DropDots(xs) == xs
  {
    if xs != [] {
      DropDotsKeeps(xs[1..]);
      assert xs == [xs[0]] + xs[1..];
    }
  }

  lemma NamesKept(text: string)
    ensures Kept(Names(text))
  {
    SegmentsClean(text);
    DropDotsKeeps(Segments(text));
  }

  lemma {:induction false} DropDotsConcat(xs: seq<string>, ys: seq<string>)
    ensures DropDots(xs + ys) == DropDots(xs) + DropDots(ys)
  {
    if xs == [] {
      assert xs + ys == ys;
    } else {
      assert (xs + ys)[1..] == xs[1..] + ys;
      DropDotsConcat(xs[1..], ys);
    }
  }

  // ---------- the file a path leads to ----------

  /** A file, by the names on the way to it from the root. */
  type File = seq<string>

  function Enter(at: File, seg: string): File {
    if seg == ".." then (if at == [] then [] else at[..|at| - 1]) else at + [seg]
  }

  function Walk(segs: seq<string>): File {
    if segs == [] then [] else Enter(Walk(segs[..|segs| - 1]), segs[|segs| - 1])
  }

  /** `target.with_suffix(target.suffix + ".part")`: the last segment gets the suffix. */
  function WithPart(segs: seq<string>): seq<string> {
    if segs == [] then [SUFFIX] else segs[..|segs| - 1] + [segs[|segs| - 1] + SUFFIX]
  }

  lemma PartName(name: string)
    ensures name + SUFFIX != ".." && |name + SUFFIX| == |name| + 5
  {}

  /** The temporary file lies in the directory the path's last step starts from. */
  lemma WalkPart(segs: seq<string>)
    ensures Walk(WithPart(segs)) ==
      if segs == [] then [SUFFIX] else Walk(segs[..|segs| - 1]) + [segs[|segs| - 1] + SUFFIX]
  {
    if segs == [] {
      assert [SUFFIX][..0] == [];
    } else {
      var n := |segs| - 1;
      PartName(segs[n]);
      assert WithPart(segs)[..n] == segs[..n];
    }
  }

  /** The path ends in a name a file can have: not in `..`, and not at the root. */
  predicate EndsInName(segs: seq<string>) { segs != [] && segs[|segs| - 1] != ".." }

  /** Paths that end in a name share their file if and only if they share its temporary
      file; a path that ends in `..` shares a temporary file only with its like. */
  lemma PartInjective(a: seq<string>, b: seq<string>)
    requires a != [] && b != []
    ensures Walk(WithPart(a)) == Walk(WithPart(b)) ==> Walk(a) == Walk(b) && (EndsInName(a) <==> EndsInName(b))
    ensures EndsInName(a) && EndsInName(b) && Walk(a) == Walk(b) ==> Walk(WithPart(a)) == Walk(WithPart(b))
    ensures Walk(WithPart(a)) != Walk(a)
  {
    WalkPart(a);
    WalkPart(b);
    var u, v := a[|a| - 1], b[|b| - 1];
    var x, y := Walk(a[..|a| - 1]), Walk(b[..|b| - 1]);
    if x + [u + SUFFIX] == y + [v + SUFFIX] {
      LastOf(x, u + SUFFIX, y, v + SUFFIX);
      assert u == (u + SUFFIX)[..|u|] && v == (v + SUFFIX)[..|v|];
    }
    if EndsInName(a) && EndsInName(b) && Walk(a) == Walk(b) { LastOf(x, u, y, v); }
    if Walk(WithPart(a)) == Walk(a) && u != ".." { LastOf(x, u + SUFFIX, x, u); }
  }

  lemma LastOf<T>(x: seq<T>, u: T, y: seq<T>, v: T)
    requires x + [u] == y + [v]
    ensures x == y && u == v
  {
    assert (x + [u])[..|x|] == x && (y + [v])[..|y|] == y;
    assert (x + [u])[|x|] == u && (y + [v])[|y|] == v;
  }

  // ---------- plain names ----------

  /** A name spelled with single slashes and without `.` and `..`. */
  predicate Plain(name: string) {
    name != "" && Root(name) == 0 && name == Join(Names(name)) && ".." !in Names(name)
  }

  lemma {:induction false} WalkStraight(dir: seq<string>, segs: seq<string>)
    requires ".." !in segs
    ensures Walk(dir + segs) == Walk(dir) + segs
  {
    if segs == [] {
      assert dir + segs == dir;
    } else {
      var n := |segs| - 1;
      assert (dir + segs)[..|dir| + n] == dir + segs[..n];
      assert segs[n] in segs;
      WalkStraight(dir, segs[..n]);
    }
  }

  lemma {:induction false} JoinPart(segs: seq<string>)
    requires segs != []
    ensures Join(WithPart(segs)) == Join(segs) + SUFFIX
  {
    var n := |segs| - 1;
    if n > 0 {
      JoinPart(segs[1..]);
      assert WithPart(segs)[1..] == WithPart(segs[1..]);
      assert WithPart(segs)[0] == segs[0];
      Assoc(segs[0] + "/", Join(segs[1..]), SUFFIX);
    }
  }

  /** Adding the suffix to a plain name adds it to the last segment. */
  lemma PlainPart(name: string)
    requires Plain(name)
    ensures Names(name) != [] && Names(name + SUFFIX) == WithPart(Names(name)) && Root(name + SUFFIX) == 0
  {
    var segs := Names(name);
    NamesKept(name);
    assert segs != [];
    JoinPart(segs);
    forall i | 0 <= i < |WithPart(segs)|
      ensures WithPart(segs)[i] != "" && '/' !in WithPart(segs)[i] && WithPart(segs)[i] != "."
    {
      assert segs[i] != "" && '/' !in segs[i];
    }
    SegmentsOfJoin(WithPart(segs));
    DropDotsKeeps(WithPart(segs));
  }

  // ---------- joining texts ----------

  /** What follows a text that does not end in a slash does not change its root. */
  lemma RootExtend(r: string, more: string)
    requires r != "" && r[|r| - 1] != '/'
    ensures Root(r + more) == Root(r)
  {}

  lemma NamesConcat(a: string, b: string)
    ensures Names(a + "/" + b) == Names(a) + Names(b)
  {
    SegmentsConcat(a, b);
    DropDotsConcat(Segments(a), Segments(b));
  }

  // ---------- what the path functions mean for the text ----------

  /** Segment by segment: empty ones and `.` vanish, all others stay. */
  lemma NamesMean(seg: string)
    requires '/' !in seg
    ensures Names(seg) == if seg == "" || seg == "." then [] else [seg]
  {
    SplitSlashFree(seg);
    assert Split(seg) == [seg] && [seg][1..] == [];
    if seg != "" {
      assert NonEmpty([seg]) == [seg] + NonEmpty([]);
      assert Segments(seg) == [seg];
      if seg == "." {
        assert DropDots([seg]) == DropDots([]);
      } else {
        assert DropDots([seg]) == [seg] + DropDots([]);
      }
    }
  }

  /** What makes a path absolute: one leading slash, or exactly two, which POSIX keeps apart. */
  lemma RootMeans(text: string)
    ensures text == "" || text[0] != '/' ==> Root(text) == 0
    ensures text == "" || text[0] != '/' ==> Root("/" + text) == 1 && Root("//" + text) == 2
    ensures Root("///" + text) == 1
  {}

  /** Joining a relative name appends its names; an absolute one replaces the directory. */
  lemma UnderMeans(dir: Path, name: string)
    ensures (name == "" || name[0] != '/') ==> Under(dir, name) == Path(dir.root, dir.segs + Names(name))
    ensures name != "" && name[0] == '/' ==> Under(dir, name).segs == Names(name)
  {}

  /** Step by step: `..` leads back to where the step before started, all else goes down. */
  lemma WalkMeans(segs: seq<string>, seg: string)
    ensures Walk([]) == []
    ensures seg != ".." ==> Walk(segs + [seg]) == Walk(segs) + [seg]
    ensures seg != ".." ==> Walk(segs + [seg] + [".."]) == Walk(segs)
    ensures Walk([".."]) == []
  {
    assert (segs + [seg])[..|segs|] == segs;
    assert (segs + [seg] + [".."])[..|segs| + 1] == segs + [seg];
    assert [".."][..0] == [];
  }
}
