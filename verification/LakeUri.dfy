/**
 Lake URIs: the slash-collapsing loop, parsing and joining (src/robot_dh/lake/uri.py).
 The reference notion is the list of non-empty segments of a key; everything the
 source does to strings is shown to be an operation on that list.
 */
module LakeUri {
  import opened Wrappers

  // ---------- splitting and joining on '/' ----------

  /** Python's `s.split("/")`. */
  function Split(s: string): (r: seq<string>)
    ensures |r| > 0
  {
    if s == "" then [""]
    else
      var t := Split(s[1..]);
      if s[0] == '/' then [""] + t else [[s[0]] + t[0]] + t[1..]
  }

  /** Python's `"/".join(xs)`. */
  function Join(xs: seq<string>): string {
    if xs == [] then ""
    else if |xs| == 1 then xs[0]
    else xs[0] + "/" + Join(xs[1..])
  }

  function NonEmpty(xs: seq<string>): seq<string> {
    if xs == [] then []
    else if xs[0] == "" then NonEmpty(xs[1..])
    else [xs[0]] + NonEmpty(xs[1..])
  }

  /** The reference meaning of a key: its non-empty segments, in order. */
  function Segments(s: string): seq<string> { NonEmpty(Split(s)) }

  /** The canonical spelling of a key: segments separated by single slashes. */
  function Canonical(s: string): string { Join(Segments(s)) }

  predicate Clean(xs: seq<string>) {
    forall i :: 0 <= i < |xs| ==> xs[i] != "" && '/' !in xs[i]
  }

  lemma Assoc<T>(a: seq<T>, b: seq<T>, c: seq<T>)
    ensures a + (b + c) == (a + b) + c
  {}

  lemma {:induction false} NonEmptyConcat(xs: seq<string>, ys: seq<string>)
    ensures NonEmpty(xs + ys) == NonEmpty(xs) + NonEmpty(ys)
  {
    if xs == [] {
      assert xs + ys == ys;
    } else {
      assert (xs + ys)[1..] == xs[1..] + ys;
      NonEmptyConcat(xs[1..], ys);
    }
  }

  lemma {:induction false} SplitConcat(a: string, b: string)
    ensures Split(a + "/" + b) == Split(a) + Split(b)
  {
    if a == "" {
      assert ("" + "/" + b)[1..] == b;
    } else {
      SplitConcat(a[1..], b);
      assert (a + "/" + b)[1..] == a[1..] + "/" + b;
      SplitHead(a[0], Split(a[1..]), Split(b));
    }
  }

  lemma SplitHead(c: char, t: seq<string>, u: seq<string>)
    requires |t| > 0
    ensures [""] + (t + u) == ([""] + t) + u
    ensures [[c] + (t + u)[0]] + (t + u)[1..] == ([[c] + t[0]] + t[1..]) + u
  {
    Assoc([""], t, u);
    assert (t + u)[1..] == t[1..] + u;
    Assoc([[c] + t[0]], t[1..], u);
  }

  lemma SegmentsConcat(a: string, b: string)
    ensures Segments(a + "/" + b) == Segments(a) + Segments(b)
  {
    SplitConcat(a, b);
    NonEmptyConcat(Split(a), Split(b));
  }

  lemma SegmentsSlash(b: string)
    ensures Segments("/" + b) == Segments(b)
    ensures Segments(b + "/") == Segments(b)
  {
    SegmentsConcat("", b);
    assert "" + "/" + b == "/" + b;
    SegmentsConcat(b, "");
    assert b + "/" + "" == b + "/";
  }

  lemma {:induction false} SplitHasNoSlash(s: string)
    ensures forall x :: x in Split(s) ==> '/' !in x
  {
    if s != "" { SplitHasNoSlash(s[1..]); }
  }

  lemma {:induction false} NonEmptyClean(xs: seq<string>)
    requires forall x :: x in xs ==> '/' !in x
    ensures Clean(NonEmpty(xs))
    ensures Clean(xs) ==> NonEmpty(xs) == xs
  {
    if xs != [] {
      NonEmptyClean(xs[1..]);
      assert xs == [xs[0]] + xs[1..];
    }
  }

  lemma SegmentsClean(s: string)
    ensures Clean(Segments(s))
  {
    SplitHasNoSlash(s);
    NonEmptyClean(Split(s));
  }

  lemma {:induction false} SplitSlashFree(s: string)
    requires '/' !in s
    ensures Split(s) == [s]
  {
    if s != "" {
      SplitSlashFree(s[1..]);
      assert s == [s[0]] + s[1..];
    }
  }

  /** Clean segment lists survive a round trip through their spelling. */
  lemma {:induction false} SegmentsOfJoin(xs: seq<string>)
    requires Clean(xs)
    ensures Segments(Join(xs)) == xs
  {
    if xs == [] {
    } else if |xs| == 1 {
      SplitSlashFree(xs[0]);
      assert NonEmpty([xs[0]]) == [xs[0]];
    } else {
      SegmentsOfJoin(xs[1..]);
      SplitSlashFree(xs[0]);
      SegmentsConcat(xs[0], Join(xs[1..]));
    }
  }

  lemma CanonicalIdempotent(s: string)
    ensures Segments(Canonical(s)) == Segments(s)
    ensures Canonical(Canonical(s)) == Canonical(s)
  {
    SegmentsClean(s);
    SegmentsOfJoin(Segments(s));
  }

  /** `"/".join` of arbitrary strings concatenates their segments. */
  lemma {:induction false} SegmentsOfJoinAny(xs: seq<string>)
    ensures Segments(Join(xs)) == FlatSegments(xs)
  {
    if |xs| == 1 {
      assert FlatSegments(xs[1..]) == [];
    } else if |xs| > 1 {
      SegmentsOfJoinAny(xs[1..]);
      SegmentsConcat(xs[0], Join(xs[1..]));
    }
  }

  function FlatSegments(xs: seq<string>): seq<string> {
    if xs == [] then [] else Segments(xs[0]) + FlatSegments(xs[1..])
  }

  // ---------- _strip_double_slashes ----------

  predicate HasDoubleSlash(s: string) {
    exists i :: 0 <= i < |s| - 1 && s[i] == '/' && s[i + 1] == '/'
  }

  /** Python's `s.replace("//", "/")`: leftmost, non-overlapping. */
  function ReplaceDouble(s: string): (r: string) {
    if s == "" then ""
    else if |s| >= 2 && s[0] == '/' && s[1] == '/' then "/" + ReplaceDouble(s[2..])
    else [s[0]] + ReplaceDouble(s[1..])
  }

  lemma {:induction false} ReplaceShrinks(s: string)
    ensures |ReplaceDouble(s)| <= |s|
    ensures HasDoubleSlash(s) ==> |ReplaceDouble(s)| < |s|
  {
    if s == "" {
    } else if |s| >= 2 && s[0] == '/' && s[1] == '/' {
      ReplaceShrinks(s[2..]);
    } else {
      ReplaceShrinks(s[1..]);
      if HasDoubleSlash(s) {
        var i :| 0 <= i < |s| - 1 && s[i] == '/' && s[i + 1] == '/';
        assert s[1..][i - 1] == '/' && s[1..][i - 1 + 1] == '/';
      }
    }
  }

  /** One pass keeps the first piece and the non-empty pieces after it. */
  lemma {:induction false} ReplaceKeepsPieces(s: string)
    ensures Split(ReplaceDouble(s))[0] == Split(s)[0]
    ensures NonEmpty(Split(ReplaceDouble(s))[1..]) == NonEmpty(Split(s)[1..])
  {
    if s == "" {
    } else if |s| >= 2 && s[0] == '/' && s[1] == '/' {
      var t := s[2..];
      ReplaceKeepsPieces(t);
      assert s[1..][1..] == t;
      assert ("/" + ReplaceDouble(t))[1..] == ReplaceDouble(t);
      assert Split(s)[1..] == [""] + Split(t);
      assert ([""] + Split(t))[1..] == Split(t);
      assert Split("/" + ReplaceDouble(t))[1..] == Split(ReplaceDouble(t));
    } else {
      var t := s[1..];
      ReplaceKeepsPieces(t);
      assert ([s[0]] + ReplaceDouble(t))[1..] == ReplaceDouble(t);
      if s[0] == '/' {
        assert Split(s)[1..] == Split(t);
        assert Split(ReplaceDouble(s))[1..] == Split(ReplaceDouble(t));
      } else {
        assert Split(s)[1..] == Split(t)[1..];
        assert Split(ReplaceDouble(s))[1..] == Split(ReplaceDouble(t))[1..];
      }
    }
  }

  lemma ReplaceKeepsSegments(s: string)
    ensures Segments(ReplaceDouble(s)) == Segments(s)
  {
    ReplaceKeepsPieces(s);
  }

  function LStrip(s: string, drop: char -> bool): string {
    if s != "" && drop(s[0]) then LStrip(s[1..], drop) else s
  }

  function RStrip(s: string, drop: char -> bool): string {
    if s != "" && drop(s[|s| - 1]) then RStrip(s[..|s| - 1], drop) else s
  }

  /** Python's `s.strip(chars)`. */
  function Strip(s: string, drop: char -> bool): string {
    RStrip(LStrip(s, drop), drop)
  }

  lemma StripSolid(s: string, drop: char -> bool)
    requires s != "" && !drop(s[0]) && !drop(s[|s| - 1])
    ensures Strip(s, drop) == s
  {}

  predicate IsSlash(c: char) { c == '/' }

  lemma {:induction false} LStripKeepsSegments(s: string)
    ensures Segments(LStrip(s, IsSlash)) == Segments(s)
    ensures !HasDoubleSlash(s) ==> !HasDoubleSlash(LStrip(s, IsSlash))
    ensures LStrip(s, IsSlash) != "" ==> LStrip(s, IsSlash)[0] != '/'
  {
    if s != "" && s[0] == '/' {
      LStripKeepsSegments(s[1..]);
      assert s == "/" + s[1..];
      SegmentsSlash(s[1..]);
      DoubleSlashInTail(s);
    }
  }

  lemma {:induction false} RStripKeepsSegments(s: string)
    ensures Segments(RStrip(s, IsSlash)) == Segments(s)
    ensures !HasDoubleSlash(s) ==> !HasDoubleSlash(RStrip(s, IsSlash))
    ensures RStrip(s, IsSlash) != "" ==> RStrip(s, IsSlash)[|RStrip(s, IsSlash)| - 1] != '/'
    ensures RStrip(s, IsSlash) <= s
  {
    if s != "" && s[|s| - 1] == '/' {
      var t := s[..|s| - 1];
      RStripKeepsSegments(t);
      assert s == t + "/";
      SegmentsSlash(t);
      if HasDoubleSlash(t) {
        var i :| 0 <= i < |t| - 1 && t[i] == '/' && t[i + 1] == '/';
        assert s[i] == '/' && s[i + 1] == '/';
      }
    }
  }

  lemma {:induction false} JoinSplit(s: string)
    ensures Join(Split(s)) == s
  {
    if s != "" {
      var t := Split(s[1..]);
      JoinSplit(s[1..]);
      if s[0] == '/' {
        assert ([""] + t)[1..] == t;
      } else {
        assert ([[s[0]] + t[0]] + t[1..])[1..] == t[1..];
      }
    }
  }

  lemma DoubleSlashInTail(s: string)
    requires s != ""
    ensures HasDoubleSlash(s[1..]) ==> HasDoubleSlash(s)
  {
    if i :| 0 <= i < |s[1..]| - 1 && s[1..][i] == '/' && s[1..][i + 1] == '/' {
      assert s[i + 1] == '/' && s[i + 1 + 1] == '/';
    }
  }

  /** No empty piece can hide in a key with no double and no trailing slash. */
  lemma {:induction false} SplitPiecesNonEmpty(s: string)
    requires s != "" && !HasDoubleSlash(s) && s[|s| - 1] != '/'
    ensures forall x :: x in Split(s)[1..] ==> x != ""
    ensures s[0] != '/' ==> Split(s)[0] != ""
  {
    var t := Split(s[1..]);
    if |s| == 1 {
    } else {
      DoubleSlashInTail(s);
      SplitPiecesNonEmpty(s[1..]);
      if s[0] == '/' {
        assert s[1] != '/';
        assert s[1..][0] == s[1];
        assert Split(s)[1..] == t;
        assert t == [t[0]] + t[1..];
      } else {
        assert Split(s)[1..] == t[1..];
      }
    }
  }

  lemma NormalFormIsCanonical(s: string)
    requires !HasDoubleSlash(s)
    requires s != "" ==> s[0] != '/' && s[|s| - 1] != '/'
    ensures Canonical(s) == s
  {
    if s != "" {
      SplitPiecesNonEmpty(s);
      SplitHasNoSlash(s);
      forall i | 0 <= i < |Split(s)| ensures Split(s)[i] != "" && '/' !in Split(s)[i] {
        if i > 0 { assert Split(s)[i] == Split(s)[1..][i - 1]; assert Split(s)[1..][i - 1] in Split(s)[1..]; }
      }
      NonEmptyClean(Split(s));
      JoinSplit(s);
    }
  }

  /** The rewriting loop terminates (every pass that runs shortens the key) and
      leaves exactly the canonical spelling of the key's segments. */
  method StripDoubleSlashes(key: string) returns (r: string)
    ensures r == Canonical(key)
  {
    r := key;
    while HasDoubleSlash(r)
      invariant Segments(r) == Segments(key)
      decreases |r|
    {
      ReplaceShrinks(r);
      ReplaceKeepsSegments(r);
      r := ReplaceDouble(r);
    }
    ghost var before := r;
    LStripKeepsSegments(before);
    var l := LStrip(r, IsSlash);
    RStripKeepsSegments(l);
    r := RStrip(l, IsSlash);
    NormalFormIsCanonical(r);
  }

  // ---------- parse_uri ----------

  datatype Uri = S3(bucket: string, key: string) | Local(path: string)

  /** The `uri` field of a parsed URI: its canonical text. */
  function Render(u: Uri): string {
    match u
    case S3(b, k) => "s3://" + b + "/" + k
    case Local(p) => p
  }

  /** Text before and after the first slash; no slash means an empty tail. */
  function SplitFirst(s: string): (r: (string, string))
    ensures '/' !in r.0
    ensures s == r.0 + "/" + r.1 || (s == r.0 && r.1 == "")
  {
    if s == "" then ("", "")
    else if s[0] == '/' then ("", s[1..])
    else
      var t := SplitFirst(s[1..]);
      ([s[0]] + t.0, t.1)
  }

  function ParseUri(uri: string): Result<Uri> {
    if uri == "" then Err
    else if "s3://" <= uri then
      var (bucket, key) := SplitFirst(uri[5..]);
      if bucket == "" then Err else Ok(S3(bucket, Canonical(key)))
    else if "file://" <= uri then
      if uri[7..] == "" then Err else Ok(Local(uri[7..]))
    else Ok(Local(uri))
  }

  lemma {:induction false} SplitFirstOfConcat(b: string, k: string)
    requires '/' !in b
    ensures SplitFirst(b + "/" + k) == (b, k)
  {
    if b == "" {
      assert (b + "/" + k)[1..] == k;
    } else {
      SplitFirstOfConcat(b[1..], k);
      assert (b + "/" + k)[1..] == b[1..] + "/" + k;
      assert [b[0]] + b[1..] == b;
    }
  }

  lemma ParseRender(bucket: string, key: string)
    requires bucket != "" && '/' !in bucket
    ensures ParseUri(Render(S3(bucket, key))) == Ok(S3(bucket, Canonical(key)))
  {
    var text := Render(S3(bucket, key));
    assert text == "s3://" + (bucket + "/" + key);
    assert text[5..] == bucket + "/" + key;
    SplitFirstOfConcat(bucket, key);
  }

  /** Re-parsing the canonical text of a parsed URI gives the same URI for every s3
      URI; for a local one exactly when the path does not itself look like a URI
      (`file://s3://b/k` parses to a path that then re-parses as an s3 URI). */
  lemma ParseIdempotent(text: string, u: Uri)
    requires ParseUri(text) == Ok(u)
    ensures u.S3? ==> ParseUri(Render(u)) == Ok(u)
    ensures u.Local? ==>
      (ParseUri(Render(u)) == Ok(u) <==> !("s3://" <= u.path) && !("file://" <= u.path))
  {
    if u.S3? {
      var (bucket, key) := SplitFirst(text[5..]);
      CanonicalIdempotent(key);
      ParseRender(bucket, u.key);
    } else if "file://" <= u.path {
      assert |u.path[7..]| < |u.path|;
    }
  }

  lemma LocalReparseCounterexample()
    ensures ParseUri("file://s3://b/k") == Ok(Local("s3://b/k"))
    ensures ParseUri("s3://b/k") != Ok(Local("s3://b/k"))
  {
    assert "file://s3://b/k"[7..] == "s3://b/k";
    assert "s3://" <= "s3://b/k";
    assert !("s3://" <= "file://s3://b/k") by {
      assert "file://s3://b/k"[0] == 'f';
    }
  }

  // ---------- join_uri ----------

  /** The characters `str.strip()` removes. */
  predicate IsSpace(c: char) {
    c == ' ' || '\t' <= c <= '\r' || '\U{1c}' <= c <= '\U{1f}' || c == '\U{85}' || c == '\U{a0}' ||
    c == '\U{1680}' || '\U{2000}' <= c <= '\U{200a}' || c == '\U{2028}' || c == '\U{2029}' ||
    c == '\U{202f}' || c == '\U{205f}' || c == '\U{3000}'
  }

  /** Blank and missing parts are dropped; others lose outer spaces, then slashes. */
  function CleanPart(part: Option<string>): seq<string> {
    if part.None? || Strip(part.value, IsSpace) == "" then []
    else [Strip(Strip(part.value, IsSpace), IsSlash)]
  }

  /** The pieces that survive the cleaning loop of `join_uri`. */
  function CleanParts(parts: seq<Option<string>>): seq<string> {
    if parts == [] then []
    else CleanPart(parts[0]) + CleanParts(parts[1..])
  }

  function PartSegment(part: Option<string>): seq<string> {
    if part.None? then [] else Segments(Strip(part.value, IsSpace))
  }

  /** The segments the parts contribute to the key. */
  function PartSegments(parts: seq<Option<string>>): seq<string> {
    if parts == [] then []
    else PartSegment(parts[0]) + PartSegments(parts[1..])
  }

  function JoinLocal(path: string, suffix: string): string {
    var base := RStrip(path, IsSlash);
    if base != "" && suffix != "" then base + "/" + suffix
    else if suffix != "" then suffix
    else base
  }

  /** What `join_uri` returns: on s3 the part segments are appended to the base key. */
  function JoinUri(base: string, parts: seq<Option<string>>): Result<string> {
    match ParseUri(base)
    case Err => Err
    case Ok(S3(bucket, key)) => Ok(Render(S3(bucket, Join(Segments(key) + PartSegments(parts)))))
    case Ok(Local(path)) => Ok(JoinLocal(path, Join(CleanParts(parts))))
  }

  lemma StripSlashKeepsSegments(s: string)
    ensures Segments(Strip(s, IsSlash)) == Segments(s)
  {
    LStripKeepsSegments(s);
    RStripKeepsSegments(LStrip(s, IsSlash));
  }

  lemma {:induction false} CleanPartsSegments(parts: seq<Option<string>>)
    ensures FlatSegments(CleanParts(parts)) == PartSegments(parts)
  {
    if parts != [] {
      CleanPartsSegments(parts[1..]);
      var head, rest := CleanPart(parts[0]), CleanParts(parts[1..]);
      if head == [] {
        assert head + rest == rest;
        assert PartSegment(parts[0]) == [];
      } else {
        StripSlashKeepsSegments(Strip(parts[0].value, IsSpace));
        assert (head + rest)[1..] == rest;
      }
    }
  }

  /** The executable join: clean the parts in a loop, glue, collapse slashes. */
  method JoinUriImpl(base: string, parts: seq<Option<string>>) returns (r: Result<string>)
    ensures r == JoinUri(base, parts)
  {
    var parsed := ParseUri(base);
    if parsed.Err? { return Err; }
    var cleaned := CleanLoop(parts);
    var suffix := Join(cleaned);
    match parsed.value {
      case Local(path) =>
        r := Ok(JoinLocal(path, suffix));
      case S3(bucket, key) =>
        var combined := if key != "" && suffix != "" then key + "/" + suffix
                        else if suffix != "" then suffix else key;
        GlueSegments(key, suffix);
        SegmentsOfJoinAny(cleaned);
        CleanPartsSegments(parts);
        combined := StripDoubleSlashes(combined);
        r := Ok(Render(S3(bucket, combined)));
    }
  }

  lemma GlueSegments(key: string, suffix: string)
    ensures Segments(if key != "" && suffix != "" then key + "/" + suffix
                     else if suffix != "" then suffix else key) == Segments(key) + Segments(suffix)
  {
    SegmentsConcat(key, suffix);
    assert Segments("") == [];
  }

  method CleanLoop(parts: seq<Option<string>>) returns (cleaned: seq<string>)
    ensures cleaned == CleanParts(parts)
  {
    cleaned := [];
    for i := 0 to |parts|
      invariant cleaned + CleanParts(parts[i..]) == CleanParts(parts)
    {
      assert parts[i..][1..] == parts[i + 1..];
      ghost var before, rest := cleaned, CleanParts(parts[i + 1..]);
      if parts[i].Some? {
        var t := Strip(parts[i].value, IsSpace);
        if t != "" { cleaned := cleaned + [Strip(t, IsSlash)]; }
      }
      assert cleaned == before + CleanPart(parts[i]);
      Assoc(before, CleanPart(parts[i]), rest);
    }
    assert parts[|parts|..] == [];
  }

  lemma PartSegmentsHead(p: seq<Option<string>>, q: seq<Option<string>>)
    requires p != []
    ensures PartSegments(p + q) == PartSegment(p[0]) + PartSegments(p[1..] + q)
  {
    assert (p + q)[1..] == p[1..] + q;
  }

  lemma {:induction false} PartSegmentsConcat(p: seq<Option<string>>, q: seq<Option<string>>)
    ensures PartSegments(p + q) == PartSegments(p) + PartSegments(q)
  {
    if p == [] {
      assert p + q == q;
    } else {
      PartSegmentsConcat(p[1..], q);
      PartSegmentsHead(p, q);
      Assoc(PartSegment(p[0]), PartSegments(p[1..]), PartSegments(q));
    }
  }

  lemma {:induction false} PartSegmentsClean(p: seq<Option<string>>)
    ensures Clean(PartSegments(p))
  {
    if p != [] {
      PartSegmentsClean(p[1..]);
      if p[0].Some? { SegmentsClean(Strip(p[0].value, IsSpace)); }
    }
  }

  /** A joined s3 URI stays in the base's bucket and its key extends the base key
      segment by segment with exactly the parts' segments. */
  lemma JoinExtendsBase(base: string, parts: seq<Option<string>>, bucket: string, key: string)
    requires ParseUri(base) == Ok(S3(bucket, key))
    ensures JoinUri(base, parts).Ok?
    ensures var u := ParseUri(JoinUri(base, parts).value);
            u.Ok? && u.value.S3? && u.value.bucket == bucket &&
            Segments(u.value.key) == Segments(key) + PartSegments(parts) &&
            Segments(key) <= Segments(u.value.key)
  {
    var segs := Segments(key) + PartSegments(parts);
    SegmentsClean(key);
    PartSegmentsClean(parts);
    SegmentsOfJoin(segs);
    ParseRender(bucket, Join(segs));
  }

  /** Joining in two steps is joining once with all the parts (s3 bases). */
  lemma JoinAssociative(base: string, p: seq<Option<string>>, q: seq<Option<string>>)
    requires ParseUri(base).Ok? && ParseUri(base).value.S3?
    ensures JoinUri(base, p).Ok?
    ensures JoinUri(JoinUri(base, p).value, q) == JoinUri(base, p + q)
  {
    var S3(bucket, key) := ParseUri(base).value;
    JoinExtendsBase(base, p, bucket, key);
    PartSegmentsConcat(p, q);
    Assoc(Segments(key), PartSegments(p), PartSegments(q));
  }

  // ---------- what the helpers mean for the text ----------

  /** Stripping takes characters to drop off both ends and stops at others. */
  lemma StripMeans(s: string, drop: char -> bool) returns (before: string, after: string)
    ensures s == before + Strip(s, drop) + after
    ensures forall c :: c in before || c in after ==> drop(c)
    ensures Strip(s, drop) != "" ==> !drop(Strip(s, drop)[0]) && !drop(Strip(s, drop)[|Strip(s, drop)| - 1])
  {
    before := LStripMeans(s, drop);
    after := RStripMeans(LStrip(s, drop), drop);
    assert before + (Strip(s, drop) + after) == before + Strip(s, drop) + after;
  }

  lemma {:induction false} LStripMeans(s: string, drop: char -> bool) returns (before: string)
    ensures s == before + LStrip(s, drop) && forall c :: c in before ==> drop(c)
    ensures LStrip(s, drop) != "" ==> !drop(LStrip(s, drop)[0])
  {
    before := "";
    if s != "" && drop(s[0]) {
      var rest := LStripMeans(s[1..], drop);
      before := [s[0]] + rest;
      assert s == [s[0]] + s[1..];
    }
  }

  lemma {:induction false} RStripMeans(s: string, drop: char -> bool) returns (after: string)
    ensures s == RStrip(s, drop) + after && forall c :: c in after ==> drop(c)
    ensures RStrip(s, drop) != "" ==> !drop(RStrip(s, drop)[|RStrip(s, drop)| - 1]) && RStrip(s, drop)[0] == s[0]
  {
    after := "";
    if s != "" && drop(s[|s| - 1]) {
      var rest := RStripMeans(s[..|s| - 1], drop);
      after := rest + [s[|s| - 1]];
      assert s == s[..|s| - 1] + [s[|s| - 1]];
    }
  }

  /** Blanks, tabs and line ends are spaces; visible ASCII characters are not. */
  lemma SpaceMeans(c: char)
    ensures c in " \t\n\r" ==> IsSpace(c)
    ensures '!' <= c <= '~' ==> !IsSpace(c)
  {}

  /** How URIs are read: empty texts and empty buckets or paths are errors, an s3 text is a
      bucket up to the first slash and a key, `file://` is dropped, all else is a path. */
  lemma ParseMeans(bucket: string, key: string, path: string)
    requires '/' !in bucket
    ensures ParseUri("") == Err
    ensures ParseUri("s3://" + bucket + "/" + key) == if bucket == "" then Err else Ok(S3(bucket, Canonical(key)))
    ensures ParseUri("s3://" + bucket) == if bucket == "" then Err else Ok(S3(bucket, ""))
    ensures ParseUri("file://" + path) == if path == "" then Err else Ok(Local(path))
    ensures path != "" && !("s3://" <= path) && !("file://" <= path) ==> ParseUri(path) == Ok(Local(path))
  {
    assert "s3://" + bucket + "/" + key == "s3://" + (bucket + "/" + key);
    assert ("s3://" + (bucket + "/" + key))[5..] == bucket + "/" + key;
    SplitFirstOfConcat(bucket, key);
    assert ("s3://" + bucket)[5..] == bucket;
    SplitFirstAlone(bucket);
    assert Canonical("") == "";
    assert ("file://" + path)[7..] == path && ("file://" + path)[0] == 'f';
  }

  lemma {:induction false} SplitFirstAlone(s: string)
    requires '/' !in s
    ensures SplitFirst(s) == (s, "")
  {
    if s != "" {
      SplitFirstAlone(s[1..]);
      assert s == [s[0]] + s[1..];
    }
  }

  /** On local paths: the base without trailing slashes, a slash, and the suffix. */
  lemma JoinLocalMeans(base: string, slashes: string, suffix: string)
    requires base == "" || base[|base| - 1] != '/'
    requires forall i :: 0 <= i < |slashes| ==> slashes[i] == '/'
    ensures JoinLocal(base + slashes, suffix) ==
      if suffix == "" then base else if base == "" then suffix else base + "/" + suffix
  {
    RStripAll(base, slashes);
  }

  lemma {:induction false} RStripAll(base: string, slashes: string)
    requires base == "" || base[|base| - 1] != '/'
    requires forall i :: 0 <= i < |slashes| ==> slashes[i] == '/'
    ensures RStrip(base + slashes, IsSlash) == base
  {
    var s := base + slashes;
    if slashes == "" {
      assert s == base;
    } else {
      assert s[..|s| - 1] == base + slashes[..|slashes| - 1];
      RStripAll(base, slashes[..|slashes| - 1]);
    }
  }
}
