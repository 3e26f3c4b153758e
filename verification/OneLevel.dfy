/**
 "A single star matches one level only" (scripts/_local_devscale_lib.py, lines 14-16):
 the compiled expression keeps that promise, the matcher `_match_any` with its fnmatch
 fallback (lines 126-135) does not. Here is exactly when it does.
 */
module OneLevel {
  import opened Glob

  /** The matcher says of `k` what the glob says. */
  predicate Agrees(member: (string, char) -> bool, p: string, k: string) {
    MatchOne(member, p, k) <==> GlobMatch(p, k)
  }

  /** The matcher is the glob, on every key. */
  ghost predicate KeepsPromise(member: (string, char) -> bool, p: string) {
    forall k: string :: '\n' !in k ==> Agrees(member, p, k)
  }

  /** The promise that `*` matches one level only holds of the regular expression and
      fails of the matcher that is used: the fallback lets `*` cross a slash. */
  lemma OneLevelPromiseFails(member: (string, char) -> bool)
    ensures !GlobMatch("d/*", "d/a/b") && Matches(member, ["d/*"], "d/a/b")
  {
    var p, k := "d/*", "d/a/b";
    assert p[1..] == "/*" && "/*"[1..] == "*" && "*"[1..] == "";
    assert k[1..] == "/a/b" && "/a/b"[1..] == "a/b";
    assert Head(p) == (Lit('d'), 1) && Head("/*") == (Lit('/'), 1) && Head("*") == (SegStar, 1);
    assert "a/b"[3..] == "";
    assert FnMatch(member, "", "a/b"[3..]);
    assert FnMatch(member, "*", "a/b");
    assert FnMatch(member, "/*", "/a/b");
    assert MatchOne(member, ["d/*"][0], k);
    forall i | 0 <= i <= 3
      ensures '/' in "a/b"[..i] || !GlobMatch("", "a/b"[i..])
    {
      if i == 3 { assert "a/b"[..3][1] == '/'; }
    }
    assert !GlobMatch("*", "a/b");
  }

  // ---------- which keys are safe ----------

  /** What fnmatch takes from a key without slashes, the glob's head token takes too. */
  lemma FlatStep(member: (string, char) -> bool, p: string, k: string) returns (i: nat)
    requires p != "" && '[' !in p && '/' !in k && FnMatch(member, p, k)
    ensures i <= |k| && TokenWord(Head(p).0, k[..i]) && FnMatch(member, p[Head(p).1..], k[i..])
  {
    var (tok, w) := Head(p);
    if tok == One || tok.Lit? {
      i := 1;
    } else {
      i :| 0 <= i <= |k| && FnMatch(member, p[1..], k[i..]);
      if tok != SegStar {
        assert p[1..][0] == '*' && p[1..][1..] == p[2..];
        var j :| 0 <= j <= |k[i..]| && FnMatch(member, p[2..], k[i..][j..]);
        assert k[i..][j..] == k[i + j..];
        i := i + j;
      }
    }
  }

  lemma {:induction false} FlatFnInGlob(member: (string, char) -> bool, p: string, k: string)
    requires '[' !in p && '/' !in k && FnMatch(member, p, k)
    ensures GlobMatch(p, k)
    decreases |p|
  {
    if p != "" {
      var i := FlatStep(member, p, k);
      FlatFnInGlob(member, p[Head(p).1..], k[i..]);
      TakesGlobMatch(p, k, i);
    }
  }

  /** The matcher is right about a key for all set-free patterns if and only if the key
      has no slash: only on one-level keys is the one-level promise kept. */
  lemma KeyIsSafeIff(member: (string, char) -> bool, k: string)
    requires '\n' !in k
    ensures '/' !in k <==> forall p: string :: '[' !in p ==> Agrees(member, p, k)
  {
    if '/' !in k {
      forall p: string | '[' !in p ensures Agrees(member, p, k) {
        RegexAcceptsGlob(p, k);
        if FnMatch(member, p, k) { FlatFnInGlob(member, p, k); }
      }
    } else {
      assert "*"[1..] == "" && k[|k|..] == "";
      assert FnMatch(member, "*"[1..], k[|k|..]);
      assert k[..|k|] == k;
      assert forall i :: 0 <= i <= |k| && '/' !in k[..i] ==> i < |k|;
      assert !Agrees(member, "*", k);
    }
  }

  // ---------- which patterns are safe ----------

  /** What fnmatch lets a token stand for that the glob may not: a slash. */
  function WideWord(tok: Token): string {
    match tok
    case AnyStar => ""
    case Lit(c) => [c]
    case _ => "/"
  }

  function Wide(p: string): string
    decreases |p|
  {
    if p == "" then "" else WideWord(Head(p).0) + Wide(p[Head(p).1..])
  }

  lemma {:induction false} WideMatches(member: (string, char) -> bool, p: string)
    requires '[' !in p
    ensures FnMatch(member, p, Wide(p))
    ensures '\n' !in p ==> '\n' !in Wide(p)
    decreases |p|
  {
    if p != "" {
      var (tok, w) := Head(p);
      var k, rest := Wide(p), Wide(p[w..]);
      WideMatches(member, p[w..]);
      match tok
      case AnyStar =>
        assert k == rest && k[0..] == k;
        FnStarStar(member, p, k, 0);
      case DirStar =>
        assert k[1..] == rest && p[2..][0] == '/' && p[2..][1..] == p[3..] && k[0..] == k;
        assert FnMatch(member, p[2..], k);
        FnStarStar(member, p, k, 0);
      case SegStar => assert k[1..] == rest;
      case One => assert k[1..] == rest;
      case Lit(c) => assert k[1..] == rest;
    }
  }

  /** The characters that are no slash. */
  function Plain(s: string): nat {
    if s == "" then 0 else (if s[0] == '/' then 0 else 1) + Plain(s[1..])
  }

  lemma {:induction false} PlainSuffix(k: string, i: nat)
    requires i <= |k|
    ensures Plain(k[i..]) <= Plain(k)
  {
    if i == 0 {
      assert k[0..] == k;
    } else {
      PlainSuffix(k[1..], i - 1);
      assert k[1..][i - 1..] == k[i..];
    }
  }

  lemma WideStep(p: string)
    requires p != ""
    ensures var (tok, w) := Head(p);
      Plain(Wide(p)) == Plain(Wide(p[w..])) + (if tok.Lit? && tok.c != '/' then 1 else 0) &&
      Slashes(Wide(p)) == Slashes(Wide(p[w..])) + (if tok == AnyStar || (tok.Lit? && tok.c != '/') then 0 else 1)
  {
    var (tok, w) := Head(p);
    if tok == AnyStar { assert Wide(p) == Wide(p[w..]); } else { assert Wide(p)[1..] == Wide(p[w..]); }
  }

  /** A glob with a `?` needs one character more that is no slash. */
  lemma {:induction false} NeedsPlain(p: string, k: string)
    requires GlobMatch(p, k)
    ensures Plain(k) >= Plain(Wide(p)) + if Has(p, One) then 1 else 0
    decreases |p|
  {
    if p != "" {
      var (tok, w) := Head(p);
      WideStep(p);
      match tok
      case DirStar =>
        if GlobMatch(p[w..], k) {
          NeedsPlain(p[w..], k);
        } else {
          var i :| 0 < i <= |k| && k[i - 1] == '/' && GlobMatch(p[w..], k[i..]);
          NeedsPlain(p[w..], k[i..]);
          PlainSuffix(k, i);
        }
      case AnyStar =>
        var i :| 0 <= i <= |k| && GlobMatch(p[w..], k[i..]);
        NeedsPlain(p[w..], k[i..]);
        PlainSuffix(k, i);
      case SegStar =>
        var i :| 0 <= i <= |k| && '/' !in k[..i] && GlobMatch(p[w..], k[i..]);
        NeedsPlain(p[w..], k[i..]);
        PlainSuffix(k, i);
      case One => NeedsPlain(p[w..], k[1..]);
      case Lit(c) => NeedsPlain(p[w..], k[1..]);
    }
  }

  lemma {:induction false} NoSlashBefore(k: string, i: nat)
    requires i <= |k| && '/' !in k[..i]
    ensures Slashes(k[i..]) == Slashes(k)
  {
    if i == 0 {
      assert k[0..] == k;
    } else {
      assert k[..i][0] == k[0] && k[1..][..i - 1] == k[..i][1..] && k[1..][i - 1..] == k[i..];
      NoSlashBefore(k[1..], i - 1);
    }
  }

  /** Without double stars a glob takes exactly its literal slashes. */
  lemma {:induction false} TakesFewSlashes(p: string, k: string)
    requires GlobMatch(p, k) && !Has(p, AnyStar) && !Has(p, DirStar)
    ensures Slashes(k) + (if Has(p, SegStar) then 1 else 0) <= Slashes(Wide(p))
    decreases |p|
  {
    if p != "" {
      var (tok, w) := Head(p);
      WideStep(p);
      if tok == SegStar {
        var i :| 0 <= i <= |k| && '/' !in k[..i] && GlobMatch(p[w..], k[i..]);
        TakesFewSlashes(p[w..], k[i..]);
        NoSlashBefore(k, i);
      } else {
        TakesFewSlashes(p[w..], k[1..]);
      }
    }
  }

  /** Only literals and double stars: no token whose meaning the fallback widens. */
  predicate OnlyDoubleStars(p: string) { !Has(p, SegStar) && !Has(p, One) }

  lemma {:induction false} FnInGlob(member: (string, char) -> bool, p: string, k: string)
    requires '[' !in p && OnlyDoubleStars(p) && FnMatch(member, p, k)
    ensures GlobMatch(p, k)
    decreases |p|
  {
    if p != "" {
      var (tok, w) := Head(p);
      if tok.Lit? {
        FnInGlob(member, p[1..], k[1..]);
      } else {
        var i :| 0 <= i <= |k| && FnMatch(member, p[1..], k[i..]);
        assert p[1..][0] == '*' && p[1..][1..] == p[2..];
        var j :| 0 <= j <= |k[i..]| && FnMatch(member, p[2..], k[i..][j..]);
        assert k[i..][j..] == k[i + j..];
        if tok == AnyStar {
          FnInGlob(member, p[2..], k[i + j..]);
        } else {
          assert p[2..][0] == '/' && p[2..][1..] == p[3..];
          assert k[i + j..][1..] == k[i + j + 1..];
          FnInGlob(member, p[3..], k[i + j + 1..]);
          assert k[i + j + 1 - 1] == '/';
        }
      }
    }
  }

  /** On patterns built from literals and double stars the matcher is the glob. */
  lemma DoubleStarsAreSafe(member: (string, char) -> bool, p: string)
    requires '[' !in p && (OnlyDoubleStars(p) || '\n' in p)
    ensures KeepsPromise(member, p)
  {
    forall k: string | '\n' !in k ensures Agrees(member, p, k) {
      RegexAcceptsGlob(p, k);
      if FnMatch(member, p, k) {
        if '\n' in p { FnNeedsNewline(member, p, k); } else { FnInGlob(member, p, k); }
      }
    }
  }

  /** A `?`, wherever it stands, breaks the promise: some key gives it a slash. */
  lemma QuestionMarkBreaks(member: (string, char) -> bool, p: string)
    requires '[' !in p && '\n' !in p && Has(p, One)
    ensures !KeepsPromise(member, p)
  {
    WideMatches(member, p);
    if GlobMatch(p, Wide(p)) { NeedsPlain(p, Wide(p)); }
    assert !Agrees(member, p, Wide(p));
  }

  /** For set-free patterns that do not mix single and double stars, the matcher is the
      glob on all keys if and only if the pattern holds neither a single star nor a `?`
      (or holds a newline, and then neither matches anything). */
  lemma PatternIsSafeIff(member: (string, char) -> bool, p: string)
    requires '[' !in p
    requires !Has(p, SegStar) || (!Has(p, AnyStar) && !Has(p, DirStar))
    ensures KeepsPromise(member, p) <==> OnlyDoubleStars(p) || '\n' in p
  {
    if OnlyDoubleStars(p) || '\n' in p {
      DoubleStarsAreSafe(member, p);
    } else if Has(p, One) {
      QuestionMarkBreaks(member, p);
    } else {
      WideMatches(member, p);
      if GlobMatch(p, Wide(p)) { TakesFewSlashes(p, Wide(p)); }
      assert !Agrees(member, p, Wide(p));
    }
  }

  predicate NoDoubleStar(p: string) { forall i :: 0 < i < |p| ==> !(p[i - 1] == '*' && p[i] == '*') }

  lemma {:induction false} TokensOfText(p: string)
    requires NoDoubleStar(p)
    ensures !Has(p, AnyStar) && !Has(p, DirStar)
    ensures Has(p, SegStar) <==> '*' in p
    ensures Has(p, One) <==> '?' in p
    decreases |p|
  {
    if p != "" {
      var (tok, w) := Head(p);
      assert w == 1 by { if |p| > 1 { assert !(p[1 - 1] == '*' && p[1] == '*'); } }
      forall i | 0 < i < |p[1..]| ensures !(p[1..][i - 1] == '*' && p[1..][i] == '*') {
        assert !(p[i + 1 - 1] == '*' && p[i + 1] == '*');
      }
      TokensOfText(p[1..]);
    }
  }

  /** The same, read off the text: a set-free pattern without `**` is safe exactly when it
      holds neither `*` nor `?`. */
  lemma SingleStarsAreUnsafe(member: (string, char) -> bool, p: string)
    requires '[' !in p && NoDoubleStar(p)
    ensures KeepsPromise(member, p) <==> ('*' !in p && '?' !in p) || '\n' in p
  {
    TokensOfText(p);
    PatternIsSafeIff(member, p);
  }
}
