/**
 The include/exclude matcher of the devscale planner: a hand-written compiler from
 globs to regular-expression text, plus an fnmatch fallback
 (scripts/_local_devscale_lib.py, lines 91-135).
 */
module Glob {
  import opened Wrappers

  // ---------- regular expressions and their meaning ----------

  datatype Re =
    | Empty
    | Chr(c: char)
    | NotSlash                 // [^/]
    | Dot                      // .   (any character but a newline)
    | Cat(a: Re, b: Re)
    | Star(body: Re)
    | Opt(body: Re)

  /** `s` is a word of the language of `re`. */
  predicate Lang(re: Re, s: string)
    decreases re, |s|
  {
    match re
    case Empty => s == ""
    case Chr(c) => s == [c]
    case NotSlash => |s| == 1 && s[0] != '/'
    case Dot => |s| == 1 && s[0] != '\n'
    case Cat(a, b) => exists i :: 0 <= i <= |s| && Lang(a, s[..i]) && Lang(b, s[i..])
    case Star(a) => s == "" || exists i :: 0 < i <= |s| && Lang(a, s[..i]) && Lang(re, s[i..])
    case Opt(a) => s == "" || Lang(a, s)
  }

  /** `re.compile("^...$").match(s)`: `$` also matches before one final newline. */
  predicate Accepts(re: Re, s: string) {
    Lang(re, s) || (s != "" && s[|s| - 1] == '\n' && Lang(re, s[..|s| - 1]))
  }

  // ---------- the regular-expression syntax the compiler emits ----------

  /** Characters with a meaning of their own in a pattern; `re.escape` backslashes these. */
  predicate IsSpecial(c: char) {
    c in "()[]{}?*+-|^$\\.&~# \t\n\r" || c == '\U{b}' || c == '\U{c}'
  }

  function Escape(c: char): string { if IsSpecial(c) then ['\\', c] else [c] }

  /** One atom of pattern text with its postfix operator, and the text that follows. */
  function ReadAtom(t: string): (r: Option<(Re, string)>)
    ensures r.Some? ==> |r.value.1| < |t|
    decreases |t|, 0
  {
    if t == "" then None
    else if t[0] == '\\' then
      if |t| < 2 || !IsSpecial(t[1]) then None else Some(ReadPostfix(Chr(t[1]), t[2..]))
    else if t[0] == '.' then Some(ReadPostfix(Dot, t[1..]))
    else if t[0] == '[' then
      if "[^/]" <= t then Some(ReadPostfix(NotSlash, t[4..])) else None
    else if t[0] == '(' then
      if "(?:" <= t then
        var body := ReadSeq(t[3..]);
        if body.Some? && body.value.1 != "" && body.value.1[0] == ')'
        then Some(ReadPostfix(body.value.0, body.value.1[1..])) else None
      else None
    else if t[0] in ")*?+{|^$" then None
    else Some(ReadPostfix(Chr(t[0]), t[1..]))
  }

  function ReadPostfix(atom: Re, t: string): (r: (Re, string))
    ensures |r.1| <= |t|
  {
    if t != "" && t[0] == '*' then (Star(atom), t[1..])
    else if t != "" && t[0] == '?' then (Opt(atom), t[1..])
    else (atom, t)
  }

  /** Atoms up to the end of the text, a closing parenthesis or the final `$`. */
  function ReadSeq(t: string): (r: Option<(Re, string)>)
    ensures r.Some? ==> |r.value.1| <= |t|
    decreases |t|, 1
  {
    if t == "" || t[0] == ')' || t[0] == '$' then Some((Empty, t))
    else
      var a := ReadAtom(t);
      if a.None? then None
      else
        var rest := ReadSeq(a.value.1);
        if rest.None? then None else Some((Cat(a.value.0, rest.value.0), rest.value.1))
  }

  /** The meaning of a whole anchored pattern text. */
  function ReadPattern(t: string): Option<Re> {
    if t == "" || t[0] != '^' then None
    else
      var body := ReadSeq(t[1..]);
      if body.Some? && body.value.1 == "$" then Some(body.value.0) else None
  }

  predicate TextAccepts(t: string, s: string) {
    ReadPattern(t).Some? && Accepts(ReadPattern(t).value, s)
  }

  // ---------- the compiler ----------

  datatype Token = DirStar | AnyStar | SegStar | One | Lit(c: char)

  /** The token the source's branches consume at the head of `p`, and its width. */
  function Head(p: string): (r: (Token, nat))
    requires p != ""
    ensures 0 < r.1 <= |p|
  {
    if p[0] == '*' then
      if |p| > 1 && p[1] == '*' then
        if |p| > 2 && p[2] == '/' then (DirStar, 3) else (AnyStar, 2)
      else (SegStar, 1)
    else if p[0] == '?' then (One, 1)
    else (Lit(p[0]), 1)
  }

  function Text(tok: Token): string {
    match tok
    case DirStar => "(?:.*/)?"
    case AnyStar => ".*"
    case SegStar => "[^/]*"
    case One => "[^/]"
    case Lit(c) => Escape(c)
  }

  function Body(p: string): string
    decreases |p|
  {
    if p == "" then "" else Text(Head(p).0) + Body(p[Head(p).1..])
  }

  /** The text emitted for a glob. */
  function RegexText(p: string): string { "^" + Body(p) + "$" }

  /** The branches of the loop, read at index `i`, are the head token of the rest. */
  lemma HeadAt(pat: string, i: nat)
    requires i < |pat|
    ensures Head(pat[i..]) ==
      if pat[i] == '*' then
        if i + 1 < |pat| && pat[i + 1] == '*' then
          if i + 2 < |pat| && pat[i + 2] == '/' then (DirStar, 3) else (AnyStar, 2)
        else (SegStar, 1)
      else if pat[i] == '?' then (One, 1)
      else (Lit(pat[i]), 1)
  {}

  lemma BodyAt(pat: string, i: nat, text: string)
    requires i < |pat|
    ensures var (tok, w) := Head(pat[i..]);
            i + w <= |pat| && text + Body(pat[i..]) == (text + Text(tok)) + Body(pat[i + w..])
  {
    var (tok, w) := Head(pat[i..]);
    assert pat[i..][w..] == pat[i + w..];
    Assoc(text, Text(tok), Body(pat[i + w..]));
  }

  /** The index loop and the text it accumulates. */
  method GlobToRegex(pat: string) returns (text: string)
    ensures text == RegexText(pat)
  {
    text := "^";
    var i := 0;
    while i < |pat|
      invariant 0 <= i <= |pat|
      invariant text + Body(pat[i..]) == "^" + Body(pat)
    {
      HeadAt(pat, i);
      BodyAt(pat, i, text);
      var tok: Token, width: nat;
      if pat[i] == '*' {
        if i + 1 < |pat| && pat[i + 1] == '*' {
          if i + 2 < |pat| && pat[i + 2] == '/' {
            tok, width := DirStar, 3;
          } else {
            tok, width := AnyStar, 2;
          }
        } else {
          tok, width := SegStar, 1;
        }
      } else if pat[i] == '?' {
        tok, width := One, 1;
      } else {
        tok, width := Lit(pat[i]), 1;
      }
      assert (tok, width) == Head(pat[i..]);
      text := text + Text(tok);
      i := i + width;
    }
    assert Body(pat[i..]) == "";
    text := text + "$";
  }

  lemma Assoc(a: string, b: string, c: string)
    ensures a + (b + c) == (a + b) + c
  {}

  function TokenRe(tok: Token): Re {
    match tok
    case DirStar => Opt(Cat(Star(Dot), Cat(Chr('/'), Empty)))
    case AnyStar => Star(Dot)
    case SegStar => Star(NotSlash)
    case One => NotSlash
    case Lit(c) => Chr(c)
  }

  function Compiled(p: string): Re
    decreases |p|
  {
    if p == "" then Empty else Cat(TokenRe(Head(p).0), Compiled(p[Head(p).1..]))
  }

  /** No token's text starts with a postfix operator or closes a group, so nothing
      that follows an atom can change the atom's meaning. */
  lemma TokenTextStart(p: string, tail: string)
    requires tail == "$"
    ensures Body(p) + tail != ""
    ensures (Body(p) + tail)[0] !in ")*?"
    ensures p != "" ==> (Body(p) + tail)[0] != '$'
  {
    if p != "" {
      var txt := Text(Head(p).0);
      assert |txt| > 0;
      assert (Body(p) + tail)[0] == txt[0];
      if Head(p).0.Lit? { assert txt[0] == '\\' || !IsSpecial(txt[0]); }
    }
  }

  lemma ReadClose(close: string)
    requires close != "" && close[0] == ')'
    ensures ReadSeq("/" + close) == Some((Cat(Chr('/'), Empty), close))
  {
    assert ("/" + close)[1..] == close;
    assert ReadAtom("/" + close) == Some((Chr('/'), close));
  }

  lemma ReadInner(close: string)
    requires close != "" && close[0] == ')'
    ensures ReadSeq(".*/" + close) == Some((Cat(Star(Dot), Cat(Chr('/'), Empty)), close))
  {
    var t := ".*/" + close;
    assert t[1..] == "*/" + close;
    assert t[1..][1..] == "/" + close;
    assert ReadAtom(t) == Some((Star(Dot), "/" + close));
    ReadClose(close);
  }

  /** Reading a group is reading what is between its parentheses. */
  lemma ReadAtomGroup(t: string, body: Re, close: string)
    requires "(?:" <= t && ReadSeq(t[3..]) == Some((body, close))
    requires close != "" && close[0] == ')'
    ensures ReadAtom(t) == Some(ReadPostfix(body, close[1..]))
  {}

  lemma ReadOpt(body: Re, t: string, rest: string)
    requires t == ")?" + rest
    ensures ReadPostfix(body, t[1..]) == (Opt(body), rest)
  {
    assert t[1..] == "?" + rest;
    assert ("?" + rest)[1..] == rest;
  }

  lemma GroupText(rest: string)
    ensures var t := Text(DirStar) + rest; "(?:" <= t && t[3..] == ".*/" + (")?" + rest)
  {}

  lemma ReadGroup(rest: string)
    ensures ReadAtom(Text(DirStar) + rest) == Some((TokenRe(DirStar), rest))
  {
    var body := Cat(Star(Dot), Cat(Chr('/'), Empty));
    GroupText(rest);
    ReadInner(")?" + rest);
    ReadAtomGroup(Text(DirStar) + rest, body, ")?" + rest);
    ReadOpt(body, ")?" + rest, rest);
  }

  lemma ReadLit(c: char, rest: string)
    requires rest != "" && rest[0] !in "*?"
    ensures ReadAtom(Escape(c) + rest) == Some((Chr(c), rest))
  {
    var t := Escape(c) + rest;
    if IsSpecial(c) {
      assert t[0] == '\\' && t[2..] == rest;
    } else {
      assert t[0] == c && t[1..] == rest;
    }
  }

  lemma ReadStars(rest: string)
    ensures ReadAtom(".*" + rest) == Some((Star(Dot), rest))
    ensures ReadAtom("[^/]*" + rest) == Some((Star(NotSlash), rest))
  {
    assert (".*" + rest)[1..] == "*" + rest;
    assert "[^/]" <= "[^/]*" + rest && ("[^/]*" + rest)[4..] == "*" + rest;
    assert ("*" + rest)[1..] == rest;
  }

  lemma ReadOne(rest: string)
    requires rest != "" && rest[0] !in "*?"
    ensures ReadAtom("[^/]" + rest) == Some((NotSlash, rest))
  {
    assert "[^/]" <= "[^/]" + rest && ("[^/]" + rest)[4..] == rest;
  }

  lemma ReadToken(tok: Token, rest: string)
    requires rest != "" && rest[0] !in "*?"
    ensures ReadAtom(Text(tok) + rest) == Some((TokenRe(tok), rest))
  {
    match tok
    case DirStar => ReadGroup(rest);
    case AnyStar => ReadStars(rest);
    case SegStar => ReadStars(rest);
    case One => ReadOne(rest);
    case Lit(c) => ReadLit(c, rest);
  }

  lemma {:induction false} ReadBody(p: string)
    ensures ReadSeq(Body(p) + "$") == Some((Compiled(p), "$"))
    decreases |p|
  {
    if p == "" {
      assert Body(p) + "$" == "$";
    } else {
      var (tok, w) := Head(p);
      var rest := Body(p[w..]) + "$";
      ReadBody(p[w..]);
      TokenTextStart(p[w..], "$");
      ReadToken(tok, rest);
      TokenTextStart(p, "$");
      Assoc(Text(tok), Body(p[w..]), "$");
    }
  }

  /** The emitted text, read back by the regular-expression grammar, is exactly the
      intended expression: escaping never lets a literal act as an operator. */
  lemma EmittedTextMeans(p: string)
    ensures ReadPattern(RegexText(p)) == Some(Compiled(p))
  {
    ReadBody(p);
    assert RegexText(p)[1..] == Body(p) + "$";
  }

  // ---------- what a glob denotes ----------

  /** Direct meaning: `*` and `?` stay inside a segment, `**` is any text, and
      `**` followed by a slash is nothing or any text ending in a slash. */
  predicate GlobMatch(p: string, k: string)
    decreases |p|
  {
    if p == "" then k == ""
    else
      var (tok, w) := Head(p);
      match tok
      case DirStar => GlobMatch(p[w..], k) || exists i :: 0 < i <= |k| && k[i - 1] == '/' && GlobMatch(p[w..], k[i..])
      case AnyStar => exists i :: 0 <= i <= |k| && GlobMatch(p[w..], k[i..])
      case SegStar => exists i :: 0 <= i <= |k| && '/' !in k[..i] && GlobMatch(p[w..], k[i..])
      case One => k != "" && k[0] != '/' && GlobMatch(p[w..], k[1..])
      case Lit(c) => k != "" && k[0] == c && GlobMatch(p[w..], k[1..])
  }

  /** The denotation wildcard by wildcard, on the pattern's text: what each one in front of
      a pattern may stand for, and that every other character stands for itself. */
  lemma GlobLaws(p: string, k: string, c: char)
    ensures GlobMatch("", k) <==> k == ""
    ensures GlobMatch("**/" + p, k) <==>
      GlobMatch(p, k) || exists i :: 0 < i <= |k| && k[i - 1] == '/' && GlobMatch(p, k[i..])
    ensures !("/" <= p) ==> (GlobMatch("**" + p, k) <==> exists i :: 0 <= i <= |k| && GlobMatch(p, k[i..]))
    ensures !("*" <= p) ==>
      (GlobMatch("*" + p, k) <==> exists i :: 0 <= i <= |k| && '/' !in k[..i] && GlobMatch(p, k[i..]))
    ensures GlobMatch("?" + p, k) <==> k != "" && k[0] != '/' && GlobMatch(p, k[1..])
    ensures c != '*' && c != '?' ==> (GlobMatch([c] + p, k) <==> k != "" && k[0] == c && GlobMatch(p, k[1..]))
  {
    GlobHead("**/", p, k);
    if !("/" <= p) { GlobHead("**", p, k); }
    if !("*" <= p) { GlobHead("*", p, k); }
    GlobHead("?", p, k);
    if c != '*' && c != '?' { GlobHead([c], p, k); }
  }

  /** One step of the denotation, by the text at the head. */
  lemma GlobHead(head: string, p: string, k: string)
    requires head != "" && Head(head + p).1 == |head|
    ensures GlobMatch(head + p, k) <==>
      match Head(head + p).0 {
        case DirStar => GlobMatch(p, k) || exists i :: 0 < i <= |k| && k[i - 1] == '/' && GlobMatch(p, k[i..])
        case AnyStar => exists i :: 0 <= i <= |k| && GlobMatch(p, k[i..])
        case SegStar => exists i :: 0 <= i <= |k| && '/' !in k[..i] && GlobMatch(p, k[i..])
        case One => k != "" && k[0] != '/' && GlobMatch(p, k[1..])
        case Lit(c) => k != "" && k[0] == c && GlobMatch(p, k[1..])
      }
  {
    assert (head + p)[|head|..] == p;
  }

  lemma {:induction false} StarDot(s: string)
    ensures Lang(Star(Dot), s) <==> '\n' !in s
    decreases |s|
  {
    if s != "" {
      StarDot(s[1..]);
      assert s == s[..1] + s[1..];
      if '\n' !in s { assert Lang(Dot, s[..1]); }
      if Lang(Star(Dot), s) {
        var i :| 0 < i <= |s| && Lang(Dot, s[..i]) && Lang(Star(Dot), s[i..]);
        assert i == 1;
      }
    }
  }

  lemma {:induction false} StarNotSlash(s: string)
    ensures Lang(Star(NotSlash), s) <==> '/' !in s
    decreases |s|
  {
    if s != "" {
      StarNotSlash(s[1..]);
      assert s == s[..1] + s[1..];
      if '/' !in s { assert Lang(NotSlash, s[..1]); }
      if Lang(Star(NotSlash), s) {
        var i :| 0 < i <= |s| && Lang(NotSlash, s[..i]) && Lang(Star(NotSlash), s[i..]);
        assert i == 1;
      }
    }
  }

  lemma SlashWord(s: string)
    ensures Lang(Cat(Chr('/'), Empty), s) <==> s == "/"
  {
    if s == "/" {
      assert s[..1] == "/" && s[1..] == "";
      assert Lang(Chr('/'), s[..1]) && Lang(Empty, s[1..]);
    }
    if i :| 0 <= i <= |s| && Lang(Chr('/'), s[..i]) && Lang(Empty, s[i..]) {
      assert s[..i] == s;
    }
  }

  lemma DirStarWords(s: string)
    requires '\n' !in s
    ensures Lang(TokenRe(DirStar), s) <==> s == "" || s[|s| - 1] == '/'
  {
    var tail := Cat(Chr('/'), Empty);
    if s != "" && s[|s| - 1] == '/' {
      var n := |s| - 1;
      StarDot(s[..n]);
      SlashWord(s[n..]);
      assert Lang(Star(Dot), s[..n]) && Lang(tail, s[n..]);
    }
    if s != "" && Lang(Cat(Star(Dot), tail), s) {
      var i :| 0 <= i <= |s| && Lang(Star(Dot), s[..i]) && Lang(tail, s[i..]);
      SlashWord(s[i..]);
      assert s[|s| - 1] == s[i..][0];
    }
  }

  /** The words a single token contributes. */
  predicate TokenWord(tok: Token, s: string) {
    match tok
    case DirStar => s == "" || s[|s| - 1] == '/'
    case AnyStar => true
    case SegStar => '/' !in s
    case One => |s| == 1 && s[0] != '/'
    case Lit(c) => s == [c]
  }

  lemma TokenReWords(tok: Token, s: string)
    requires '\n' !in s
    ensures Lang(TokenRe(tok), s) <==> TokenWord(tok, s)
  {
    match tok
    case DirStar => DirStarWords(s);
    case AnyStar => StarDot(s);
    case SegStar => StarNotSlash(s);
    case One =>
    case Lit(c) =>
  }

  /** Matching is choosing the prefix that the head token takes. */
  ghost predicate TakesPrefix(p: string, k: string, i: nat)
    requires p != "" && i <= |k|
  {
    TokenWord(Head(p).0, k[..i]) && GlobMatch(p[Head(p).1..], k[i..])
  }

  lemma GlobMatchTakes(p: string, k: string) returns (i: nat)
    requires p != "" && GlobMatch(p, k)
    ensures i <= |k| && TakesPrefix(p, k, i)
  {
    var (tok, w) := Head(p);
    var rest := p[w..];
    match tok
    case DirStar =>
      if GlobMatch(rest, k) {
        i := 0;
        assert k[0..] == k;
      } else {
        i :| 0 < i <= |k| && k[i - 1] == '/' && GlobMatch(rest, k[i..]);
        assert k[..i][|k[..i]| - 1] == k[i - 1];
      }
    case AnyStar => i :| 0 <= i <= |k| && GlobMatch(rest, k[i..]);
    case SegStar => i :| 0 <= i <= |k| && '/' !in k[..i] && GlobMatch(rest, k[i..]);
    case One => i := 1; assert k[..1] == [k[0]];
    case Lit(c) => i := 1; assert k[..1] == [k[0]];
  }

  lemma TakesGlobMatch(p: string, k: string, i: nat)
    requires p != "" && i <= |k| && TakesPrefix(p, k, i)
    ensures GlobMatch(p, k)
  {
    match Head(p).0
    case DirStar =>
      if i > 0 { assert k[..i][i - 1] == k[i - 1]; } else { assert k[0..] == k; }
    case AnyStar =>
    case SegStar =>
    case One => assert i == 1 && k[..i][0] == k[0];
    case Lit(c) => assert i == 1 && k[..i][0] == k[0];
  }

  lemma {:induction false} CompiledMeansGlob(p: string, k: string)
    requires '\n' !in k
    ensures Lang(Compiled(p), k) <==> GlobMatch(p, k)
    decreases |p|
  {
    if p != "" {
      var (tok, w) := Head(p);
      if GlobMatch(p, k) {
        var i := GlobMatchTakes(p, k);
        TokenReWords(tok, k[..i]);
        CompiledMeansGlob(p[w..], k[i..]);
      }
      if Lang(Compiled(p), k) {
        var i :| 0 <= i <= |k| && Lang(TokenRe(tok), k[..i]) && Lang(Compiled(p[w..]), k[i..]);
        TokenReWords(tok, k[..i]);
        CompiledMeansGlob(p[w..], k[i..]);
        TakesGlobMatch(p, k, i);
      }
    }
  }

  /** Compiler correctness: on every key without a newline, the emitted regular
      expression accepts exactly the keys the glob denotes. */
  lemma RegexAcceptsGlob(p: string, k: string)
    requires '\n' !in k
    ensures TextAccepts(RegexText(p), k) <==> GlobMatch(p, k)
  {
    EmittedTextMeans(p);
    CompiledMeansGlob(p, k);
    if k != "" { assert k[|k| - 1] in k; }
  }

  // ---------- the newline condition is exact ----------

  /** A glob that fixes only the length and the slashes of a key. */
  function Mask(s: string): string {
    if s == "" then "" else [if s[0] == '/' then '/' else '?'] + Mask(s[1..])
  }

  lemma {:induction false} MaskMatches(s: string, k: string)
    ensures GlobMatch(Mask(s), s)
    ensures GlobMatch(Mask(s), k) ==> |k| == |s|
  {
    if s != "" {
      assert Mask(s)[1..] == Mask(s[1..]);
      if k != "" { MaskMatches(s[1..], k[1..]); } else { MaskMatches(s[1..], k); }
    }
  }

  lemma AnyMatchesAll(k: string)
    ensures GlobMatch("**", k)
    ensures Compiled("**") == Cat(Star(Dot), Empty)
  {
    assert Head("**") == (AnyStar, 2);
    assert "**"[2..] == "";
    assert k[|k|..] == "";
    assert GlobMatch("", k[|k|..]);
    assert Compiled("") == Empty;
  }

  /** The compiler is right about a key for all patterns if and only if the key holds
      no newline: `.` refuses one, and `$` forgives a final one. */
  lemma NewlineConditionIsExact(k: string)
    ensures '\n' !in k <==> (forall p :: TextAccepts(RegexText(p), k) <==> GlobMatch(p, k))
  {
    if '\n' !in k {
      forall p ensures TextAccepts(RegexText(p), k) <==> GlobMatch(p, k) { RegexAcceptsGlob(p, k); }
    } else {
      var w := k[..|k| - 1];
      if '\n' !in w {
        assert k == w + [k[|k| - 1]];
        var p := Mask(w);
        MaskMatches(w, k);
        RegexAcceptsGlob(p, w);
        EmittedTextMeans(p);
        assert k[|k| - 1] == '\n';
        assert Lang(Compiled(p), w) by { CompiledMeansGlob(p, w); }
        assert TextAccepts(RegexText(p), k) && !GlobMatch(p, k);
      } else {
        AnyMatchesAll(k);
        EmittedTextMeans("**");
        RejectsInnerNewline(k);
        RejectsInnerNewline(w);
        assert '\n' in k by { var i :| 0 <= i < |w| && w[i] == '\n'; assert k[i] == '\n'; }
        assert !TextAccepts(RegexText("**"), k) && GlobMatch("**", k);
      }
    }
  }

  lemma RejectsInnerNewline(k: string)
    requires '\n' in k
    ensures !Lang(Cat(Star(Dot), Empty), k)
  {
    if i :| 0 <= i <= |k| && Lang(Star(Dot), k[..i]) && Lang(Empty, k[i..]) {
      assert k[..i] == k;
      StarDot(k);
      assert false;
    }
  }

  // ---------- the fnmatch fallback ----------

  function Find(p: string, c: char, j: nat): (r: nat)
    requires j <= |p|
    ensures j <= r <= |p|
    decreases |p| - j
  {
    if j == |p| || p[j] == c then j else Find(p, c, j + 1)
  }

  /** Index of the `]` that closes the set opened at the head of `p`; |p| if none. */
  function CloseBracket(p: string): (r: nat)
    requires p != ""
    ensures 1 <= r <= |p|
  {
    var j := if |p| > 1 && p[1] == '!' then 2 else 1;
    var j' := if j < |p| && p[j] == ']' then j + 1 else j;
    Find(p, ']', j')
  }

  /** `fnmatch.fnmatchcase`; `member` says which characters a set's text stands for. */
  predicate FnMatch(member: (string, char) -> bool, p: string, k: string)
    decreases |p|
  {
    if p == "" then k == ""
    else if p[0] == '*' then exists i :: 0 <= i <= |k| && FnMatch(member, p[1..], k[i..])
    else if p[0] == '?' then k != "" && FnMatch(member, p[1..], k[1..])
    else if p[0] == '[' && CloseBracket(p) < |p| then
      k != "" && member(p[1..CloseBracket(p)], k[0]) && FnMatch(member, p[CloseBracket(p) + 1..], k[1..])
    else k != "" && k[0] == p[0] && FnMatch(member, p[1..], k[1..])
  }

  /** `Find` stops at the first occurrence. */
  lemma {:induction false} FindMeans(p: string, c: char, j: nat)
    requires j <= |p|
    ensures forall i :: j <= i < Find(p, c, j) ==> p[i] != c
    ensures Find(p, c, j) < |p| ==> p[Find(p, c, j)] == c
    decreases |p| - j
  {
    if j < |p| && p[j] != c { FindMeans(p, c, j + 1); }
  }

  /** The fallback wildcard by wildcard, on the pattern's text. A set runs from its opening
      to the first closing bracket after that; without one, the bracket stands for itself. */
  lemma FnLaws(member: (string, char) -> bool, p: string, k: string, c: char, body: string)
    ensures FnMatch(member, "", k) <==> k == ""
    ensures FnMatch(member, "*" + p, k) <==> exists i :: 0 <= i <= |k| && FnMatch(member, p, k[i..])
    ensures FnMatch(member, "?" + p, k) <==> k != "" && FnMatch(member, p, k[1..])
    ensures c !in "*?[" ==> (FnMatch(member, [c] + p, k) <==> k != "" && k[0] == c && FnMatch(member, p, k[1..]))
    ensures Closed(body) ==>
      (FnMatch(member, "[" + body + "]" + p, k) <==> k != "" && member(body, k[0]) && FnMatch(member, p, k[1..]))
    ensures Unclosed(p) ==> (FnMatch(member, "[" + p, k) <==> k != "" && k[0] == '[' && FnMatch(member, p, k[1..]))
  {
    FnStar(member, p, k);
    FnChar(member, p, k, c);
    if Closed(body) { FnSet(member, p, k, body); }
    if Unclosed(p) { NothingCloses(p); assert ("[" + p)[1..] == p; }
  }

  lemma FnStar(member: (string, char) -> bool, p: string, k: string)
    ensures FnMatch(member, "*" + p, k) <==> exists i :: 0 <= i <= |k| && FnMatch(member, p, k[i..])
    ensures FnMatch(member, "?" + p, k) <==> k != "" && FnMatch(member, p, k[1..])
  {
    assert ("*" + p)[1..] == p && ("?" + p)[1..] == p;
  }

  lemma FnChar(member: (string, char) -> bool, p: string, k: string, c: char)
    ensures c !in "*?[" ==> (FnMatch(member, [c] + p, k) <==> k != "" && k[0] == c && FnMatch(member, p, k[1..]))
  {
    assert ([c] + p)[1..] == p;
  }

  lemma FnSet(member: (string, char) -> bool, p: string, k: string, body: string)
    requires Closed(body)
    ensures FnMatch(member, "[" + body + "]" + p, k) <==>
      k != "" && member(body, k[0]) && FnMatch(member, p, k[1..])
  {
    var q := "[" + body + "]" + p;
    SetCloses(p, body);
    assert q[1..|body| + 1] == body && q[|body| + 2..] == p;
  }

  /** The text of a set: not empty after the exclamation mark, and a closing bracket at most there. */
  predicate Closed(body: string) {
    var bang := if "!" <= body then 1 else 0;
    |body| > bang && ']' !in body[bang + 1..]
  }

  /** No set can be closed in this text. */
  predicate Unclosed(p: string) {
    var bang := if "!" <= p then 1 else 0;
    |p| <= bang || ']' !in p[bang + 1..]
  }

  lemma SetCloses(p: string, body: string)
    requires Closed(body)
    ensures CloseBracket("[" + body + "]" + p) == |body| + 1
  {
    var q := "[" + body + "]" + p;
    var bang := if "!" <= body then 1 else 0;
    assert forall i :: 0 <= i < |body| ==> q[i + 1] == body[i];
    assert q[|body| + 1] == ']';
    assert forall i :: bang < i < |body| ==> body[i] == body[bang + 1..][i - bang - 1];
    var j := if q[bang + 1] == ']' then bang + 2 else bang + 1;
    assert CloseBracket(q) == Find(q, ']', j);
    FindMeans(q, ']', j);
    assert forall i :: j <= i < |body| + 1 ==> q[i] == body[i - 1];
  }

  lemma NothingCloses(p: string)
    requires Unclosed(p)
    ensures CloseBracket("[" + p) == |p| + 1
  {
    var q := "[" + p;
    var bang := if "!" <= p then 1 else 0;
    assert forall i :: 0 <= i < |p| ==> q[i + 1] == p[i];
    assert forall i :: bang < i < |p| ==> p[i] == p[bang + 1..][i - bang - 1];
    var j := if bang < |p| && p[bang] == ']' then bang + 2 else bang + 1;
    FindMeans(q, ']', j);
    if Find(q, ']', j) < |q| { assert q[Find(q, ']', j)] == p[Find(q, ']', j) - 1]; }
  }

  /** One pattern of `_match_any`: the regular expression, then fnmatch. */
  predicate MatchOne(member: (string, char) -> bool, p: string, k: string) {
    TextAccepts(RegexText(p), k) || FnMatch(member, p, k)
  }

  predicate Matches(member: (string, char) -> bool, pats: seq<string>, k: string) {
    exists i :: 0 <= i < |pats| && MatchOne(member, pats[i], k)
  }

  method MatchAny(member: (string, char) -> bool, pats: seq<string>, key: string) returns (b: bool)
    ensures b <==> Matches(member, pats, key)
  {
    for i := 0 to |pats|
      invariant forall j :: 0 <= j < i ==> !MatchOne(member, pats[j], key)
    {
      var text := GlobToRegex(pats[i]);
      if TextAccepts(text, key) { return true; }
      if FnMatch(member, pats[i], key) { return true; }
    }
    return false;
  }

  /** The compiler meets this token in the pattern. */
  predicate Has(p: string, tok: Token)
    decreases |p|
  {
    p != "" && (Head(p).0 == tok || Has(p[Head(p).1..], tok))
  }

  lemma FnStarStar(member: (string, char) -> bool, p: string, k: string, i: nat)
    requires |p| >= 2 && p[0] == '*' && p[1] == '*' && i <= |k|
    requires FnMatch(member, p[2..], k[i..])
    ensures FnMatch(member, p, k)
  {
    assert p[1..][0] == '*' && p[1..][1..] == p[2..];
    assert k[i..][0..] == k[i..];
    assert FnMatch(member, p[1..], k[i..]);
  }

  lemma {:induction false} GlobInFn(member: (string, char) -> bool, p: string, k: string)
    requires '[' !in p && !Has(p, DirStar) && GlobMatch(p, k)
    ensures FnMatch(member, p, k)
    decreases |p|
  {
    if p != "" {
      var (tok, w) := Head(p);
      match tok
      case DirStar =>
      case AnyStar =>
        var i :| 0 <= i <= |k| && GlobMatch(p[w..], k[i..]);
        GlobInFn(member, p[w..], k[i..]);
        FnStarStar(member, p, k, i);
      case SegStar =>
        var i :| 0 <= i <= |k| && '/' !in k[..i] && GlobMatch(p[w..], k[i..]);
        GlobInFn(member, p[w..], k[i..]);
      case One => GlobInFn(member, p[w..], k[1..]);
      case Lit(c) => GlobInFn(member, p[w..], k[1..]);
    }
  }

  /** The shortest key a glob denotes: wildcards take nothing, `?` takes an `x`. */
  function Least(p: string): string
    decreases |p|
  {
    if p == "" then "" else LeastWord(Head(p).0) + Least(p[Head(p).1..])
  }

  function LeastWord(tok: Token): string {
    match tok
    case One => "x"
    case Lit(c) => [c]
    case _ => ""
  }

  function Slashes(s: string): nat {
    if s == "" then 0 else (if s[0] == '/' then 1 else 0) + Slashes(s[1..])
  }

  lemma {:induction false} LeastMatches(p: string)
    ensures GlobMatch(p, Least(p))
    decreases |p|
  {
    if p != "" {
      var (tok, w) := Head(p);
      LeastMatches(p[w..]);
      var word, rest := LeastWord(tok), Least(p[w..]);
      assert (word + rest)[..|word|] == word && (word + rest)[|word|..] == rest;
      TakesGlobMatch(p, word + rest, |word|);
    }
  }

  lemma {:induction false} LeastSlashes(p: string)
    ensures Slashes(Least(p)) <= Slashes(p)
    ensures Has(p, DirStar) ==> Slashes(Least(p)) < Slashes(p)
    decreases |p|
  {
    if p != "" {
      var (tok, w) := Head(p);
      LeastSlashes(p[w..]);
      var rest := Least(p[w..]);
      SlashesOfHead(p);
      if tok == One || tok.Lit? {
        assert (LeastWord(tok) + rest)[1..] == rest;
      } else {
        assert LeastWord(tok) + rest == rest;
      }
    }
  }

  lemma {:induction false} LeastHasNoNewline(p: string)
    requires '\n' !in p
    ensures '\n' !in Least(p)
    decreases |p|
  {
    if p != "" {
      LeastHasNoNewline(p[Head(p).1..]);
      assert p[0] in p;
    }
  }

  lemma SlashesOfHead(p: string)
    requires p != ""
    ensures Slashes(p) == Slashes(p[Head(p).1..]) + (if Head(p).0 == DirStar || p[0] == '/' then 1 else 0)
  {
    if p[0] == '*' && |p| > 1 && p[1] == '*' {
      assert p[1..][1..] == p[2..];
      if Head(p).0 == DirStar { assert p[2..][1..] == p[3..]; }
    }
  }

  lemma {:induction false} SlashesSuffix(k: string, i: nat)
    requires i <= |k|
    ensures Slashes(k[i..]) <= Slashes(k)
  {
    if i == 0 { assert k[0..] == k; } else { SlashesSuffix(k[1..], i - 1); assert k[1..][i - 1..] == k[i..]; }
  }

  /** fnmatch needs every literal slash of the pattern to be in the key. */
  lemma {:induction false} FnNeedsSlashes(member: (string, char) -> bool, p: string, k: string)
    requires '[' !in p && FnMatch(member, p, k)
    ensures Slashes(p) <= Slashes(k)
    decreases |p|
  {
    if p != "" {
      if p[0] == '*' {
        var i :| 0 <= i <= |k| && FnMatch(member, p[1..], k[i..]);
        FnNeedsSlashes(member, p[1..], k[i..]);
        SlashesSuffix(k, i);
      } else {
        FnNeedsSlashes(member, p[1..], k[1..]);
      }
    }
  }

  /** A newline in the pattern is a literal: without one in the key nothing matches. */
  lemma {:induction false} GlobNeedsNewline(p: string, k: string)
    requires '\n' in p && GlobMatch(p, k)
    ensures '\n' in k
    decreases |p|
  {
    var (tok, w) := Head(p);
    match tok
    case DirStar =>
      assert p[..3] == "**/" && p == p[..3] + p[3..];
      if GlobMatch(p[w..], k) {
        GlobNeedsNewline(p[w..], k);
      } else {
        var i :| 0 < i <= |k| && k[i - 1] == '/' && GlobMatch(p[w..], k[i..]);
        GlobNeedsNewline(p[w..], k[i..]);
      }
    case AnyStar =>
      assert p[..2] == "**" && p == p[..2] + p[2..];
      var i :| 0 <= i <= |k| && GlobMatch(p[w..], k[i..]);
      GlobNeedsNewline(p[w..], k[i..]);
    case SegStar =>
      var i :| 0 <= i <= |k| && '/' !in k[..i] && GlobMatch(p[w..], k[i..]);
      GlobNeedsNewline(p[w..], k[i..]);
    case One => GlobNeedsNewline(p[w..], k[1..]);
    case Lit(c) => if c != '\n' { GlobNeedsNewline(p[w..], k[1..]); }
  }

  lemma {:induction false} FnNeedsNewline(member: (string, char) -> bool, p: string, k: string)
    requires '[' !in p && '\n' in p && FnMatch(member, p, k)
    ensures '\n' in k
    decreases |p|
  {
    if p[0] == '*' {
      var i :| 0 <= i <= |k| && FnMatch(member, p[1..], k[i..]);
      FnNeedsNewline(member, p[1..], k[i..]);
    } else if p[0] != '\n' {
      FnNeedsNewline(member, p[1..], k[1..]);
    }
  }

  /** For set-free patterns the regular expression adds nothing to fnmatch exactly when
      the pattern has no `**` directory token (or can match no key at all, because it
      holds a newline and keys do not); then a single `*` does cross slashes. */
  lemma FallbackSubsumesRegex(member: (string, char) -> bool, p: string)
    requires '[' !in p
    ensures !Has(p, DirStar) || '\n' in p <==>
      (forall k: string :: '\n' !in k ==> (MatchOne(member, p, k) <==> FnMatch(member, p, k)))
  {
    if !Has(p, DirStar) || '\n' in p {
      forall k: string | '\n' !in k ensures MatchOne(member, p, k) <==> FnMatch(member, p, k) {
        RegexAcceptsGlob(p, k);
        if GlobMatch(p, k) {
          if '\n' in p { GlobNeedsNewline(p, k); } else { GlobInFn(member, p, k); }
        }
      }
    } else {
      var k := Least(p);
      LeastMatches(p);
      LeastSlashes(p);
      LeastHasNoNewline(p);
      RegexAcceptsGlob(p, k);
      if FnMatch(member, p, k) { FnNeedsSlashes(member, p, k); }
      assert MatchOne(member, p, k) && !FnMatch(member, p, k);
    }
  }
}
