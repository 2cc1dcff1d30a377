/** Path-pattern matching of the workflow authorization preflight. */
module Glob {
  import opened Text

  const DEFAULT_PATTERN := ".github/workflows/**"
  const DEFAULT_PREFIX := ".github/workflows/"

  /** Reference meaning of a pattern: `*` stands for any text (for any text
      without `/` when `crossSlash` is false), every other character for itself. */
  ghost predicate Matches(pattern: string, s: string, crossSlash: bool)
    decreases |pattern|
  {
    if pattern == "" then s == ""
    else if pattern[0] == '*' then
      exists k {:trigger Skippable(s, k, crossSlash)} ::
        Skippable(s, k, crossSlash) && Matches(pattern[1..], s[k..], crossSlash)
    else s != "" && s[0] == pattern[0] && Matches(pattern[1..], s[1..], crossSlash)
  }

  /** A `*` may stand for the first `k` characters of `s`. */
  ghost predicate Skippable(s: string, k: int, crossSlash: bool)
  {
    0 <= k <= |s| && (crossSlash || '/' !in s[..k])
  }

  ghost predicate SkipTo(rest: string, s: string, k: int, crossSlash: bool)
  {
    Skippable(s, k, crossSlash) && Matches(rest, s[k..], crossSlash)
  }

  /** A literal piece must be found right here. */
  lemma {:induction false} MatchLiteral(lit: string, rest: string, s: string, cross: bool)
    requires '*' !in lit
    ensures Matches(lit + rest, s, cross) <==> lit <= s && Matches(rest, s[|lit|..], cross)
    decreases |lit|
  {
    var p := lit + rest;
    if lit == "" {
      assert p == rest && s[0..] == s;
    } else {
      assert p[1..] == lit[1..] + rest && p[0] == lit[0];
      if s != "" {
        MatchLiteral(lit[1..], rest, s[1..], cross);
        assert lit <= s <==> s[0] == lit[0] && lit[1..] <= s[1..] by {
          if s[0] == lit[0] && lit[1..] <= s[1..] {
            assert lit == [lit[0]] + lit[1..] && s == [s[0]] + s[1..];
          }
        }
        if lit <= s { assert s[1..][|lit| - 1..] == s[|lit|..]; }
      }
    }
  }

  /** A leading `*` skips some of the text. */
  lemma StarSkips(rest: string, s: string, cross: bool)
    ensures Matches("*" + rest, s, cross) <==> exists k :: SkipTo(rest, s, k, cross)
  {
    var p := "*" + rest;
    assert p[0] == '*' && p[1..] == rest;
    if Matches(p, s, cross) {
      var k :| Skippable(s, k, cross) && Matches(p[1..], s[k..], cross);
      assert SkipTo(rest, s, k, cross);
    }
    if exists k :: SkipTo(rest, s, k, cross) {
      var k :| SkipTo(rest, s, k, cross);
      assert Skippable(s, k, cross) && Matches(p[1..], s[k..], cross);
    }
  }

  /** Text in front of a `*` never hurts. */
  lemma StarAbsorbs(rest: string, s: string, i: nat)
    requires i <= |s| && Matches("*" + rest, s[i..], true)
    ensures Matches("*" + rest, s, true)
  {
    StarSkips(rest, s, true);
    StarSkips(rest, s[i..], true);
    var k :| SkipTo(rest, s[i..], k, true);
    assert s[i..][k..] == s[i + k..] && SkipTo(rest, s, i + k, true);
  }

  /** What a piece followed by a `*` asks of the text from `k` on. */
  lemma PieceAt(lit: string, tail: string, s: string, k: nat)
    requires '*' !in lit && k <= |s|
    ensures SkipTo(lit + tail, s, k, true) <==>
            At(s, lit, k) && k + |lit| <= |s| && Matches(tail, s[k + |lit|..], true)
  {
    MatchLiteral(lit, tail, s[k..], true);
    if lit <= s[k..] {
      assert s[k..][|lit|..] == s[k + |lit|..];
    }
  }

  lemma MatchGivesPlace(lit: string, rest: string, s: string) returns (k: nat)
    requires '*' !in lit && Matches("*" + (lit + ("*" + rest)), s, true)
    ensures At(s, lit, k) && k + |lit| <= |s| && Matches("*" + rest, s[k + |lit|..], true)
  {
    StarSkips(lit + ("*" + rest), s, true);
    k :| SkipTo(lit + ("*" + rest), s, k, true);
    PieceAt(lit, "*" + rest, s, k);
  }

  lemma PlaceGivesMatch(lit: string, rest: string, s: string, k: nat)
    requires '*' !in lit && At(s, lit, k) && k + |lit| <= |s| && Matches("*" + rest, s[k + |lit|..], true)
    ensures Matches("*" + (lit + ("*" + rest)), s, true)
  {
    PieceAt(lit, "*" + rest, s, k);
    StarSkips(lit + ("*" + rest), s, true);
  }

  lemma MatchFromLeftmost(lit: string, rest: string, s: string)
    requires '*' !in lit && Matches("*" + (lit + ("*" + rest)), s, true)
    ensures Find(s, lit).Some? && Matches("*" + rest, s[Find(s, lit).value + |lit|..], true)
  {
    var k := MatchGivesPlace(lit, rest, s);
    assert Find(s, lit).Some?;
    var f := Find(s, lit).value;
    assert s[k + |lit|..] == s[f + |lit|..][k - f..];
    StarAbsorbs(rest, s[f + |lit|..], k - f);
  }

  /** Taking the leftmost occurrence of a middle piece loses no match. */
  lemma LeftmostSuffices(lit: string, rest: string, s: string)
    requires '*' !in lit
    ensures match Find(s, lit)
            case None => !Matches("*" + (lit + ("*" + rest)), s, true)
            case Some(f) =>
              Matches("*" + (lit + ("*" + rest)), s, true) <==> Matches("*" + rest, s[f + |lit|..], true)
  {
    var whole := "*" + (lit + ("*" + rest));
    if Matches(whole, s, true) {
      MatchFromLeftmost(lit, rest, s);
    } else if Find(s, lit).Some? {
      var f := Find(s, lit).value;
      if Matches("*" + rest, s[f + |lit|..], true) { PlaceGivesMatch(lit, rest, s, f); }
    }
  }

  lemma WholePiece(lit: string, s: string)
    requires '*' !in lit
    ensures Matches(lit, s, true) <==> s == lit
  {
    assert lit + "" == lit;
    MatchLiteral(lit, "", s, true);
    if lit <= s { assert s == lit + s[|lit|..]; }
  }

  /** A final piece after a `*` is a suffix test. */
  lemma FinalSuffix(last: string, s: string)
    requires '*' !in last
    ensures Matches("*" + last, s, true) <==> |last| <= |s| && s[|s| - |last|..] == last
  {
    StarSkips(last, s, true);
    forall k | 0 <= k <= |s| ensures SkipTo(last, s, k, true) <==> s[k..] == last {
      WholePiece(last, s[k..]);
    }
    if |last| <= |s| {
      assert SkipTo(last, s, |s| - |last|, true) <==> s[|s| - |last|..] == last;
    }
  }

  /** Two adjacent `*` mean the same as one. */
  lemma DoubleStar(rest: string, s: string)
    ensures Matches("*" + ("*" + rest), s, true) <==> Matches("*" + rest, s, true)
  {
    var p, q := "*" + ("*" + rest), "*" + rest;
    StarSkips(q, s, true);
    if Matches(p, s, true) {
      var k: nat :| SkipTo(q, s, k, true);
      StarAbsorbs(rest, s, k);
    }
    if Matches(q, s, true) {
      assert s[0..] == s;
      assert SkipTo(q, s, 0, true);
    }
  }

  predicate StarFree(parts: seq<string>) { forall p :: p in parts ==> '*' !in p }

  /** What is left of the pattern before piece `i`, with the `*` in front of it. */
  ghost function From(parts: seq<string>, i: nat): string
    requires i < |parts|
  {
    "*" + Join(parts[i..], '*')
  }

  /** Before the loop: the first piece is anchored, and is empty when the pattern starts with `*`. */
  lemma Opening(parts: seq<string>, path: string)
    requires StarFree(parts) && |parts| >= 2
    ensures Matches(Join(parts, '*'), path, true) <==>
            parts[0] <= path && Matches(From(parts, 1), path[|parts[0]|..], true)
    ensures parts[0] == "" ==> (Matches(Join(parts, '*'), path, true) <==> Matches(From(parts, 0), path, true))
  {
    var rest := Join(parts[1..], '*');
    assert Join(parts, '*') == parts[0] + ("*" + rest);
    MatchLiteral(parts[0], "*" + rest, path, true);
    if parts[0] == "" {
      assert parts[0..] == parts;
      assert Join(parts, '*') == "*" + rest;
      DoubleStar(rest, path);
    }
  }

  /** One round of the loop over a piece that is not the last. */
  lemma Middle(parts: seq<string>, i: nat, s: string)
    requires StarFree(parts) && i + 1 < |parts|
    ensures match Find(s, parts[i])
            case None => !Matches(From(parts, i), s, true)
            case Some(f) =>
              Matches(From(parts, i), s, true) <==> Matches(From(parts, i + 1), s[f + |parts[i]|..], true)
  {
    assert parts[i..][1..] == parts[i + 1..];
    var rest := Join(parts[i + 1..], '*');
    assert From(parts, i) == "*" + (parts[i] + ("*" + rest));
    LeftmostSuffices(parts[i], rest, s);
  }

  /** The last piece is a suffix test. */
  lemma Closing(parts: seq<string>, s: string)
    requires StarFree(parts) && |parts| >= 1
    ensures var last := parts[|parts| - 1];
      Matches(From(parts, |parts| - 1), s, true) <==> |last| <= |s| && s[|s| - |last|..] == last
  {
    var last := parts[|parts| - 1];
    assert parts[|parts| - 1..] == [last];
    FinalSuffix(last, s);
  }

  /** The pattern starts or ends with `*` exactly when its first or last piece is empty. */
  lemma {:induction false} Ends(parts: seq<string>)
    requires |parts| >= 2 && StarFree(parts)
    ensures Join(parts, '*') != ""
    ensures Join(parts, '*')[0] == '*' <==> parts[0] == ""
    ensures Join(parts, '*')[|Join(parts, '*')| - 1] == '*' <==> parts[|parts| - 1] == ""
  {
    var rest, last := parts[1..], parts[|parts| - 1];
    var j, tail := Join(parts, '*'), Join(rest, '*');
    assert j == parts[0] + "*" + tail && rest[|rest| - 1] == last;
    assert parts[0] != "" ==> parts[0][0] in parts[0];
    if |parts| == 2 {
      assert tail == last;
      if last != "" {
        assert j[|j| - 1] == last[|last| - 1] && last[|last| - 1] in last;
      }
    } else {
      Ends(rest);
      assert j[|j| - 1] == tail[|tail| - 1];
    }
  }

  /** Middle pieces `from..to`, each taken at its leftmost place in what is left of the text. */
  method MatchMiddle(parts: seq<string>, from: nat, to: nat, text: string) returns (remainder: Option<string>)
    requires StarFree(parts) && from <= to <= |parts| && from < |parts|
    requires to == |parts| ==> parts[to - 1] == ""
    ensures remainder.None? ==> !Matches(From(parts, from), text, true)
    ensures remainder.Some? && to < |parts| ==>
      (Matches(From(parts, from), text, true) <==> Matches(From(parts, to), remainder.value, true))
    ensures remainder.Some? && to == |parts| ==> Matches(From(parts, from), text, true)
  {
    ghost var goal := Matches(From(parts, from), text, true);
    var rest, i := text, from;
    while i < to
      invariant from <= i <= to
      invariant i < |parts| ==> goal == Matches(From(parts, i), rest, true)
      invariant i == |parts| ==> goal
    {
      var part := parts[i];
      if i + 1 < |parts| {
        Middle(parts, i, rest);
      } else {
        Closing(parts, rest);
      }
      if part != "" {
        var index := Find(rest, part);
        if index.None? {
          return None;
        }
        rest := rest[index.value + |part|..];
      } else {
        assert Find(rest, part) == Some(0) && rest[0..] == rest;
      }
      i := i + 1;
    }
    return Some(rest);
  }

  /** The greedy segment matcher is exact. */
  method MatchesSegment(path: string, pattern: string) returns (b: bool)
    ensures b == Matches(pattern, path, true)
  {
    if '*' !in pattern {
      MatchLiteral(pattern, "", path, true);
      assert pattern + "" == pattern;
      return path == pattern;
    }
    var parts := Split(pattern, '*');
    Opening(parts, path);
    Ends(parts);
    var remainder, middleStart := path, 0;
    if pattern[0] != '*' {
      var first := parts[0];
      if !(first <= remainder) {
        return false;
      }
      remainder, middleStart := remainder[|first|..], 1;
    }
    var endsWithStar := pattern[|pattern| - 1] == '*';
    var middleEnd := if endsWithStar then |parts| else |parts| - 1;
    var left := MatchMiddle(parts, middleStart, middleEnd, remainder);
    if left.None? {
      return false;
    }
    remainder := left.value;
    var last := parts[|parts| - 1];
    if !endsWithStar {
      Closing(parts, remainder);
    }
    return endsWithStar || last == "" || (|last| <= |remainder| && remainder[|remainder| - |last|..] == last);
  }

  /** Without a `/` in the text, both readings of `*` agree. */
  lemma {:induction false} SlashFreeSame(pattern: string, s: string)
    requires '/' !in s
    ensures Matches(pattern, s, true) <==> Matches(pattern, s, false)
    decreases |pattern|
  {
    if pattern != "" {
      if pattern[0] == '*' {
        assert pattern == "*" + pattern[1..];
        StarSkips(pattern[1..], s, true);
        StarSkips(pattern[1..], s, false);
        forall k ensures SkipTo(pattern[1..], s, k, true) <==> SkipTo(pattern[1..], s, k, false) {
          if 0 <= k <= |s| { SlashFreeSame(pattern[1..], s[k..]); }
        }
      } else if s != "" {
        SlashFreeSame(pattern[1..], s[1..]);
      }
    }
  }

  /** A `/`-free pattern never matches text that holds a `/`. */
  lemma {:induction false} NeedsSlash(pattern: string, s: string)
    requires '/' !in pattern && '/' in s
    ensures !Matches(pattern, s, false)
    decreases |pattern|
  {
    if pattern != "" && pattern[0] == '*' {
      assert pattern == "*" + pattern[1..];
      StarSkips(pattern[1..], s, false);
      forall k | Skippable(s, k, false) ensures !SkipTo(pattern[1..], s, k, false) {
        assert s == s[..k] + s[k..];
        NeedsSlash(pattern[1..], s[k..]);
      }
    } else if pattern != "" && s != "" && s[0] == pattern[0] {
      assert s == [s[0]] + s[1..];
      NeedsSlash(pattern[1..], s[1..]);
    }
  }

  /** Matching one `/` after another: heads match heads, tails match tails. */
  lemma {:induction false} MatchHead(hp: string, tp: string, hs: string, ts: string)
    requires '/' !in hp && '/' !in hs
    ensures Matches(hp + "/" + tp, hs + "/" + ts, false) <==> Matches(hp, hs, false) && Matches(tp, ts, false)
    decreases |hp|
  {
    var p, s := hp + "/" + tp, hs + "/" + ts;
    if hp == "" {
      assert p[0] == '/' && p[1..] == tp && (hs == "" ==> s[1..] == ts) && (hs != "" ==> s[0] == hs[0]);
    } else if hp[0] == '*' {
      var hr := hp[1..];
      var pr := hr + "/" + tp;
      assert hp == "*" + hr && p == "*" + pr;
      StarSkips(hr, hs, false);
      StarSkips(pr, s, false);
      forall k ensures SkipTo(pr, s, k, false) <==> SkipTo(hr, hs, k, false) && Matches(tp, ts, false)
      {
        if 0 <= k <= |hs| {
          assert s[k..] == hs[k..] + "/" + ts && s[..k] == hs[..k];
          MatchHead(hr, tp, hs[k..], ts);
        } else if |hs| < k <= |s| {
          assert s[..k][|hs|] == '/';
        }
      }
    } else {
      assert p[0] == hp[0] && p[1..] == hp[1..] + "/" + tp;
      if hs != "" {
        assert s[0] == hs[0] && s[1..] == hs[1..] + "/" + ts;
        MatchHead(hp[1..], tp, hs[1..], ts);
      }
    }
  }

  /** A pattern with a `/` never matches `/`-free text. */
  lemma {:induction false} WantsSlash(pattern: string, s: string)
    requires '/' in pattern && '/' !in s
    ensures !Matches(pattern, s, false)
    decreases |pattern|
  {
    if pattern[0] != '/' {
      assert pattern == [pattern[0]] + pattern[1..];
      if pattern[0] == '*' {
        assert pattern == "*" + pattern[1..];
        StarSkips(pattern[1..], s, false);
        forall k | 0 <= k <= |s| ensures !SkipTo(pattern[1..], s, k, false) {
          WantsSlash(pattern[1..], s[k..]);
        }
      } else if s != "" {
        WantsSlash(pattern[1..], s[1..]);
      }
    }
  }

  ghost predicate AllMatch(ps: seq<string>, ss: seq<string>)
  {
    |ps| == |ss| && forall i :: 0 <= i < |ps| ==> Matches(ps[i], ss[i], true)
  }

  /** Matching piece by piece is matching the whole path with `*` kept inside a segment. */
  lemma {:induction false} SegmentsMatchWhole(ps: seq<string>, ss: seq<string>)
    requires |ps| >= 1 && |ss| >= 1
    requires forall p :: p in ps ==> '/' !in p
    requires forall p :: p in ss ==> '/' !in p
    ensures AllMatch(ps, ss) <==> Matches(Join(ps, '/'), Join(ss, '/'), false)
    decreases |ps|
  {
    SlashFreeSame(ps[0], ss[0]);
    if |ps| == 1 && |ss| > 1 {
      NeedsSlash(ps[0], Join(ss, '/'));
    } else if |ps| > 1 && |ss| == 1 {
      WantsSlash(Join(ps, '/'), ss[0]);
    } else if |ps| > 1 {
      SegmentsMatchWhole(ps[1..], ss[1..]);
      MatchHead(ps[0], Join(ps[1..], '/'), ss[0], Join(ss[1..], '/'));
      assert AllMatch(ps, ss) <==> Matches(ps[0], ss[0], true) && AllMatch(ps[1..], ss[1..]) by {
        if Matches(ps[0], ss[0], true) && AllMatch(ps[1..], ss[1..]) {
          forall i | 0 <= i < |ps| ensures Matches(ps[i], ss[i], true) {
            if i > 0 { assert ps[i] == ps[1..][i - 1] && ss[i] == ss[1..][i - 1]; }
          }
        }
        if AllMatch(ps, ss) {
          assert forall i :: 0 <= i < |ps| - 1 ==> ps[1..][i] == ps[i + 1] && ss[1..][i] == ss[i + 1];
        }
      }
    }
  }

  lemma WholeAsSegments(path: string, pattern: string)
    ensures Matches(pattern, path, false) == AllMatch(Split(pattern, '/'), Split(path, '/'))
  {
    SegmentsMatchWhole(Split(pattern, '/'), Split(path, '/'));
  }

  /** Comparing segment by segment: `*` never crosses a `/`. */
  method MatchesPathSegments(path: string, pattern: string) returns (b: bool)
    ensures b == Matches(pattern, path, false)
  {
    WholeAsSegments(path, pattern);
    b := SegmentsMatch(Split(path, '/'), Split(pattern, '/'));
  }

  method SegmentsMatch(pathSegments: seq<string>, patternSegments: seq<string>) returns (b: bool)
    ensures b == AllMatch(patternSegments, pathSegments)
  {
    if |pathSegments| != |patternSegments| {
      return false;
    }
    for i := 0 to |pathSegments|
      invariant forall j :: 0 <= j < i ==> Matches(patternSegments[j], pathSegments[j], true)
    {
      var matched := MatchesSegment(pathSegments[i], patternSegments[i]);
      if !matched {
        return false;
      }
    }
    return true;
  }

  predicate IsQuote(c: char) { c in {'`', '"', '\''} }

  function TrimQuotes(s: string): string
  {
    if s != "" && IsQuote(s[0]) then TrimQuotes(s[1..])
    else if s != "" && IsQuote(s[|s| - 1]) then TrimQuotes(s[..|s| - 1])
    else s
  }

  predicate OnlyQuotes(s: string) { forall c :: c in s ==> c == '`' || c == '"' || c == '\'' }

  predicate Unquoted(s: string) { s != "" ==> !OnlyQuotes(s[..1]) && !OnlyQuotes(s[|s| - 1..]) }

  /** All quotes around a text are taken off, of whichever kind, and nothing else. */
  lemma {:induction false} QuotesTrimmed(a: string, s: string, b: string)
    requires OnlyQuotes(a) && OnlyQuotes(b) && Unquoted(s)
    ensures TrimQuotes(a + s + b) == s
    decreases |a| + |b|
  {
    var t := a + s + b;
    if a != "" {
      assert forall c :: c in a[1..] ==> c in a;
      assert t[0] == a[0] && a[0] in a && t[1..] == a[1..] + s + b;
      QuotesTrimmed(a[1..], s, b);
    } else if b != "" && s == "" {
      assert forall c :: c in b[1..] ==> c in b;
      assert t[0] == b[0] && b[0] in b && t[1..] == a + s + b[1..];
      QuotesTrimmed(a, s, b[1..]);
    } else if b != "" {
      var front := b[..|b| - 1];
      assert forall c :: c in front ==> c in b;
      assert s[..1] == [s[0]] && t[0] == s[0];
      assert t[|t| - 1] == b[|b| - 1] && b[|b| - 1] in b && t[..|t| - 1] == a + s + front;
      QuotesTrimmed(a, s, front);
    } else {
      assert t == s;
      assert s != "" ==> s[..1] == [s[0]] && s[|s| - 1..] == [s[|s| - 1]];
    }
  }

  /** What a configured pattern accepts: everything strictly below a directory
      for a trailing double star, whose prefix is taken literally, and otherwise
      a segment-wise match. */
  ghost predicate Accepts(pattern: string, path: string)
  {
    if |pattern| >= 3 && pattern[|pattern| - 3..] == "/**"
    then pattern[..|pattern| - 2] <= path
    else Matches(pattern, path, false)
  }

  method MatchesWorkflowPattern(path: string, pattern: string) returns (b: bool)
    ensures b == Accepts(pattern, TrimQuotes(path))
  {
    var normalized := TrimQuotes(path);
    if pattern == DEFAULT_PATTERN {
      assert pattern[..|pattern| - 2] == DEFAULT_PREFIX;
      return DEFAULT_PREFIX <= normalized;
    }
    if |pattern| >= 3 && pattern[|pattern| - 3..] == "/**" {
      var prefix := pattern[..|pattern| - 3];
      assert pattern[|pattern| - 3] == pattern[|pattern| - 3..][0] == '/';
      assert pattern[..|pattern| - 2] == prefix + "/";
      if !(prefix <= normalized) {
        return false;
      }
      var rest := normalized[|prefix|..];
      return rest != "" && rest[0] == '/';
    }
    b := MatchesPathSegments(normalized, pattern);
  }

  function EraseStars(p: string): string
  {
    if p == "" then "" else (if p[0] == '*' then "" else [p[0]]) + EraseStars(p[1..])
  }

  lemma {:induction false} ErasedMatches(p: string, rest: string, s: string)
    requires Matches(rest, s, true)
    ensures Matches(p + rest, EraseStars(p) + s, true)
    ensures |EraseStars(p)| <= |p| && ('*' in p ==> |EraseStars(p)| < |p|)
  {
    if p == "" {
      assert p + rest == rest && EraseStars(p) + s == s;
    } else {
      ErasedMatches(p[1..], rest, s);
      var t := EraseStars(p[1..]) + s;
      assert p == [p[0]] + p[1..];
      if p[0] == '*' {
        assert p + rest == "*" + (p[1..] + rest) && EraseStars(p) + s == t;
        assert t[0..] == t && SkipTo(p[1..] + rest, t, 0, true);
        StarSkips(p[1..] + rest, t, true);
      } else {
        assert (p + rest)[1..] == p[1..] + rest && (EraseStars(p) + s)[1..] == t;
      }
    }
  }

  /** With a literal directory, `dir/` followed by two stars accepts just what starts with `dir/`. */
  lemma LiteralDirectory(dir: string, path: string)
    requires '*' !in dir
    ensures Matches(dir + "/**", path, true) <==> dir + "/" <= path
  {
    var lit, any := dir + "/", "*" + ("*" + "");
    assert dir + "/**" == lit + any;
    MatchLiteral(lit, any, path, true);
    if lit <= path {
      DoubleStar("", path[|lit|..]);
      FinalSuffix("", path[|lit|..]);
    }
  }

  lemma AcceptsBelow(dir: string, path: string)
    ensures Accepts(dir + "/**", path) <==> dir + "/" <= path
  {
    var pattern := dir + "/**";
    assert pattern[|pattern| - 3..] == "/**" && pattern[..|pattern| - 2] == dir + "/";
  }

  /** A directory with a `*` in it: some path matches the pattern but is not accepted. */
  lemma ShortcutMisses(dir: string)
    requires '*' in dir
    ensures Matches(dir + "/**", EraseStars(dir) + "/", true) && !Accepts(dir + "/**", EraseStars(dir) + "/")
  {
    assert "" + "/" == "/" && "" + "/**" == "/**";
    LiteralDirectory("", "/");
    ErasedMatches(dir, "/**", "/");
    AcceptsBelow(dir, EraseStars(dir) + "/");
  }

  /** The shortcut for a trailing double star means "everything below" exactly
      when its directory part holds no `*`: a `*` there is not expanded. */
  lemma DirectoryShortcutExact(dir: string)
    ensures (forall path :: Accepts(dir + "/**", path) <==> Matches(dir + "/**", path, true)) <==> '*' !in dir
  {
    if '*' !in dir {
      forall path ensures Accepts(dir + "/**", path) <==> Matches(dir + "/**", path, true) {
        LiteralDirectory(dir, path);
        AcceptsBelow(dir, path);
      }
    } else {
      ShortcutMisses(dir);
    }
  }
}
