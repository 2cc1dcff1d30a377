/** Replacing names one after the other when values may hold braces: text put in
    by one replacement can be taken for a token by a later one. */
module Rescan {
  import opened Text
  import opened Templates

  /** Some token `{k}` can start inside the value: it lies within it, or a suffix
      of the value is where it begins. */
  ghost predicate Starts(value: string, k: string)
  {
    exists p :: 0 <= p < |value| && Overlaps(value[p..], Token(k))
  }

  /** One of the two is a prefix of the other. */
  predicate Overlaps(s: string, t: string) { s <= t || t <= s }

  /** No value put in can be where the token of a later name starts, unless that
      name stands for its own token. */
  ghost predicate RescanSafe(keys: seq<string>, m: Values)
  {
    forall i, j :: 0 <= i < j < |keys| && keys[i] in m && keys[j] in m && m[keys[j]] != Token(keys[j]) ==>
      !Starts(m[keys[i]], keys[j])
  }

  // ----- one replacement

  /** A value in which the token cannot start is left alone, whatever follows it. */
  lemma {:induction false} ReplaceKeeps(value: string, rest: string, k: string, with: string)
    requires !Starts(value, k)
    ensures Replace(value + rest, Token(k), with) == value + Replace(rest, Token(k), with)
    decreases |value|
  {
    var s, t := value + rest, Token(k);
    if value == "" {
      assert s == rest;
    } else {
      var more := value[1..];
      assert value[0..] == value && !Overlaps(value, t);
      assert s[0] == value[0] && s[1..] == more + rest;
      assert !(t <= s) by {
        if t <= s { PrefixOverlaps(t, value, rest); }
      }
      forall p | 0 <= p < |more| ensures !Overlaps(more[p..], t) { assert more[p..] == value[p + 1..]; }
      ReplaceKeeps(more, rest, k, with);
      PrefixChar(value[0], more, Replace(rest, t, with));
      assert value == [value[0]] + more;
    }
  }

  lemma PrefixOverlaps(t: string, value: string, rest: string)
    requires t <= value + rest
    ensures Overlaps(value, t)
  {
    var s := value + rest;
    if |t| <= |value| {
      assert t == s[..|t|] == value[..|t|];
    } else {
      assert value == s[..|value|] == t[..|value|];
    }
  }

  lemma {:induction false} ReplaceBySelf(s: string, t: string)
    requires t != ""
    ensures Replace(s, t, t) == s
  {
    if s != "" {
      if t <= s {
        ReplaceBySelf(s[|t|..], t);
        assert s == t + s[|t|..];
      } else {
        ReplaceBySelf(s[1..], t);
        assert s == [s[0]] + s[1..];
      }
    }
  }

  function Hits(s: string, t: string): nat
    requires t != ""
  {
    if s == "" then 0 else if t <= s then 1 + Hits(s[|t|..], t) else Hits(s[1..], t)
  }

  lemma {:induction false} ReplaceLength(s: string, t: string, with: string)
    requires t != ""
    ensures |with| > |t| ==> |Replace(s, t, with)| >= |s| + Hits(s, t)
    ensures |with| < |t| ==> |Replace(s, t, with)| <= |s| - Hits(s, t)
  {
    if s != "" {
      ReplaceLength(if t <= s then s[|t|..] else s[1..], t, with);
    }
  }

  lemma {:induction false} WithinHits(s: string, t: string)
    requires t != "" && Within(t, s)
    ensures Hits(s, t) > 0
  {
    if !(t <= s) {
      var i :| At(s, t, i);
      assert i > 0 by { assert s[0..] == s; }
      assert s[i..] == s[1..][i - 1..] && At(s[1..], t, i - 1);
      WithinHits(s[1..], t);
    }
  }

  /** Replacing something that occurs by something else changes the text. */
  lemma ReplaceChanges(s: string, t: string, with: string)
    requires t != "" && Within(t, s) && with != t
    ensures Replace(s, t, with) != s
  {
    if |with| == |t| {
      SameLengthChanges(s, t, with);
    } else {
      ReplaceLength(s, t, with);
      WithinHits(s, t);
    }
  }

  lemma {:induction false} SameLengthChanges(s: string, t: string, with: string)
    requires t != "" && Within(t, s) && with != t && |with| == |t|
    ensures Replace(s, t, with) != s
  {
    if t <= s {
      assert Replace(s, t, with)[..|t|] == with && s[..|t|] == t;
    } else {
      var i :| At(s, t, i);
      assert i > 0 by { assert s[0..] == s; }
      assert s[i..] == s[1..][i - 1..] && At(s[1..], t, i - 1);
      SameLengthChanges(s[1..], t, with);
      assert Replace(s, t, with)[1..] == Replace(s[1..], t, with);
    }
  }

  /** In a template without nested groups a replacement fills its name's groups
      and nothing else, if its token cannot start in a value already put in. */
  lemma {:induction false} ReplaceFillsFlat(items: seq<Item>, m: Values, k: string, v: string)
    requires Canonical(items) && Flat(items) && BraceFree(k)
    requires forall d :: d in m ==> !Starts(m[d], k)
    ensures Replace(Fill(items, m), Token(k), v) == Fill(items, if k in m then m else m[k := v])
    decreases |items|
  {
    if items != [] {
      var rest := Fill(items[1..], m);
      ReplaceFillsFlat(items[1..], m, k, v);
      match items[0] {
        case Lit(c) =>
          if c == '{' { PlainFill(items[1..], m); }
          SkipChar(c, rest, k, v);
        case Group(g) =>
          if g in m { ReplaceKeeps(m[g], rest, k, v); }
          else if g == k { ReplaceHit(rest, k, v); }
          else { ReplaceMiss(g, rest, k, v); }
      }
    }
  }

  lemma SkipChar(c: char, rest: string, k: string, v: string)
    requires c == '{' ==> '}' !in rest
    ensures Replace([c] + rest, Token(k), v) == [c] + Replace(rest, Token(k), v)
  {
    var s := [c] + rest;
    assert s[1..] == rest;
    assert Token(k)[0] == '{' && Token(k)[|k| + 1] == '}' && '}' in Token(k)[1..];
    if Token(k) <= s { TailWithin(Token(k), c, rest); }
  }

  lemma TailWithin(t: string, c: char, rest: string)
    requires t != "" && t <= [c] + rest
    ensures t[0] == c && forall x :: x in t[1..] ==> x in rest
  {
    assert forall i :: 0 < i < |t| ==> t[i] == ([c] + rest)[i] == rest[i - 1];
  }

  lemma {:induction false} PlainFill(items: seq<Item>, m: Values)
    requires Plain(items)
    ensures '{' !in Fill(items, m) && '}' !in Fill(items, m)
  {
    if items != [] {
      assert items[0] in items && forall x :: x in items[1..] ==> x in items;
      PlainFill(items[1..], m);
    }
  }

  // ----- every stage of a sequence of replacements

  /** After each single replacement the text is the template with the names so far filled at once. */
  ghost predicate SinglePassAtEachStage(t: string, keys: seq<string>, m: Values)
  {
    forall n :: 0 <= n <= |keys| ==> StageIsFill(t, keys, m, n)
  }

  ghost predicate StageIsFill(t: string, keys: seq<string>, m: Values, n: nat)
    requires n <= |keys|
  {
    Sequential(t, keys[..n], m) == Fill(Items(t), Restrict(m, keys[..n]))
  }

  lemma {:induction false} SequentialSnoc(t: string, keys: seq<string>, key: string, m: Values)
    ensures Sequential(t, keys + [key], m) == One(Sequential(t, keys, m), key, m)
    decreases |keys|
  {
    if keys == [] {
      assert [key][1..] == [] && [] + [key] == [key];
      assert Sequential(One(t, key, m), [], m) == One(t, key, m);
    } else {
      assert (keys + [key])[0] == keys[0] && (keys + [key])[1..] == keys[1..] + [key];
      SequentialSnoc(One(t, keys[0], m), keys[1..], key, m);
    }
  }

  lemma {:induction false} FillBySelf(items: seq<Item>, m: Values, k: string)
    requires k !in m
    ensures Fill(items, m[k := Token(k)]) == Fill(items, m)
    decreases |items|
  {
    if items != [] { FillBySelf(items[1..], m, k); }
  }

  lemma {:induction false} StageHolds(t: string, keys: seq<string>, m: Values, n: nat)
    requires Unnested(t) && n <= |keys| && RescanSafe(keys, m) && forall k :: k in m ==> BraceFree(k)
    ensures StageIsFill(t, keys, m, n)
  {
    if n == 0 {
      ReadBack(t);
      assert Restrict(m, keys[..0]) == map[];
    } else {
      StageHolds(t, keys, m, n - 1);
      assert keys[..n] == keys[..n - 1] + [keys[n - 1]];
      SequentialSnoc(t, keys[..n - 1], keys[n - 1], m);
      if keys[n - 1] in m { StageStep(t, keys, m, n - 1); }
      RestrictNext(keys, m, n - 1);
    }
  }

  lemma RestrictNext(keys: seq<string>, m: Values, n: nat)
    requires n < |keys|
    ensures var done, k := Restrict(m, keys[..n]), keys[n];
      Restrict(m, keys[..n + 1]) == if k !in m || k in done then done else done[k := m[k]]
  {
    assert keys[..n + 1] == keys[..n] + [keys[n]];
  }

  lemma StageStep(t: string, keys: seq<string>, m: Values, n: nat)
    requires Unnested(t) && n < |keys| && RescanSafe(keys, m) && BraceFree(keys[n]) && keys[n] in m
    ensures var done := Restrict(m, keys[..n]);
      Replace(Fill(Items(t), done), Token(keys[n]), m[keys[n]])
        == Fill(Items(t), if keys[n] in done then done else done[keys[n] := m[keys[n]]])
  {
    var done, k := Restrict(m, keys[..n]), keys[n];
    if m[k] == Token(k) {
      ReplaceBySelf(Fill(Items(t), done), Token(k));
      if k !in done { FillBySelf(Items(t), done, k); }
    } else {
      forall d | d in done ensures !Starts(done[d], k) {
        var i :| 0 <= i < n && keys[i] == d;
      }
      ItemsCanonical(t);
      UnnestedIsFlat(t);
      ReplaceFillsFlat(Items(t), done, k, m[k]);
    }
  }

  /** A pair of names that is not safe has a template that shows it. */
  lemma UnsafeShows(keys: seq<string>, m: Values, i: nat, j: nat) returns (t: string)
    requires i < j < |keys| && keys[i] in m && keys[j] in m && m[keys[j]] != Token(keys[j])
    requires BraceFree(keys[i]) && BraceFree(keys[j]) && Starts(m[keys[i]], keys[j])
    ensures Unnested(t) && !(StageIsFill(t, keys, m, j) && StageIsFill(t, keys, m, j + 1))
  {
    var v, w := m[keys[i]], Token(keys[j]);
    var rest := Completion(v, keys[j]);
    t := Token(keys[i]) + rest;
    OneBrace(keys[i], rest);
    ShownFill(keys[i], rest, Restrict(m, keys[..j]), v);
    ShownFill(keys[i], rest, Restrict(m, keys[..j + 1]), v);
    ReplaceChanges(v + rest, w, m[keys[j]]);
    StagesClash(t, keys, m, j, v + rest);
  }

  /** Two stages cannot both be the same text that the replacement between them changes. */
  lemma StagesClash(t: string, keys: seq<string>, m: Values, j: nat, s: string)
    requires j < |keys| && keys[j] in m && Replace(s, Token(keys[j]), m[keys[j]]) != s
    requires Fill(Items(t), Restrict(m, keys[..j])) == s && Fill(Items(t), Restrict(m, keys[..j + 1])) == s
    ensures !(StageIsFill(t, keys, m, j) && StageIsFill(t, keys, m, j + 1))
  {
    assert keys[..j + 1] == keys[..j] + [keys[j]];
    SequentialSnoc(t, keys[..j], keys[j], m);
  }

  /** What has to follow the value for the token to occur. */
  lemma Completion(v: string, k: string) returns (rest: string)
    requires BraceFree(k) && Starts(v, k)
    ensures '{' !in rest && Within(Token(k), v + rest)
  {
    var w := Token(k);
    var p :| 0 <= p < |v| && Overlaps(v[p..], w);
    if w <= v[p..] {
      rest := "";
      assert v + rest == v;
    } else {
      rest := w[|v| - p..];
      assert forall x :: 0 < x < |w| ==> w[x] != '{';
      assert (v + rest)[p..] == v[p..] + rest == w;
    }
    assert At(v + rest, w, p);
  }

  lemma OneBrace(k: string, rest: string)
    requires BraceFree(k) && '{' !in rest
    ensures Unnested(Token(k) + rest)
  {
    var t := Token(k) + rest;
    assert t == ['{'] + (k + "}" + rest);
    assert forall i :: 0 < i < |t| ==> t[i] == (k + "}" + rest)[i - 1] && t[i] != '{';
  }

  lemma ShownFill(k: string, rest: string, m: Values, v: string)
    requires BraceFree(k) && '{' !in rest && k in m && m[k] == v
    ensures Fill(Items(Token(k) + rest), m) == v + rest
  {
    GroupItem(k, rest, m);
    NoGroups(rest, m);
  }

  lemma {:induction false} NoGroups(rest: string, m: Values)
    requires '{' !in rest
    ensures Fill(Items(rest), m) == rest
  {
    if rest != "" {
      NoGroups(rest[1..], m);
      assert rest == [rest[0]] + rest[1..];
      LiteralItem(rest[0], rest[1..], m);
    }
  }

  /** For names without braces and any values at all: on every template without
      nested groups every stage is a single pass exactly when no token of a later
      name can start in a value put in before. */
  lemma RescanExact(keys: seq<string>, m: Values)
    requires forall k :: k in m ==> BraceFree(k)
    ensures (forall t :: Unnested(t) ==> SinglePassAtEachStage(t, keys, m)) <==> RescanSafe(keys, m)
  {
    if RescanSafe(keys, m) {
      forall t, n: nat | Unnested(t) && n <= |keys| ensures StageIsFill(t, keys, m, n) {
        StageHolds(t, keys, m, n);
      }
    } else {
      var i, j :| 0 <= i < j < |keys| && keys[i] in m && keys[j] in m && m[keys[j]] != Token(keys[j])
                  && Starts(m[keys[i]], keys[j]);
      var t := UnsafeShows(keys, m, i, j);
      assert !SinglePassAtEachStage(t, keys, m);
    }
  }

  // ----- all templates, nested ones too

  /** A value can close a token some text before it has opened. */
  ghost predicate Ends(value: string, k: string)
  {
    exists p :: 0 <= p <= |k| && ClosesFrom(value, k, p)
  }

  predicate ClosesFrom(value: string, k: string, p: nat)
    requires p <= |k|
  {
    k[p..] + "}" <= value
  }

  /** Some text around the value makes it part of the token `{k}`: the token starts
      in it, ends in it, or has it inside its name. */
  ghost predicate Touches(value: string, k: string) { Starts(value, k) || Ends(value, k) || Within(value, k) }

  /** No value put in touches the token of a later name, unless that name stands
      for its own token. */
  ghost predicate Apart(keys: seq<string>, m: Values)
  {
    forall i, j :: 0 <= i < j < |keys| && keys[i] in m && keys[j] in m && m[keys[j]] != Token(keys[j]) ==>
      !Touches(m[keys[i]], keys[j])
  }

  ghost predicate SomeTouches(m: Values, k: string)
  {
    exists d :: d in m && (Ends(m[d], k) || Within(m[d], k))
  }

  lemma TouchesLonger(m: Values, c: char, w: string)
    requires SomeTouches(m, w)
    ensures SomeTouches(m, [c] + w)
  {
    var d :| d in m && (Ends(m[d], w) || Within(m[d], w));
    if Within(m[d], w) {
      WithinLonger(m[d], [c], w);
    } else {
      var p :| 0 <= p <= |w| && ClosesFrom(m[d], w, p);
      assert ([c] + w)[p + 1..] == w[p..];
      assert ClosesFrom(m[d], [c] + w, p + 1);
    }
  }

  /** An open brace is closed into `{w}` only with the help of a value. */
  lemma {:induction false} OpenNeedsValue(items: seq<Item>, m: Values, w: string)
    requires StaysOpen(items) && BraceFree(w) && w + "}" <= Fill(items, m)
    ensures SomeTouches(m, w)
    decreases |items|
  {
    var s, rest := Fill(items, m), Fill(items[1..], m);
    assert (w + "}")[0] != '{' by { if w != "" { assert w[0] in w; } }
    assert s[0] == (w + "}")[0];
    match items[0] {
      case Lit(c) =>
        assert s[0] == c;
        assert w != "" && w[0] == c && w[0] in w;
        assert s[1..] == rest && (w + "}")[1..] == w[1..] + "}";
        OpenNeedsValue(items[1..], m, w[1..]);
        TouchesLonger(m, c, w[1..]);
        assert [c] + w[1..] == w;
      case Group(g) =>
        assert g in m;
        FirstValue(m[g], rest, w);
    }
  }

  lemma FirstValue(v: string, rest: string, w: string)
    requires w + "}" <= v + rest
    ensures Ends(v, w) || Within(v, w)
  {
    var s := v + rest;
    if |v| <= |w| {
      assert v == s[..|v|] == (w + "}")[..|v|] == w[..|v|] && w[0..] == w;
      assert At(w, v, 0);
    } else {
      assert w + "}" == s[..|w| + 1] == v[..|w| + 1] && w[0..] == w;
      assert ClosesFrom(v, w, 0);
    }
  }

  /** In any template a replacement fills its name's groups and nothing else, if no
      value already put in touches its token. */
  lemma {:induction false} ReplaceFillsApart(items: seq<Item>, m: Values, k: string, v: string)
    requires Canonical(items) && BraceFree(k) && forall d :: d in m ==> !Touches(m[d], k)
    ensures Replace(Fill(items, m), Token(k), v) == Fill(items, if k in m then m else m[k := v])
    decreases |items|
  {
    if items != [] {
      var rest := Fill(items[1..], m);
      ReplaceFillsApart(items[1..], m, k, v);
      match items[0] {
        case Lit(c) =>
          var s := [c] + rest;
          assert s[1..] == rest;
          assert !(Token(k) <= s) by {
            if Token(k) <= s {
              assert s[0] == '{' && Token(k)[1..] == k + "}" && k + "}" <= rest;
              OpenNeedsValue(items[1..], m, k);
            }
          }
        case Group(g) =>
          if g in m { ReplaceKeeps(m[g], rest, k, v); }
          else if g == k { ReplaceHit(rest, k, v); }
          else { ReplaceMiss(g, rest, k, v); }
      }
    }
  }

  lemma ApartStep(t: string, keys: seq<string>, m: Values, n: nat)
    requires n < |keys| && Apart(keys, m) && BraceFree(keys[n]) && keys[n] in m
    ensures var done := Restrict(m, keys[..n]);
      Replace(Fill(Items(t), done), Token(keys[n]), m[keys[n]])
        == Fill(Items(t), if keys[n] in done then done else done[keys[n] := m[keys[n]]])
  {
    var done, k := Restrict(m, keys[..n]), keys[n];
    if m[k] == Token(k) {
      ReplaceBySelf(Fill(Items(t), done), Token(k));
      if k !in done { FillBySelf(Items(t), done, k); }
    } else {
      forall d | d in done ensures !Touches(done[d], k) {
        var i :| 0 <= i < n && keys[i] == d;
      }
      ItemsCanonical(t);
      ReplaceFillsApart(Items(t), done, k, m[k]);
    }
  }

  lemma {:induction false} ApartStage(t: string, keys: seq<string>, m: Values, n: nat)
    requires n <= |keys| && Apart(keys, m) && forall k :: k in m ==> BraceFree(k)
    ensures StageIsFill(t, keys, m, n)
  {
    if n == 0 {
      ReadBack(t);
      assert Restrict(m, keys[..0]) == map[];
    } else {
      ApartStage(t, keys, m, n - 1);
      assert keys[..n] == keys[..n - 1] + [keys[n - 1]];
      SequentialSnoc(t, keys[..n - 1], keys[n - 1], m);
      if keys[n - 1] in m { ApartStep(t, keys, m, n - 1); }
      RestrictNext(keys, m, n - 1);
    }
  }

  /** An opening brace and the start of a name before a group. */
  function Opened(u: string, k: string): string { ['{'] + (u + Token(k)) }

  lemma OpenedFill(u: string, k: string, m: Values)
    requires BraceFree(u) && BraceFree(k) && k in m
    ensures Fill(Items(Opened(u, k)), m) == ['{'] + (u + m[k])
  {
    var inner := Token(k);
    OpenBefore(u, inner);
    LiteralItem('{', u + inner, m);
    FillLiterals(u, inner, m);
    OneGroup(k, m);
  }

  lemma OneGroup(k: string, m: Values)
    requires BraceFree(k) && k in m
    ensures Fill(Items(Token(k)), m) == m[k]
  {
    assert Token(k) + "" == Token(k);
    GroupItem(k, "", m);
    assert m[k] + "" == m[k];
  }

  lemma ClosedToken(v: string, w: string, p: nat)
    requires p <= |w| && ClosesFrom(v, w, p)
    ensures Token(w) <= ['{'] + (w[..p] + v)
  {
    var s, t := ['{'] + (w[..p] + v), Token(w);
    var tail := w[p..] + "}";
    assert forall x :: 0 <= x < |tail| ==> v[x] == tail[x];
    forall x | 0 <= x < |t| ensures s[x] == t[x] {
      if x > p { assert s[x] == v[x - 1 - p] == tail[x - 1 - p]; }
    }
    assert t == s[..|t|];
  }

  /** A template that two stages leave as one text beginning with the token
      replaced between them. */
  lemma TokenClashes(t: string, keys: seq<string>, m: Values, j: nat, s: string)
    requires j < |keys| && keys[j] in m && m[keys[j]] != Token(keys[j]) && Token(keys[j]) <= s
    requires Fill(Items(t), Restrict(m, keys[..j])) == s && Fill(Items(t), Restrict(m, keys[..j + 1])) == s
    ensures !(StageIsFill(t, keys, m, j) && StageIsFill(t, keys, m, j + 1))
  {
    assert s[0..] == s;
    assert At(s, Token(keys[j]), 0);
    ReplaceChanges(s, Token(keys[j]), m[keys[j]]);
    StagesClash(t, keys, m, j, s);
  }

  lemma EndShows(keys: seq<string>, m: Values, i: nat, j: nat) returns (t: string)
    requires i < j < |keys| && keys[i] in m && keys[j] in m && m[keys[j]] != Token(keys[j])
    requires BraceFree(keys[i]) && BraceFree(keys[j]) && Ends(m[keys[i]], keys[j])
    ensures !(StageIsFill(t, keys, m, j) && StageIsFill(t, keys, m, j + 1))
  {
    var v, w := m[keys[i]], keys[j];
    var p :| 0 <= p <= |w| && ClosesFrom(v, w, p);
    t := Opened(w[..p], keys[i]);
    OpenedFill(w[..p], keys[i], Restrict(m, keys[..j]));
    OpenedFill(w[..p], keys[i], Restrict(m, keys[..j + 1]));
    ClosedToken(v, w, p);
    TokenClashes(t, keys, m, j, ['{'] + (w[..p] + v));
  }

  lemma InsideShows(keys: seq<string>, m: Values, i: nat, j: nat) returns (t: string)
    requires i < j < |keys| && keys[i] in m && keys[j] in m && m[keys[j]] != Token(keys[j])
    requires BraceFree(keys[i]) && BraceFree(keys[j]) && Within(m[keys[i]], keys[j])
    ensures !(StageIsFill(t, keys, m, j) && StageIsFill(t, keys, m, j + 1))
  {
    var v, w := m[keys[i]], keys[j];
    var p :| At(w, v, p);
    var u, rest := w[..p], w[p + |v|..];
    SplitAround(w, v, p);
    t := Nested(u, keys[i], rest);
    NestedItems(u, keys[i], rest, Restrict(m, keys[..j]));
    NestedItems(u, keys[i], rest, Restrict(m, keys[..j + 1]));
    Enclose(u, v, rest);
    TokenClashes(t, keys, m, j, Token(w));
  }

  lemma SplitAround(w: string, v: string, p: nat)
    requires At(w, v, p) && BraceFree(w)
    ensures p + |v| <= |w| && w == w[..p] + v + w[p + |v|..] && BraceFree(w[..p]) && BraceFree(w[p + |v|..])
  {}

  lemma TouchShows(keys: seq<string>, m: Values, i: nat, j: nat) returns (t: string)
    requires i < j < |keys| && keys[i] in m && keys[j] in m && m[keys[j]] != Token(keys[j])
    requires BraceFree(keys[i]) && BraceFree(keys[j]) && Touches(m[keys[i]], keys[j])
    ensures !(StageIsFill(t, keys, m, j) && StageIsFill(t, keys, m, j + 1))
  {
    if Starts(m[keys[i]], keys[j]) { t := UnsafeShows(keys, m, i, j); }
    else if Ends(m[keys[i]], keys[j]) { t := EndShows(keys, m, i, j); }
    else { t := InsideShows(keys, m, i, j); }
  }

  /** For names without braces and any values at all: on every template, nested
      ones too, every stage is a single pass exactly when no value put in touches
      the token of a later name. */
  lemma ApartExact(keys: seq<string>, m: Values)
    requires forall k :: k in m ==> BraceFree(k)
    ensures (forall t :: SinglePassAtEachStage(t, keys, m)) <==> Apart(keys, m)
  {
    if Apart(keys, m) {
      forall t, n: nat | n <= |keys| ensures StageIsFill(t, keys, m, n) {
        ApartStage(t, keys, m, n);
      }
    } else {
      var i, j :| 0 <= i < j < |keys| && keys[i] in m && keys[j] in m && m[keys[j]] != Token(keys[j])
                  && Touches(m[keys[i]], keys[j]);
      var t := TouchShows(keys, m, i, j);
      assert !SinglePassAtEachStage(t, keys, m);
    }
  }

  // ----- looking at the final text only

  /** Each group `a` becomes the groups `b` and `c`. */
  function Expanded(items: seq<Item>, a: string, b: string, c: string): seq<Item>
  {
    if items == [] then []
    else (if items[0] == Group(a) then [Group(b), Group(c)] else [items[0]]) + Expanded(items[1..], a, b, c)
  }

  lemma {:induction false} ExpandedFill(items: seq<Item>, a: string, b: string, c: string, m: Values)
    requires a !in m
    ensures Fill(Expanded(items, a, b, c), m) == Fill(items, m[a := Shown(Group(b), m) + Shown(Group(c), m)])
  {
    if items != [] {
      var rest := Expanded(items[1..], a, b, c);
      ExpandedFill(items[1..], a, b, c, m);
      if items[0] == Group(a) {
        TwoGroups(b, c, rest, m);
      } else {
        assert ([items[0]] + rest)[1..] == rest;
      }
    }
  }

  lemma TwoGroups(b: string, c: string, rest: seq<Item>, m: Values)
    ensures Fill([Group(b), Group(c)] + rest, m) == Shown(Group(b), m) + Shown(Group(c), m) + Fill(rest, m)
  {
    var all := [Group(b), Group(c)] + rest;
    assert all[1..] == [Group(c)] + rest && all[1..][1..] == rest;
  }

  lemma {:induction false} ExpandedFlat(items: seq<Item>, a: string, b: string, c: string)
    requires Flat(items) && Canonical(items) && BraceFree(b) && BraceFree(c)
    ensures Flat(Expanded(items, a, b, c)) && Canonical(Expanded(items, a, b, c))
    ensures Plain(items) ==> Expanded(items, a, b, c) == items
  {
    if items != [] {
      var rest := Expanded(items[1..], a, b, c);
      ExpandedFlat(items[1..], a, b, c);
      assert Plain(items) ==> items[0] in items && Plain(items[1..]) by {
        assert items[0] in items && forall x :: x in items[1..] ==> x in items;
      }
      if items[0] == Group(a) {
        var all := [Group(b), Group(c)] + rest;
        assert all[1..] == [Group(c)] + rest && all[1..][1..] == rest;
      } else {
        assert ([items[0]] + rest)[1..] == rest;
      }
    }
  }

  /** Seen from the final text alone there is no such condition on pairs of names:
      what a later replacement does to a value, one after it can undo. Here the
      token of `b` starts in the value of `a`, and yet every template without
      nested groups comes out as in a single pass. */
  lemma FinalTextHides(a: string, b: string, c: string, t: string)
    requires BraceFree(a) && BraceFree(b) && BraceFree(c) && a != b && a != c && b != c && Unnested(t)
    ensures var m := map[a := Token(b) + Token(c), b := "", c := Token(b) + Token(c)];
      !RescanSafe([a, b, c], m) && Sequential(t, [a, b, c], m) == Fill(Items(t), Restrict(m, [a, b, c]))
  {
    var v := Token(b) + Token(c);
    var m: Values := map[a := v, b := "", c := v];
    var keys := [a, b, c];
    StartsAtOnce(b, Token(c));
    assert m[keys[0]] == v && keys[1] == b && m[b] == "" && !RescanSafe(keys, m);
    ThreeFilled(t, a, b, c, v);
    RestrictAll(m, keys);
    ThreeKeys(t, a, b, c, m);
  }

  lemma StartsAtOnce(k: string, rest: string)
    ensures Starts(Token(k) + rest, k)
  {
    var v := Token(k) + rest;
    assert v[0..] == v && Overlaps(v[0..], Token(k));
  }

  lemma RestrictAll(m: Values, keys: seq<string>)
    requires |keys| == 3 && m.Keys == {keys[0], keys[1], keys[2]}
    ensures Restrict(m, keys) == m
  {}

  /** The three replacements, one after the other. */
  lemma ThreeFilled(t: string, a: string, b: string, c: string, v: string)
    requires BraceFree(a) && BraceFree(b) && BraceFree(c) && a != b && a != c && b != c && Unnested(t)
    requires v == Token(b) + Token(c)
    ensures Replace(Replace(Replace(t, Token(a), v), Token(b), ""), Token(c), v)
         == Fill(Items(t), map[a := v, b := "", c := v])
  {
    var items, inner := Items(t), Expanded(Items(t), a, b, c);
    ItemsCanonical(t);
    UnnestedIsFlat(t);
    ReadBack(t);
    ExpandedFlat(items, a, b, c);
    ReplaceFillsFlat(items, map[], a, v);
    ExpandedFill(items, a, b, c, map[]);
    assert Replace(t, Token(a), v) == Fill(inner, map[]);
    ReplaceFillsFlat(inner, map[], b, "");
    ReplaceFillsFlat(inner, map[b := ""], c, v);
    assert map[b := ""][c := v] == map[b := "", c := v];
    ExpandedFill(items, a, b, c, map[b := "", c := v]);
    assert "" + v == v;
    assert map[b := "", c := v][a := v] == map[a := v, b := "", c := v];
  }

  lemma ThreeKeys(t: string, a: string, b: string, c: string, m: Values)
    ensures Sequential(t, [a, b, c], m) == One(One(One(t, a, m), b, m), c, m)
  {
    assert [a, b, c] == [] + [a] + [b] + [c];
    SequentialSnoc(t, [], a, m);
    SequentialSnoc(t, [] + [a], b, m);
    SequentialSnoc(t, [] + [a] + [b], c, m);
  }
}
