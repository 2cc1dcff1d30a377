/** Templates as text with `{name}` groups, and replacing groups one name at a
    time against filling all of them at once. */
module Templates {
  import opened Text

  type Values = map<string, string>

  datatype Item = Lit(c: char) | Group(name: string)

  predicate BraceFree(s: string) { '{' !in s && '}' !in s }

  predicate AllBraceFree(m: Values) { forall k :: k in m ==> BraceFree(k) && BraceFree(m[k]) }

  function Token(name: string): string { "{" + name + "}" }

  /** How far the closing brace is, when it comes before any opening one. */
  function NameLength(s: string): (r: Option<nat>)
    ensures r.Some? ==> r.value < |s| && s[r.value] == '}' && BraceFree(s[..r.value])
  {
    if s == "" || s[0] == '{' then None
    else if s[0] == '}' then Some(0)
    else match NameLength(s[1..])
         case None => None
         case Some(n) =>
           assert s[..n + 1] == [s[0]] + s[1..][..n];
           Some(n + 1)
  }

  /** The groups of a template, read left to right. */
  function Items(t: string): seq<Item>
  {
    if t == "" then []
    else if t[0] == '{' && NameLength(t[1..]).Some? then
      var n := NameLength(t[1..]).value;
      [Group(t[1..n + 1])] + Items(t[n + 2..])
    else [Lit(t[0])] + Items(t[1..])
  }

  /** All groups with a value are replaced at once; the others stay. */
  function Fill(items: seq<Item>, m: Values): string
  {
    if items == [] then "" else Shown(items[0], m) + Fill(items[1..], m)
  }

  function Shown(item: Item, m: Values): string
  {
    match item
    case Lit(c) => [c]
    case Group(name) => if name in m then m[name] else Token(name)
  }

  /** Behind an opening brace that starts no group: no closing brace comes first. */
  predicate StaysOpen(items: seq<Item>)
  {
    items == [] ||
    match items[0]
    case Lit(c) => c == '{' || (c != '}' && StaysOpen(items[1..]))
    case Group(_) => true
  }

  predicate Plain(items: seq<Item>)
  {
    forall item :: item in items ==> item.Lit? && item.c != '{' && item.c != '}'
  }

  /** The items are the reading of some template. */
  predicate Canonical(items: seq<Item>)
  {
    items == [] ||
    ((match items[0]
      case Lit(c) => c == '{' ==> StaysOpen(items[1..])
      case Group(name) => BraceFree(name)) && Canonical(items[1..]))
  }

  /** No group stands behind an opening brace that starts no group. */
  predicate Flat(items: seq<Item>)
  {
    items == [] || ((items[0] == Lit('{') ==> Plain(items[1..])) && Flat(items[1..]))
  }

  /** Between any two opening braces there is a closing one. */
  ghost predicate Unnested(t: string)
  {
    forall i, j :: 0 <= i < j < |t| && t[i] == '{' && t[j] == '{' ==> '}' in t[i..j]
  }

  lemma {:induction false} NoNameMeansOpen(t: string)
    requires NameLength(t).None?
    ensures StaysOpen(Items(t))
  {
    if t != "" && t[0] != '{' {
      NoNameMeansOpen(t[1..]);
    }
  }

  /** Reading a template gives canonical items. */
  lemma {:induction false} ItemsCanonical(t: string)
    ensures Canonical(Items(t))
  {
    if t != "" {
      if t[0] == '{' && NameLength(t[1..]).Some? {
        var n := NameLength(t[1..]).value;
        ItemsCanonical(t[n + 2..]);
        assert t[1..n + 1] == t[1..][..n];
      } else {
        ItemsCanonical(t[1..]);
        if t[0] == '{' { NoNameMeansOpen(t[1..]); }
      }
    }
  }

  lemma FirstGroup(t: string)
    requires t != "" && t[0] == '{' && NameLength(t[1..]).Some?
    ensures var n := NameLength(t[1..]).value;
      t == Token(t[1..n + 1]) + t[n + 2..] && BraceFree(t[1..n + 1])
  {
    var n := NameLength(t[1..]).value;
    assert t[1..n + 1] == t[1..][..n];
    assert t[n + 1] == '}';
  }

  /** Reading a template loses nothing. */
  lemma {:induction false} ReadBack(t: string)
    ensures Fill(Items(t), map[]) == t
  {
    if t != "" {
      if t[0] == '{' && NameLength(t[1..]).Some? {
        FirstGroup(t);
        var n := NameLength(t[1..]).value;
        ReadBack(t[n + 2..]);
        GroupItem(t[1..n + 1], t[n + 2..], map[]);
      } else {
        ReadBack(t[1..]);
        LiteralItem(t[0], t[1..], map[]);
        assert t == [t[0]] + t[1..];
      }
    }
  }

  lemma {:induction false} PlainItems(t: string)
    requires BraceFree(t)
    ensures Plain(Items(t))
  {
    if t != "" { PlainItems(t[1..]); }
  }

  lemma {:induction false} NoNameNoBrace(t: string)
    requires NameLength(t).None?
    ensures BraceFree(t) || exists j :: 0 <= j < |t| && t[j] == '{' && '}' !in t[..j]
  {
    if t != "" && t[0] == '{' {
      assert '}' !in t[..0];
    } else if t != "" {
      NoNameNoBrace(t[1..]);
      if !BraceFree(t[1..]) {
        var j :| 0 <= j < |t[1..]| && t[1..][j] == '{' && '}' !in t[1..][..j];
        assert t[..j + 1] == [t[0]] + t[1..][..j];
        assert t[j + 1] == '{' && '}' !in t[..j + 1];
      }
    }
  }

  lemma UnnestedSuffix(t: string, n: nat)
    requires Unnested(t) && n <= |t|
    ensures Unnested(t[n..])
  {
    var s := t[n..];
    forall i, j | 0 <= i < j < |s| && s[i] == '{' && s[j] == '{' ensures '}' in s[i..j] {
      assert s[i..j] == t[n + i..n + j];
    }
  }

  lemma {:induction false} UnnestedIsFlat(t: string)
    requires Unnested(t)
    ensures Flat(Items(t))
  {
    if t != "" {
      if t[0] == '{' && NameLength(t[1..]).Some? {
        var n := NameLength(t[1..]).value;
        UnnestedSuffix(t, n + 2);
        UnnestedIsFlat(t[n + 2..]);
      } else {
        UnnestedSuffix(t, 1);
        UnnestedIsFlat(t[1..]);
        if t[0] == '{' {
          UnnestedOpen(t);
          PlainItems(t[1..]);
        }
      }
    }
  }

  lemma UnnestedOpen(t: string)
    requires t != "" && t[0] == '{' && Unnested(t) && NameLength(t[1..]).None?
    ensures BraceFree(t[1..])
  {
    var s := t[1..];
    forall j | 0 <= j < |s| && s[j] == '{' ensures '}' in s[..j] {
      assert t[0..j + 1] == [t[0]] + s[..j] && t[j + 1] == '{';
    }
    NoNameNoBrace(s);
  }

  // ----- one replacement

  lemma {:induction false} ReplaceSkips(val: string, rest: string, k: string, with: string)
    requires '{' !in val
    ensures Replace(val + rest, Token(k), with) == val + Replace(rest, Token(k), with)
  {
    var s := val + rest;
    if val == "" {
      assert s == rest;
    } else {
      assert s[0] == val[0] && s[1..] == val[1..] + rest;
      assert !(Token(k) <= s);
      ReplaceSkips(val[1..], rest, k, with);
    }
  }

  lemma ReplaceHit(rest: string, k: string, with: string)
    ensures Replace(Token(k) + rest, Token(k), with) == with + Replace(rest, Token(k), with)
  {
    assert (Token(k) + rest)[|Token(k)|..] == rest;
  }

  /** A token of another name is left alone. */
  lemma ReplaceMiss(name: string, rest: string, k: string, with: string)
    requires BraceFree(name) && BraceFree(k) && name != k
    ensures Replace(Token(name) + rest, Token(k), with) == Token(name) + Replace(rest, Token(k), with)
  {
    var s := Token(name) + rest;
    assert !(Token(k) <= s) by {
      if Token(k) <= s { SameToken(name, k, rest); }
    }
    assert s[1..] == (name + "}") + rest;
    assert '{' !in name + "}";
    ReplaceSkips(name + "}", rest, k, with);
    assert Token(name) == ['{'] + (name + "}");
  }

  lemma SameToken(name: string, k: string, rest: string)
    requires BraceFree(name) && BraceFree(k) && Token(k) <= Token(name) + rest
    ensures name == k
  {
    var s := Token(name) + rest;
    assert forall i :: 0 <= i < |name| ==> s[i + 1] == name[i] && name[i] in name;
    assert forall i :: 0 <= i < |k| ==> s[i + 1] == k[i] && k[i] in k;
    assert s[|name| + 1] == '}' && s[|k| + 1] == Token(k)[|k| + 1] == '}';
    assert |name| == |k|;
    assert s[1..|k| + 1] == k && s[1..|name| + 1] == name;
  }

  /** Some value already put in occurs in `w`. */
  ghost predicate SomeValueWithin(m: Values, w: string)
  {
    exists k :: k in m && Within(m[k], w)
  }

  lemma WithinLonger(v: string, pre: string, w: string)
    requires Within(v, w)
    ensures Within(v, pre + w)
  {
    var i :| At(w, v, i);
    assert (pre + w)[|pre| + i..] == w[i..];
    assert At(pre + w, v, |pre| + i);
  }

  /** An open brace can only be closed into `{w}` by values: one of them is then part of `w`. */
  lemma {:induction false} NoForgedName(items: seq<Item>, m: Values, w: string)
    requires StaysOpen(items) && AllBraceFree(m) && BraceFree(w) && w + "}" <= Fill(items, m)
    ensures !Plain(items) && SomeValueWithin(m, w)
    decreases |items|
  {
    var s, rest := Fill(items, m), Fill(items[1..], m);
    assert (w + "}")[0] != '{' by { if w != "" { assert w[0] in w; } }
    match items[0] {
      case Lit(c) =>
        assert s[0] == c == (w + "}")[0];
        assert w != "" && w[0] == c && w[0] in w;
        assert s[1..] == rest && (w + "}")[1..] == w[1..] + "}";
        NoForgedName(items[1..], m, w[1..]);
        var k :| k in m && Within(m[k], w[1..]);
        assert w == [c] + w[1..];
        WithinLonger(m[k], [c], w[1..]);
      case Group(g) =>
        assert g in m;
        var v := m[g];
        assert forall i :: 0 <= i < |v| ==> v[i] == s[i] && v[i] in v;
        assert s[|w|] == '}';
        assert |v| <= |w|;
        assert forall i :: 0 <= i < |v| ==> v[i] == s[i] == (w + "}")[i] == w[i];
        assert v <= w && w[0..] == w;
        assert At(w, v, 0);
    }
  }

  /** Replacing one more name in a partly filled template fills that name's groups and nothing else. */
  lemma {:induction false} ReplaceFills(items: seq<Item>, m: Values, k: string, v: string)
    requires Canonical(items) && AllBraceFree(m) && BraceFree(k) && BraceFree(v)
    requires Flat(items) || !SomeValueWithin(m, k)
    ensures Replace(Fill(items, m), Token(k), v) == Fill(items, if k in m then m else m[k := v])
    decreases |items|
  {
    if items != [] {
      var rest := Fill(items[1..], m);
      ReplaceFills(items[1..], m, k, v);
      match items[0] {
        case Lit(c) =>
          var s := [c] + rest;
          assert s[1..] == rest && Fill(items, m) == s;
          assert !(Token(k) <= s) by {
            if Token(k) <= s {
              assert s[0] == '{' && Token(k)[1..] == k + "}" && k + "}" <= rest;
              NoForgedName(items[1..], m, k);
            }
          }
        case Group(g) =>
          if g in m { ReplaceSkips(m[g], rest, k, v); }
          else if g == k { ReplaceHit(rest, k, v); }
          else { ReplaceMiss(g, rest, k, v); }
      }
    }
  }

  // ----- a whole sequence of replacements

  /** Replacing the tokens of `keys` one after the other; keys without a value are passed over. */
  function Sequential(t: string, keys: seq<string>, m: Values): string
    decreases |keys|
  {
    if keys == [] then t else Sequential(One(t, keys[0], m), keys[1..], m)
  }

  function One(t: string, key: string, m: Values): string
  {
    if key in m then Replace(t, Token(key), m[key]) else t
  }

  function Restrict(m: Values, keys: seq<string>): Values { map k | k in m && k in keys :: m[k] }

  /** No value put in is part of a name replaced later. */
  ghost predicate OrderSafe(keys: seq<string>, m: Values)
  {
    forall i, j :: 0 <= i < j < |keys| && keys[i] in m && keys[j] in m ==> !Within(m[keys[i]], keys[j])
  }

  lemma {:induction false} SequentialFrom(items: seq<Item>, keys: seq<string>, m: Values, n: nat)
    requires Canonical(items) && AllBraceFree(m) && n <= |keys|
    requires Flat(items) || OrderSafe(keys, m)
    ensures Sequential(Fill(items, Restrict(m, keys[..n])), keys[n..], m) == Fill(items, Restrict(m, keys))
    decreases |keys| - n
  {
    if n == |keys| {
      assert keys[..n] == keys && keys[n..] == [];
    } else {
      var k := keys[n];
      assert keys[n..][0] == k && keys[n..][1..] == keys[n + 1..];
      OneFills(items, keys, m, n);
      SequentialFrom(items, keys, m, n + 1);
    }
  }

  lemma OneFills(items: seq<Item>, keys: seq<string>, m: Values, n: nat)
    requires Canonical(items) && AllBraceFree(m) && n < |keys|
    requires Flat(items) || OrderSafe(keys, m)
    ensures One(Fill(items, Restrict(m, keys[..n])), keys[n], m) == Fill(items, Restrict(m, keys[..n + 1]))
  {
    var done, k := Restrict(m, keys[..n]), keys[n];
    assert keys[..n + 1] == keys[..n] + [k];
    if k in m {
      assert Flat(items) || !SomeValueWithin(done, k) by {
        if OrderSafe(keys, m) {
          forall d | d in done ensures !Within(done[d], k) {
            var i :| 0 <= i < n && keys[i] == d;
          }
        }
      }
      ReplaceFills(items, done, k, m[k]);
      assert Restrict(m, keys[..n + 1]) == if k in done then done else done[k := m[k]];
    } else {
      assert Restrict(m, keys[..n + 1]) == done;
    }
  }

  /** Replacing one name after the other equals filling all groups at once. */
  lemma SequentialIsFill(t: string, keys: seq<string>, m: Values)
    requires AllBraceFree(m)
    requires Unnested(t) || OrderSafe(keys, m)
    ensures Sequential(t, keys, m) == Fill(Items(t), Restrict(m, keys))
  {
    ReadBack(t);
    ItemsCanonical(t);
    if Unnested(t) { UnnestedIsFlat(t); }
    SequentialFrom(Items(t), keys, m, 0);
    assert Restrict(m, keys[..0]) == map[] && keys[0..] == keys;
  }

  lemma BraceFreeItems(w: string)
    requires BraceFree(w)
    ensures NameLength(w + "}") == Some(|w|)
  {
    if w != "" {
      assert (w + "}")[1..] == w[1..] + "}";
      BraceFreeItems(w[1..]);
    }
  }

  lemma TokenItems(w: string)
    requires BraceFree(w)
    ensures Items(Token(w)) == [Group(w)]
  {
    var t := Token(w);
    assert t[1..] == w + "}";
    BraceFreeItems(w);
    assert t[1..|w| + 1] == w && t[|w| + 2..] == "";
  }

  lemma {:induction false} SequentialToken(w: string, keys: seq<string>, m: Values)
    requires AllBraceFree(m) && BraceFree(w)
    ensures Sequential(Token(w), keys, m) == if w in keys && w in m then m[w] else Token(w)
  {
    TokenItems(w);
    assert Unnested(Token(w)) by {
      assert forall i :: 0 <= i < |w| ==> Token(w)[i + 1] == w[i] && w[i] in w;
    }
    SequentialIsFill(Token(w), keys, m);
    assert Fill([Group(w)], Restrict(m, keys)) == Fill([Group(w)], Restrict(m, keys)) + "";
  }

  /** A token with another token inside. */
  function Nested(u: string, k: string, v: string): string { "{" + u + Token(k) + v + "}" }

  lemma NestedItems(u: string, k: string, v: string, m: Values)
    requires BraceFree(u) && BraceFree(k) && BraceFree(v)
    ensures Fill(Items(Nested(u, k, v)), m) == "{" + u + (if k in m then m[k] else Token(k)) + v + "}"
  {
    var inner := Token(k) + (v + "}");
    OpenBefore(u, inner);
    LiteralItem('{', u + inner, m);
    FillLiterals(u, inner, m);
    ClosingItems(k, v, m);
    Regroup(u, Token(k), v);
    Regroup(u, Shown(Group(k), m), v);
  }

  lemma ClosingItems(k: string, v: string, m: Values)
    requires BraceFree(k) && BraceFree(v)
    ensures Fill(Items(Token(k) + (v + "}")), m) == Shown(Group(k), m) + (v + "}")
  {
    GroupItem(k, v + "}", m);
    FillLiterals(v, "}", m);
    assert ['}'] + "" == "}";
    LiteralItem('}', "", m);
  }

  lemma Regroup(u: string, x: string, v: string)
    ensures ['{'] + (u + (x + (v + "}"))) == "{" + u + x + v + "}"
  {}

  lemma LiteralItem(c: char, rest: string, m: Values)
    requires c == '{' ==> NameLength(rest).None?
    ensures Fill(Items([c] + rest), m) == [c] + Fill(Items(rest), m)
  {
    var t := [c] + rest;
    assert t[0] == c && t[1..] == rest;
    var items := Items(t);
    assert items == [Lit(c)] + Items(rest);
    assert items[1..] == Items(rest);
  }

  lemma GroupItem(k: string, rest: string, m: Values)
    requires BraceFree(k)
    ensures Fill(Items(Token(k) + rest), m) == Shown(Group(k), m) + Fill(Items(rest), m)
  {
    var t := Token(k) + rest;
    assert t[1..] == k + "}" + rest;
    NameThen(k, rest);
    assert t[1..|k| + 1] == k && t[|k| + 2..] == rest;
    var items := Items(t);
    assert items == [Group(k)] + Items(rest);
    assert items[1..] == Items(rest);
  }

  lemma {:induction false} NameThen(k: string, rest: string)
    requires BraceFree(k)
    ensures NameLength(k + "}" + rest) == Some(|k|)
  {
    if k != "" {
      assert (k + "}" + rest)[1..] == k[1..] + "}" + rest;
      NameThen(k[1..], rest);
    }
  }

  lemma {:induction false} OpenBefore(u: string, inner: string)
    requires BraceFree(u) && inner != "" && inner[0] == '{'
    ensures NameLength(u + inner).None?
  {
    if u == "" {
      assert u + inner == inner;
    } else {
      assert (u + inner)[1..] == u[1..] + inner;
      OpenBefore(u[1..], inner);
    }
  }

  lemma {:induction false} FillLiterals(u: string, rest: string, m: Values)
    requires BraceFree(u)
    ensures Fill(Items(u + rest), m) == u + Fill(Items(rest), m)
  {
    if u == "" {
      assert u + rest == rest;
    } else {
      var c, more := u[0], u[1..];
      assert c in u && u == [c] + more;
      FillLiterals(more, rest, m);
      LiteralItem(c, more + rest, m);
      PrefixChar(c, more, rest);
      PrefixChar(c, more, Fill(Items(rest), m));
    }
  }

  lemma PrefixChar(c: char, more: string, rest: string)
    ensures [c] + more + rest == [c] + (more + rest)
  {}

  /** On a nested token, only the replacement of the inner name matters at first. */
  lemma {:induction false} NestedSequential(u: string, k: string, v: string, keys: seq<string>, m: Values, n: nat)
    requires AllBraceFree(m) && BraceFree(u) && BraceFree(k) && BraceFree(v)
    requires n < |keys| && keys[n] == k && k in m
    requires u + m[k] + v in m && u + m[k] + v in keys[n + 1..]
    ensures Sequential(Nested(u, k, v), keys, m) == m[u + m[k] + v]
    decreases |keys|
  {
    var key, w := keys[0], u + m[k] + v;
    NestedOne(u, k, v, key, m);
    if key == k {
      assert forall x :: x in keys[n + 1..] ==> x in keys[1..];
      SequentialToken(w, keys[1..], m);
    } else {
      assert keys[1..][n - 1] == k && keys[1..][n..] == keys[n + 1..];
      NestedSequential(u, k, v, keys[1..], m, n - 1);
    }
  }

  lemma NestedOne(u: string, k: string, v: string, key: string, m: Values)
    requires AllBraceFree(m) && BraceFree(u) && BraceFree(k) && BraceFree(v) && k in m
    ensures One(Nested(u, k, v), key, m) == if key == k then Token(u + m[k] + v) else Nested(u, k, v)
  {
    if key in m {
      OneFillsFirst(Nested(u, k, v), key, m);
      NestedItems(u, k, v, map[key := m[key]]);
      Enclose(u, m[k], v);
    }
  }

  lemma Enclose(u: string, x: string, v: string)
    ensures "{" + u + x + v + "}" == Token(u + x + v)
  {
    assert "{" + u + x + v + "}" == "{" + (u + x + v) + "}";
  }

  /** The first replacement in a template is always exact. */
  lemma OneFillsFirst(t: string, key: string, m: Values)
    requires AllBraceFree(m) && key in m
    ensures One(t, key, m) == Fill(Items(t), map[key := m[key]])
  {
    ReadBack(t);
    ItemsCanonical(t);
    assert !SomeValueWithin(map[], key);
    ReplaceFills(Items(t), map[], key, m[key]);
    assert map[][key := m[key]] == map[key := m[key]];
  }

  /** On all templates at once: replacing in this order is a single pass exactly
      when no value put in is part of a name replaced later. */
  lemma SinglePassExact(keys: seq<string>, m: Values)
    requires AllBraceFree(m)
    ensures (forall t :: Sequential(t, keys, m) == Fill(Items(t), Restrict(m, keys))) <==> OrderSafe(keys, m)
  {
    if OrderSafe(keys, m) {
      forall t ensures Sequential(t, keys, m) == Fill(Items(t), Restrict(m, keys)) {
        SequentialIsFill(t, keys, m);
      }
    } else {
      var i, j :| 0 <= i < j < |keys| && keys[i] in m && keys[j] in m && Within(m[keys[i]], keys[j]);
      var k, w := keys[i], keys[j];
      var p :| At(w, m[k], p);
      var u, v := w[..p], w[p + |m[k]|..];
      assert w == u + m[k] + v;
      assert keys[i + 1..][j - i - 1] == w;
      NestedSequential(u, k, v, keys, m, i);
      NestedItems(u, k, v, Restrict(m, keys));
      assert Fill(Items(Nested(u, k, v)), Restrict(m, keys)) == "{" + u + m[k] + v + "}";
      assert m[w] != "{" + u + m[k] + v + "}" by { assert ("{" + u + m[k] + v + "}")[0] == '{'; }
      assert Sequential(Nested(u, k, v), keys, m) != Fill(Items(Nested(u, k, v)), Restrict(m, keys));
    }
  }

  /** A value with braces can itself be taken for a token and replaced again. */
  lemma ValueReplacedAgain(a: string, b: string, v: string)
    requires BraceFree(a) && BraceFree(b) && a != b && v != Token(b)
    ensures var m := map[a := Token(b), b := v];
      Sequential(Token(a), [a, b], m) == v && Fill(Items(Token(a)), m) == Token(b)
  {
    var m := map[a := Token(b), b := v];
    var keys := [a, b];
    ReplaceHit("", a, Token(b));
    ReplaceHit("", b, v);
    assert Token(a) + "" == Token(a) && Token(b) + "" == Token(b) && v + "" == v;
    assert keys[1..] == [b] && [b][1..] == [];
    assert Sequential(v, [], m) == v && One(Token(b), b, m) == v;
    assert Sequential(Token(b), [b], m) == Sequential(v, [], m);
    TokenItems(a);
    assert Fill([Group(a)], m) == m[a] + Fill([], m);
  }
}
