/** Interpolating a template with the values of a step context. */
module Interpolation {
  import opened Text
  import opened Context
  import opened Templates
  import opened KeyOrders
  import opened Rescan

  /** What the visited keys stand for; some may have no value. */
  function Resolved(c: Ctx, keys: seq<string>): Values
  {
    map k | k in keys && c.Get(k).Some? :: c.Get(k).value
  }

  // ----- against filling every group at once

  /** Every group whose name the context resolves is replaced, left to right, in one pass. */
  function Substitute(items: seq<Item>, c: Ctx): string
  {
    if items == [] then ""
    else (match items[0]
          case Lit(ch) => [ch]
          case Group(name) => if c.Get(name).Some? then c.Get(name).value else Token(name)) + Substitute(items[1..], c)
  }

  ghost predicate BraceFreeContext(c: Ctx)
  {
    AllBraceFree(c.variables) && forall s :: s in c.namespaced ==> BraceFree(s) && AllBraceFree(c.namespaced[s])
  }

  lemma {:induction false} MostRecentInside(c: Ctx, order: seq<string>, key: string)
    requires MostRecent(order, c.namespaced, key).Some?
    ensures exists s :: InStep(c.namespaced, s, key) == MostRecent(order, c.namespaced, key)
  {
    if InStep(c.namespaced, order[|order| - 1], key).None? {
      MostRecentInside(c, order[..|order| - 1], key);
    }
  }

  /** Every key the context resolves is collected, and its value is one the context holds. */
  lemma ResolvedIsCollected(c: Ctx, key: string)
    requires c.Get(key).Some?
    ensures IsKey(c, key)
    ensures BraceFreeContext(c) ==> BraceFree(c.Get(key).value)
    decreases if key == "issue_number" then 1 else 0
  {
    var dot := IndexOf(key, '.');
    if dot.Some? {
      var s, v := key[..dot.value], key[dot.value + 1..];
      assert key == s + "." + v && s in c.namespaced && v in c.namespaced[s];
    } else if c.Own(key).Some? {
      if MostRecent(c.order, c.namespaced, key).Some? {
        MostRecentInside(c, c.order, key);
      }
    } else {
      ResolvedIsCollected(c, "primary_issue_number");
    }
  }

  lemma KeyBraceFree(c: Ctx, key: string)
    requires BraceFreeContext(c) && IsKey(c, key)
    ensures BraceFree(key)
  {
    if Dotted(c, key) {
      var s, v :| s in c.namespaced && v in c.namespaced[s] && key == s + "." + v;
    }
  }

  lemma ResolvedBraceFree(c: Ctx, keys: seq<string>)
    requires BraceFreeContext(c) && KeyOrder(c, keys)
    ensures AllBraceFree(Resolved(c, keys))
  {
    KeyOrderKeys(c, keys);
    var m := Resolved(c, keys);
    forall k | k in m ensures BraceFree(k) && BraceFree(m[k]) {
      KeyBraceFree(c, k);
      ResolvedIsCollected(c, k);
    }
  }

  lemma {:induction false} FillIsSubstitute(items: seq<Item>, c: Ctx, keys: seq<string>)
    requires KeyOrder(c, keys)
    ensures Fill(items, Restrict(Resolved(c, keys), keys)) == Substitute(items, c)
  {
    KeyOrderKeys(c, keys);
    if items != [] {
      FillIsSubstitute(items[1..], c, keys);
      if items[0].Group? && c.Get(items[0].name).Some? {
        ResolvedIsCollected(c, items[0].name);
      }
    }
  }

  /** Templates without nested groups: whatever order the keys come in, the
      result is the simultaneous substitution by lookup. */
  lemma InterpolationSubstitutes(t: string, c: Ctx, keys: seq<string>)
    requires BraceFreeContext(c) && KeyOrder(c, keys) && Unnested(t)
    ensures Sequential(t, keys, Resolved(c, keys)) == Substitute(Items(t), c)
  {
    ResolvedBraceFree(c, keys);
    SequentialIsFill(t, keys, Resolved(c, keys));
    FillIsSubstitute(Items(t), c, keys);
  }

  /** All templates, nested ones too: a given order makes a single pass exactly
      when no value is part of a resolvable key visited later. */
  lemma InterpolationSinglePass(c: Ctx, keys: seq<string>)
    requires BraceFreeContext(c) && KeyOrder(c, keys)
    ensures (forall t :: Sequential(t, keys, Resolved(c, keys)) == Substitute(Items(t), c))
            <==> OrderSafe(keys, Resolved(c, keys))
  {
    var m := Resolved(c, keys);
    ResolvedBraceFree(c, keys);
    SinglePassExact(keys, m);
    forall t ensures Fill(Items(t), Restrict(m, keys)) == Substitute(Items(t), c) {
      FillIsSubstitute(Items(t), c, keys);
    }
  }

  // ----- in every order, in terms of the context alone

  /** Both have values, and some order visits `k`, and `w` later. */
  ghost predicate ReplacedBefore(c: Ctx, k: string, w: string)
  {
    c.Get(k).Some? && c.Get(w).Some? && MayPrecede(c, k, w)
  }

  lemma PlacesReplaced(c: Ctx, keys: seq<string>, i: nat, j: nat)
    requires KeyOrder(c, keys) && i < j < |keys| && c.Get(keys[i]).Some? && c.Get(keys[j]).Some?
    ensures ReplacedBefore(c, keys[i], keys[j])
  {
    assert Precedes(keys, keys[i], keys[j]);
    PrecedesExactly(c, keys[i], keys[j]);
  }

  lemma OrderWith(c: Ctx, k: string, w: string) returns (keys: seq<string>, i: nat, j: nat)
    requires ReplacedBefore(c, k, w)
    ensures KeyOrder(c, keys) && i < j < |keys| && keys[i] == k && keys[j] == w
  {
    PrecedesExactly(c, k, w);
    keys :| KeyOrder(c, keys) && Precedes(keys, k, w);
    i, j :| 0 <= i < j < |keys| && keys[i] == k && keys[j] == w;
  }

  /** No value is part of a key that may be visited later. */
  ghost predicate NoValueInName(c: Ctx)
  {
    forall k, w :: ReplacedBefore(c, k, w) ==> !Within(c.Get(k).value, w)
  }

  ghost predicate IsSinglePass(c: Ctx, keys: seq<string>)
  {
    forall t :: Sequential(t, keys, Resolved(c, keys)) == Substitute(Items(t), c)
  }

  /** For keys and values without braces and all templates, nested ones too:
      every order makes a single pass exactly when no value is part of a key that
      some order visits later. */
  lemma SinglePassInEveryOrder(c: Ctx)
    requires BraceFreeContext(c)
    ensures (forall keys :: KeyOrder(c, keys) ==> IsSinglePass(c, keys)) <==> NoValueInName(c)
  {
    if NoValueInName(c) {
      forall keys | KeyOrder(c, keys) ensures IsSinglePass(c, keys) {
        InterpolationSinglePass(c, keys);
        forall i, j | 0 <= i < j < |keys| && keys[i] in Resolved(c, keys) && keys[j] in Resolved(c, keys)
          ensures !Within(Resolved(c, keys)[keys[i]], keys[j])
        {
          PlacesReplaced(c, keys, i, j);
        }
      }
    } else {
      var k, w :| ReplacedBefore(c, k, w) && Within(c.Get(k).value, w);
      var keys, i, j := OrderWith(c, k, w);
      InterpolationSinglePass(c, keys);
      assert keys[i] in Resolved(c, keys) && keys[j] in Resolved(c, keys);
      assert !OrderSafe(keys, Resolved(c, keys));
      assert !IsSinglePass(c, keys);
    }
  }

  ghost predicate KeysBraceFree(c: Ctx) { forall k :: IsKey(c, k) ==> BraceFree(k) }

  /** No token of a key that may be visited later can start in a value, unless
      that key stands for its own token. */
  ghost predicate NoTokenStarts(c: Ctx)
  {
    forall k, w :: ReplacedBefore(c, k, w) && c.Get(w) != Some(Token(w)) ==> !Starts(c.Get(k).value, w)
  }

  lemma OrderRescanSafe(c: Ctx, keys: seq<string>)
    requires KeyOrder(c, keys) && NoTokenStarts(c)
    ensures RescanSafe(keys, Resolved(c, keys))
  {
    var m := Resolved(c, keys);
    forall i, j | 0 <= i < j < |keys| && keys[i] in m && keys[j] in m && m[keys[j]] != Token(keys[j])
      ensures !Starts(m[keys[i]], keys[j])
    {
      PlacesReplaced(c, keys, i, j);
    }
  }

  lemma ResolvedKeysBraceFree(c: Ctx, keys: seq<string>)
    requires KeyOrder(c, keys) && KeysBraceFree(c)
    ensures forall k :: k in Resolved(c, keys) ==> BraceFree(k)
  {
    KeyOrderKeys(c, keys);
  }

  ghost predicate SinglePassStages(c: Ctx, keys: seq<string>)
  {
    forall t :: Unnested(t) ==> SinglePassAtEachStage(t, keys, Resolved(c, keys))
  }

  /** For keys without braces, any values, and templates without nested groups:
      in every order every stage is a single pass exactly when no token of a key
      that some order visits later can start in a value. */
  lemma StagesInEveryOrder(c: Ctx)
    requires KeysBraceFree(c)
    ensures (forall keys :: KeyOrder(c, keys) ==> SinglePassStages(c, keys)) <==> NoTokenStarts(c)
  {
    if NoTokenStarts(c) {
      forall keys | KeyOrder(c, keys) ensures SinglePassStages(c, keys) {
        ResolvedKeysBraceFree(c, keys);
        OrderRescanSafe(c, keys);
        RescanExact(keys, Resolved(c, keys));
      }
    } else {
      var k, w :| ReplacedBefore(c, k, w) && c.Get(w) != Some(Token(w)) && Starts(c.Get(k).value, w);
      var keys, i, j := OrderWith(c, k, w);
      ResolvedKeysBraceFree(c, keys);
      RescanExact(keys, Resolved(c, keys));
      assert keys[i] in Resolved(c, keys) && keys[j] in Resolved(c, keys);
      assert !SinglePassStages(c, keys);
    }
  }

  /** Then the final text is the simultaneous substitution. */
  lemma SafeSubstitutes(t: string, c: Ctx, keys: seq<string>)
    requires KeysBraceFree(c) && NoTokenStarts(c) && KeyOrder(c, keys) && Unnested(t)
    ensures Sequential(t, keys, Resolved(c, keys)) == Substitute(Items(t), c)
  {
    ResolvedKeysBraceFree(c, keys);
    OrderRescanSafe(c, keys);
    StageHolds(t, keys, Resolved(c, keys), |keys|);
    assert keys[..|keys|] == keys;
    FillIsSubstitute(Items(t), c, keys);
  }

  /** No value touches the token of a key that some order visits later, unless that
      key stands for its own token. */
  ghost predicate NothingTouches(c: Ctx)
  {
    forall k, w :: ReplacedBefore(c, k, w) && c.Get(w) != Some(Token(w)) ==> !Touches(c.Get(k).value, w)
  }

  lemma OrderApart(c: Ctx, keys: seq<string>)
    requires KeyOrder(c, keys) && NothingTouches(c)
    ensures Apart(keys, Resolved(c, keys))
  {
    var m := Resolved(c, keys);
    forall i, j | 0 <= i < j < |keys| && keys[i] in m && keys[j] in m && m[keys[j]] != Token(keys[j])
      ensures !Touches(m[keys[i]], keys[j])
    {
      PlacesReplaced(c, keys, i, j);
    }
  }

  ghost predicate AllStages(c: Ctx, keys: seq<string>)
  {
    forall t :: SinglePassAtEachStage(t, keys, Resolved(c, keys))
  }

  /** For keys without braces, any values and all templates, nested ones too: in
      every order every stage is a single pass exactly when no value touches the
      token of a key that some order visits later. */
  lemma AllStagesInEveryOrder(c: Ctx)
    requires KeysBraceFree(c)
    ensures (forall keys :: KeyOrder(c, keys) ==> AllStages(c, keys)) <==> NothingTouches(c)
  {
    if NothingTouches(c) {
      forall keys | KeyOrder(c, keys) ensures AllStages(c, keys) {
        ResolvedKeysBraceFree(c, keys);
        OrderApart(c, keys);
        ApartExact(keys, Resolved(c, keys));
      }
    } else {
      var k, w :| ReplacedBefore(c, k, w) && c.Get(w) != Some(Token(w)) && Touches(c.Get(k).value, w);
      var keys, i, j := OrderWith(c, k, w);
      ResolvedKeysBraceFree(c, keys);
      ApartExact(keys, Resolved(c, keys));
      assert keys[i] in Resolved(c, keys) && keys[j] in Resolved(c, keys);
      assert !AllStages(c, keys);
    }
  }

  /** Then every template comes out as its simultaneous substitution. */
  lemma ApartSubstitutes(t: string, c: Ctx, keys: seq<string>)
    requires KeysBraceFree(c) && NothingTouches(c) && KeyOrder(c, keys)
    ensures Sequential(t, keys, Resolved(c, keys)) == Substitute(Items(t), c)
  {
    ResolvedKeysBraceFree(c, keys);
    OrderApart(c, keys);
    ApartStage(t, keys, Resolved(c, keys), |keys|);
    assert keys[..|keys|] == keys;
    FillIsSubstitute(Items(t), c, keys);
  }

  /** Values without braces are a special case. */
  lemma BraceFreeIsSafe(c: Ctx)
    requires BraceFreeContext(c)
    ensures KeysBraceFree(c) && NoTokenStarts(c)
  {
    forall k | IsKey(c, k) ensures BraceFree(k) { KeyBraceFree(c, k); }
    forall k, w | ReplacedBefore(c, k, w) ensures !Starts(c.Get(k).value, w) {
      ResolvedIsCollected(c, k);
      var v := c.Get(k).value;
      assert forall p :: 0 <= p < |v| ==> v[p..][0] == v[p] && v[p] in v;
    }
  }

  // ----- the interpolation itself

  /** The result of replacing the collected keys one after the other, in some order they can come in. */
  ghost predicate Interpolates(template: string, c: Ctx, result: string)
  {
    exists keys :: KeyOrder(c, keys) && result == Sequential(template, keys, Resolved(c, keys))
  }

  /** Every key of the context replaced in turn, longer keys first. If no value
      touches a token, or without nested groups if no token can start in a value,
      that is one simultaneous substitution. */
  method InterpolateString(template: string, context: StepContext) returns (result: string)
    ensures Interpolates(template, context.View(), result)
    ensures KeysBraceFree(context.View()) && NoTokenStarts(context.View()) && Unnested(template) ==>
      result == Substitute(Items(template), context.View())
    ensures KeysBraceFree(context.View()) && NothingTouches(context.View()) ==>
      result == Substitute(Items(template), context.View())
  {
    var allKeys := CollectKeys(context);
    ghost var m := Resolved(context.View(), allKeys);
    result := template;
    assert allKeys[0..] == allKeys;
    for i := 0 to |allKeys|
      invariant Sequential(result, allKeys[i..], m) == Sequential(template, allKeys, m)
    {
      assert allKeys[i..][1..] == allKeys[i + 1..];
      var value := context.Get(allKeys[i]);
      if value.Some? {
        result := Replace(result, Token(allKeys[i]), value.value);
      }
    }
    if KeysBraceFree(context.View()) && NoTokenStarts(context.View()) && Unnested(template) {
      SafeSubstitutes(template, context.View(), allKeys);
    }
    if KeysBraceFree(context.View()) && NothingTouches(context.View()) {
      ApartSubstitutes(template, context.View(), allKeys);
    }
  }
}
