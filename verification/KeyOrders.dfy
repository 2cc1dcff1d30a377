/** The keys an interpolation visits, and exactly the orders in which it can. */
module KeyOrders {
  import opened Text
  import opened Context
  import opened Sequences

  // ----- the keys

  /** A key the interpolation collects from the context. */
  ghost predicate IsKey(c: Ctx, key: string)
  {
    || Dotted(c, key) || Inside(c, key) || key in c.variables
    || key == "work_dir" || key == "run_id"
    || (key == "issue_number" && c.Get("issue_number").Some?)
  }

  ghost predicate Dotted(c: Ctx, key: string)
  {
    exists s, v :: s in c.namespaced && v in c.namespaced[s] && key == s + "." + v
  }

  ghost predicate Inside(c: Ctx, key: string)
  {
    exists s :: s in c.namespaced && key in c.namespaced[s]
  }

  /** `key` is the step's name, a dot, and one of the step's variables. */
  predicate Spells(c: Ctx, step: string, key: string)
  {
    && step in c.namespaced && |step| < |key| && key[..|step|] == step && key[|step|] == '.'
    && key[|step| + 1..] in c.namespaced[step]
  }

  /** With dots in step names a key can be spelled by several steps; it is collected once for each. */
  ghost predicate SpelledTwice(c: Ctx, key: string)
  {
    exists s, t :: s != t && Spells(c, s, key) && Spells(c, t, key)
  }

  /** The source a key is first collected from. */
  ghost function Rank(c: Ctx, key: string): nat
  {
    if Dotted(c, key) then 0 else if Inside(c, key) then 1 else if key in c.variables then 2 else 3
  }

  // ----- collecting them

  /** The order in which the hash maps give their keys, the same each time they are gone through. */
  datatype Walk = Walk(steps: seq<string>, names: map<string, seq<string>>, flat: seq<string>)

  ghost predicate Lists(s: seq<string>, names: set<string>)
  {
    NoDuplicates(s) && forall k :: k in s <==> k in names
  }

  ghost predicate Walks(c: Ctx, w: Walk)
  {
    && Lists(w.steps, c.namespaced.Keys) && w.names.Keys == c.namespaced.Keys
    && (forall s :: s in c.namespaced ==> Lists(w.names[s], c.namespaced[s].Keys))
    && Lists(w.flat, c.variables.Keys)
  }

  function NamesOf(names: map<string, seq<string>>, step: string): seq<string>
  {
    if step in names then names[step] else []
  }

  function DottedBy(step: string, names: seq<string>): seq<string>
  {
    if names == [] then [] else [step + "." + names[0]] + DottedBy(step, names[1..])
  }

  function AllDotted(steps: seq<string>, names: map<string, seq<string>>): seq<string>
  {
    if steps == [] then [] else DottedBy(steps[0], NamesOf(names, steps[0])) + AllDotted(steps[1..], names)
  }

  function AllBare(steps: seq<string>, names: map<string, seq<string>>): seq<string>
  {
    if steps == [] then [] else NamesOf(names, steps[0]) + AllBare(steps[1..], names)
  }

  function BuiltIns(hasIssue: bool): seq<string>
  {
    ["work_dir", "run_id"] + if hasIssue then ["issue_number"] else []
  }

  /** The names that are not there yet are appended. */
  function WithMissing(keys: seq<string>, more: seq<string>): seq<string>
    decreases |more|
  {
    if more == [] then keys
    else WithMissing(if more[0] in keys then keys else keys + [more[0]], more[1..])
  }

  function FromSteps(w: Walk): seq<string> { WithMissing(AllDotted(w.steps, w.names), AllBare(w.steps, w.names)) }

  function FromMaps(w: Walk): seq<string> { WithMissing(FromSteps(w), w.flat) }

  /** All keys in the order they are collected. */
  function Gathered(c: Ctx, w: Walk): seq<string>
  {
    WithMissing(FromMaps(w), BuiltIns(c.Get("issue_number").Some?))
  }

  predicate LongestFirst(keys: seq<string>) { forall i, j :: 0 <= i < j < |keys| ==> |keys[i]| >= |keys[j]| }

  function InsertByLength(key: string, keys: seq<string>): (r: seq<string>)
    requires LongestFirst(keys)
    ensures LongestFirst(r) && forall k :: k in r <==> k == key || k in keys
  {
    if keys == [] || |key| >= |keys[0]| then
      [key] + keys
    else
      var rest := InsertByLength(key, keys[1..]);
      assert forall x :: x in keys[1..] ==> |x| <= |keys[0]|;
      assert forall i :: 0 <= i < |rest| ==> rest[i] in rest && |rest[i]| <= |keys[0]|;
      [keys[0]] + rest
  }

  /** The library's stable sort, as a function. */
  function SortByLength(keys: seq<string>): (r: seq<string>)
    ensures LongestFirst(r) && forall k :: k in r <==> k in keys
  {
    if keys == [] then [] else InsertByLength(keys[0], SortByLength(keys[1..]))
  }

  /** An order in which the keys can be visited. */
  ghost predicate KeyOrder(c: Ctx, keys: seq<string>)
  {
    exists w :: Walks(c, w) && keys == SortByLength(Gathered(c, w))
  }

  // ----- the collection itself

  method Enumerate(names: set<string>) returns (s: seq<string>)
    ensures Lists(s, names)
  {
    s := [];
    var left := names;
    while left != {}
      invariant left <= names && Lists(s, names - left)
    {
      var name :| name in left;
      left := left - {name};
      s := s + [name];
    }
  }

  method WalkMaps(context: StepContext) returns (w: Walk)
    ensures Walks(context.View(), w)
  {
    var steps := Enumerate(context.namespaced.Keys);
    var flat := Enumerate(context.variables.Keys);
    var names: map<string, seq<string>> := map[];
    for i := 0 to |steps|
      invariant forall s :: s in names <==> s in steps[..i]
      invariant forall s :: s in names ==> Lists(names[s], context.namespaced[s].Keys)
    {
      var listed := Enumerate(context.namespaced[steps[i]].Keys);
      names := names[steps[i] := listed];
    }
    assert steps[..|steps|] == steps;
    assert names.Keys == context.namespaced.Keys;
    w := Walk(steps, names, flat);
  }

  method AddDotted(keys: seq<string>, step: string, names: seq<string>) returns (r: seq<string>)
    ensures r == keys + DottedBy(step, names)
  {
    r := keys;
    for i := 0 to |names|
      invariant r + DottedBy(step, names[i..]) == keys + DottedBy(step, names)
    {
      assert names[i..][1..] == names[i + 1..];
      r := r + [step + "." + names[i]];
    }
  }

  method AddMissing(keys: seq<string>, more: seq<string>) returns (r: seq<string>)
    ensures r == WithMissing(keys, more)
  {
    r := keys;
    assert more[0..] == more;
    for i := 0 to |more|
      invariant WithMissing(r, more[i..]) == WithMissing(keys, more)
    {
      assert more[i..][1..] == more[i + 1..];
      if more[i] !in r {
        r := r + [more[i]];
      }
    }
  }

  lemma {:induction false} MissingConcat(keys: seq<string>, a: seq<string>, b: seq<string>)
    ensures WithMissing(keys, a + b) == WithMissing(WithMissing(keys, a), b)
    decreases |a|
  {
    if a == [] {
      assert a + b == b;
    } else {
      assert (a + b)[1..] == a[1..] + b;
      MissingConcat(if a[0] in keys then keys else keys + [a[0]], a[1..], b);
    }
  }

  method DottedKeys(w: Walk) returns (keys: seq<string>)
    ensures keys == AllDotted(w.steps, w.names)
  {
    keys := [];
    assert w.steps[0..] == w.steps;
    for i := 0 to |w.steps|
      invariant keys + AllDotted(w.steps[i..], w.names) == AllDotted(w.steps, w.names)
    {
      assert w.steps[i..][1..] == w.steps[i + 1..];
      keys := AddDotted(keys, w.steps[i], NamesOf(w.names, w.steps[i]));
    }
  }

  method BareKeys(dotted: seq<string>, w: Walk) returns (keys: seq<string>)
    ensures keys == WithMissing(dotted, AllBare(w.steps, w.names))
  {
    keys := dotted;
    assert w.steps[0..] == w.steps;
    for i := 0 to |w.steps|
      invariant WithMissing(keys, AllBare(w.steps[i..], w.names)) == WithMissing(dotted, AllBare(w.steps, w.names))
    {
      assert w.steps[i..][1..] == w.steps[i + 1..];
      MissingConcat(keys, NamesOf(w.names, w.steps[i]), AllBare(w.steps[i + 1..], w.names));
      keys := AddMissing(keys, NamesOf(w.names, w.steps[i]));
    }
  }

  /** Every key of the context, source by source, then longest first. */
  method CollectKeys(context: StepContext) returns (keys: seq<string>)
    ensures KeyOrder(context.View(), keys)
  {
    var w := WalkMaps(context);
    keys := DottedKeys(w);
    keys := BareKeys(keys, w);
    keys := AddMissing(keys, w.flat);
    var issue := context.Get("issue_number");
    keys := AddMissing(keys, BuiltIns(issue.Some?));
    assert keys == Gathered(context.View(), w);
    keys := SortByLength(keys);
  }

  // ----- which keys an order visits

  lemma SpellsIs(c: Ctx, step: string, key: string)
    ensures Spells(c, step, key) <==>
            step in c.namespaced && exists v :: v in c.namespaced[step] && key == step + "." + v
  {
    if Spells(c, step, key) {
      assert key == step + "." + key[|step| + 1..];
    }
    if step in c.namespaced && exists v :: v in c.namespaced[step] && key == step + "." + v {
      var v :| v in c.namespaced[step] && key == step + "." + v;
      assert key[..|step|] == step && key[|step| + 1..] == v;
    }
  }

  lemma {:induction false} DottedByKeys(step: string, names: seq<string>, key: string)
    ensures key in DottedBy(step, names) <==> exists v :: v in names && key == step + "." + v
  {
    if names != [] {
      DottedByKeys(step, names[1..], key);
      assert forall v :: v in names <==> v == names[0] || v in names[1..];
    }
  }

  /** The walk's names are those of some of the context's steps. */
  ghost predicate PartOf(c: Ctx, steps: seq<string>, names: map<string, seq<string>>)
  {
    && NoDuplicates(steps)
    && forall s :: s in steps ==> s in c.namespaced && s in names && Lists(names[s], c.namespaced[s].Keys)
  }

  lemma PartRest(c: Ctx, steps: seq<string>, names: map<string, seq<string>>)
    requires PartOf(c, steps, names) && steps != []
    ensures PartOf(c, steps[1..], names) && steps[0] !in steps[1..]
  {
    assert forall s :: s in steps[1..] ==> s in steps;
  }

  lemma StepSpells(c: Ctx, names: map<string, seq<string>>, step: string, key: string)
    requires step in c.namespaced && step in names && Lists(names[step], c.namespaced[step].Keys)
    ensures key in DottedBy(step, names[step]) <==> Spells(c, step, key)
  {
    SpellsIs(c, step, key);
    DottedByKeys(step, names[step], key);
  }

  lemma {:induction false} AllDottedKeys(c: Ctx, steps: seq<string>, names: map<string, seq<string>>, key: string)
    requires PartOf(c, steps, names)
    ensures key in AllDotted(steps, names) <==> exists s :: s in steps && Spells(c, s, key)
  {
    if steps != [] {
      PartRest(c, steps, names);
      AllDottedKeys(c, steps[1..], names, key);
      StepSpells(c, names, steps[0], key);
      assert forall s :: s in steps <==> s == steps[0] || s in steps[1..];
    }
  }

  lemma {:induction false} AllBareKeys(c: Ctx, steps: seq<string>, names: map<string, seq<string>>, key: string)
    requires PartOf(c, steps, names)
    ensures key in AllBare(steps, names) <==> exists s :: s in steps && key in c.namespaced[s]
  {
    if steps != [] {
      PartRest(c, steps, names);
      AllBareKeys(c, steps[1..], names, key);
      assert forall s :: s in steps <==> s == steps[0] || s in steps[1..];
    }
  }

  lemma {:induction false} MissingKeys(keys: seq<string>, more: seq<string>, key: string)
    ensures key in WithMissing(keys, more) <==> key in keys || key in more
    decreases |more|
  {
    if more != [] {
      MissingKeys(if more[0] in keys then keys else keys + [more[0]], more[1..], key);
    }
  }

  lemma DottedSpells(c: Ctx, key: string)
    ensures Dotted(c, key) <==> exists s :: Spells(c, s, key)
  {
    if Dotted(c, key) {
      var s, v :| s in c.namespaced && v in c.namespaced[s] && key == s + "." + v;
      SpellsIs(c, s, key);
    }
    if s :| Spells(c, s, key) {
      SpellsIs(c, s, key);
    }
  }

  lemma DottedRank(c: Ctx, w: Walk, key: string)
    requires Walks(c, w)
    ensures key in AllDotted(w.steps, w.names) <==> Dotted(c, key)
  {
    assert PartOf(c, w.steps, w.names);
    AllDottedKeys(c, w.steps, w.names, key);
    DottedSpells(c, key);
    assert forall s :: Spells(c, s, key) ==> s in w.steps;
  }

  lemma BareRank(c: Ctx, w: Walk, key: string)
    requires Walks(c, w)
    ensures key in AllBare(w.steps, w.names) <==> Inside(c, key)
  {
    assert PartOf(c, w.steps, w.names);
    AllBareKeys(c, w.steps, w.names, key);
  }

  /** What each source adds. */
  lemma GatheredKeys(c: Ctx, w: Walk, key: string)
    requires Walks(c, w)
    ensures key in AllDotted(w.steps, w.names) <==> Rank(c, key) == 0
    ensures key in FromSteps(w) <==> Rank(c, key) <= 1
    ensures key in FromMaps(w) <==> Rank(c, key) <= 2
    ensures key in Gathered(c, w) <==> IsKey(c, key)
  {
    DottedRank(c, w, key);
    BareRank(c, w, key);
    MissingKeys(AllDotted(w.steps, w.names), AllBare(w.steps, w.names), key);
    MissingKeys(FromSteps(w), w.flat, key);
    MissingKeys(FromMaps(w), BuiltIns(c.Get("issue_number").Some?), key);
  }

  /** The keys of an order are exactly the collected ones. */
  lemma KeyOrderKeys(c: Ctx, keys: seq<string>)
    requires KeyOrder(c, keys)
    ensures forall k :: k in keys <==> IsKey(c, k)
  {
    var w :| Walks(c, w) && keys == SortByLength(Gathered(c, w));
    forall k ensures k in keys <==> IsKey(c, k) { GatheredKeys(c, w, k); }
  }

  // ----- which key comes before which

  ghost predicate Precedes(s: seq<string>, x: string, y: string)
  {
    exists i, j :: 0 <= i < j < |s| && s[i] == x && s[j] == y
  }

  lemma PrecedesConcat(a: seq<string>, b: seq<string>, x: string, y: string)
    ensures Precedes(a + b, x, y) <==> Precedes(a, x, y) || Precedes(b, x, y) || (x in a && y in b)
  {
    var s := a + b;
    if Precedes(s, x, y) {
      var i, j :| 0 <= i < j < |s| && s[i] == x && s[j] == y;
      if i >= |a| { assert b[i - |a|] == x && b[j - |a|] == y; }
    }
    if Precedes(a, x, y) {
      var i, j :| 0 <= i < j < |a| && a[i] == x && a[j] == y;
      assert s[i] == x && s[j] == y;
    }
    if Precedes(b, x, y) {
      var i, j :| 0 <= i < j < |b| && b[i] == x && b[j] == y;
      assert s[i + |a|] == x && s[j + |a|] == y;
    }
    if x in a && y in b {
      var i :| 0 <= i < |a| && a[i] == x;
      var j :| 0 <= j < |b| && b[j] == y;
      assert s[i] == x && s[j + |a|] == y;
    }
  }

  lemma PrecedesCons(s: seq<string>, x: string, y: string)
    requires s != []
    ensures Precedes(s, x, y) <==> Precedes(s[1..], x, y) || (x == s[0] && y in s[1..])
  {
    assert s == [s[0]] + s[1..];
    PrecedesConcat([s[0]], s[1..], x, y);
  }

  lemma {:induction false} InsertPrecedes(key: string, keys: seq<string>, x: string, y: string)
    requires LongestFirst(keys)
    ensures Precedes(InsertByLength(key, keys), x, y) <==>
            || Precedes(keys, x, y)
            || (x == key && y in keys && |y| <= |key|)
            || (y == key && x in keys && |x| > |key|)
  {
    var r := InsertByLength(key, keys);
    PrecedesCons(r, x, y);
    if keys != [] && |key| < |keys[0]| {
      assert r[1..] == InsertByLength(key, keys[1..]);
      InsertPrecedes(key, keys[1..], x, y);
      PrecedesCons(keys, x, y);
    } else {
      assert r[1..] == keys;
    }
  }

  /** The sort is stable: longer keys first, and keys of equal length as they came. */
  lemma {:induction false} SortPrecedes(keys: seq<string>, x: string, y: string)
    ensures Precedes(SortByLength(keys), x, y) <==>
            x in keys && y in keys && (|x| > |y| || (|x| == |y| && Precedes(keys, x, y)))
  {
    if keys != [] {
      SortPrecedes(keys[1..], x, y);
      InsertPrecedes(keys[0], SortByLength(keys[1..]), x, y);
      PrecedesCons(keys, x, y);
    }
  }

  /** What is appended follows what was there, once. */
  lemma {:induction false} MissingPrecedes(keys: seq<string>, more: seq<string>, x: string, y: string)
    ensures Precedes(WithMissing(keys, more), x, y) ==>
            Precedes(keys, x, y) || (y !in keys && y in more && x != y)
    ensures Precedes(keys, x, y) || (x in keys && y !in keys && y in more) ==>
            Precedes(WithMissing(keys, more), x, y)
    decreases |more|
  {
    if more != [] {
      var next := if more[0] in keys then keys else keys + [more[0]];
      MissingPrecedes(next, more[1..], x, y);
      PrecedesConcat(keys, [more[0]], x, y);
    }
  }

  /** The first of the names appended, if it is new, comes before all others that are. */
  lemma FirstPrecedes(keys: seq<string>, more: seq<string>, y: string)
    requires more != [] && more[0] !in keys && y !in keys && y in more && y != more[0]
    ensures Precedes(WithMissing(keys, more), more[0], y)
  {
    MissingPrecedes(keys + [more[0]], more[1..], more[0], y);
  }

  lemma {:induction false} DottedByOnce(step: string, names: seq<string>, key: string)
    requires NoDuplicates(names)
    ensures !Precedes(DottedBy(step, names), key, key)
  {
    if names != [] {
      DottedByOnce(step, names[1..], key);
      PrecedesCons(DottedBy(step, names), key, key);
      DottedByKeys(step, names[1..], key);
      forall v | v in names[1..] ensures step + "." + v != step + "." + names[0] {
        assert (step + "." + v)[|step| + 1..] == v && (step + "." + names[0])[|step| + 1..] == names[0];
      }
    }
  }

  lemma {:induction false} DottedTwice(c: Ctx, steps: seq<string>, names: map<string, seq<string>>, key: string)
    requires PartOf(c, steps, names) && Precedes(AllDotted(steps, names), key, key)
    ensures SpelledTwice(c, key)
  {
    if steps != [] {
      PartRest(c, steps, names);
      var some, rest := DottedBy(steps[0], names[steps[0]]), AllDotted(steps[1..], names);
      PrecedesConcat(some, rest, key, key);
      DottedByOnce(steps[0], names[steps[0]], key);
      if Precedes(rest, key, key) {
        DottedTwice(c, steps[1..], names, key);
      } else {
        StepSpells(c, names, steps[0], key);
        AllDottedKeys(c, steps[1..], names, key);
      }
    }
  }

  /** One key before another of the same length is from no later source, and the
      same key again only if several steps spell it. */
  lemma GatheredPrecedes(c: Ctx, w: Walk, x: string, y: string)
    requires Walks(c, w) && Precedes(Gathered(c, w), x, y)
    ensures Rank(c, x) <= Rank(c, y) && (x == y ==> SpelledTwice(c, x))
  {
    GatheredKeys(c, w, x);
    GatheredKeys(c, w, y);
    var dotted := AllDotted(w.steps, w.names);
    MissingPrecedes(FromMaps(w), BuiltIns(c.Get("issue_number").Some?), x, y);
    MissingPrecedes(FromSteps(w), w.flat, x, y);
    MissingPrecedes(dotted, AllBare(w.steps, w.names), x, y);
    if Precedes(dotted, x, y) && x == y {
      assert PartOf(c, w.steps, w.names);
      DottedTwice(c, w.steps, w.names, x);
    }
  }

  /** Some order visits `k`, and `w` later: `w` is shorter, or as long and from no
      earlier source; and the same key again only if several steps spell it. */
  ghost predicate MayPrecede(c: Ctx, k: string, w: string)
  {
    && IsKey(c, k) && IsKey(c, w)
    && (|w| < |k| || (|w| == |k| && Rank(c, k) <= Rank(c, w) && (k == w ==> SpelledTwice(c, k))))
  }

  // ----- an order for every such pair

  ghost function SomeList(names: set<string>): (s: seq<string>)
    ensures Lists(s, names)
  {
    if names == {} then []
    else
      var x :| x in names;
      [x] + SomeList(names - {x})
  }

  ghost function FirstList(names: set<string>, x: string): (s: seq<string>)
    requires x in names
    ensures Lists(s, names) && s != [] && s[0] == x
  {
    [x] + SomeList(names - {x})
  }

  ghost function SomeNames(c: Ctx): map<string, seq<string>>
  {
    map s | s in c.namespaced :: SomeList(c.namespaced[s].Keys)
  }

  ghost function SomeWalk(c: Ctx): (w: Walk)
    ensures Walks(c, w)
  {
    Walk(SomeList(c.namespaced.Keys), SomeNames(c), SomeList(c.variables.Keys))
  }

  /** A walk that begins with this variable of this step. */
  ghost function StepWalk(c: Ctx, step: string, name: string): (w: Walk)
    requires step in c.namespaced && name in c.namespaced[step]
    ensures Walks(c, w) && w.steps != [] && w.steps[0] == step && w.names[step] != [] && w.names[step][0] == name
  {
    Walk(FirstList(c.namespaced.Keys, step), SomeNames(c)[step := FirstList(c.namespaced[step].Keys, name)],
         SomeList(c.variables.Keys))
  }

  ghost function FlatWalk(c: Ctx, name: string): (w: Walk)
    requires name in c.variables
    ensures Walks(c, w) && w.flat != [] && w.flat[0] == name
  {
    SomeWalk(c).(flat := FirstList(c.variables.Keys, name))
  }

  /** What is before it in one source stays before it. */
  lemma StaysBefore(c: Ctx, w: Walk, x: string, y: string)
    requires Walks(c, w)
    requires || Precedes(AllDotted(w.steps, w.names), x, y) || Precedes(FromSteps(w), x, y)
             || Precedes(FromMaps(w), x, y) || (Rank(c, x) < Rank(c, y) && IsKey(c, y))
    ensures Precedes(Gathered(c, w), x, y)
  {
    GatheredKeys(c, w, x);
    GatheredKeys(c, w, y);
    var dotted, bare, builtIns := AllDotted(w.steps, w.names), AllBare(w.steps, w.names),
                                  BuiltIns(c.Get("issue_number").Some?);
    MissingKeys(dotted, bare, y);
    MissingKeys(FromSteps(w), w.flat, y);
    MissingKeys(FromMaps(w), builtIns, y);
    MissingPrecedes(dotted, bare, x, y);
    MissingPrecedes(FromSteps(w), w.flat, x, y);
    MissingPrecedes(FromMaps(w), builtIns, x, y);
  }

  lemma DottedFirst(c: Ctx, k: string, y: string) returns (w: Walk)
    requires Rank(c, k) == 0 && Rank(c, y) == 0 && (k == y ==> SpelledTwice(c, k))
    ensures Walks(c, w) && Precedes(AllDotted(w.steps, w.names), k, y)
  {
    DottedSpells(c, k);
    var step :| Spells(c, step, k);
    SpellsIs(c, step, k);
    var name :| name in c.namespaced[step] && k == step + "." + name;
    w := StepWalk(c, step, name);
    assert PartOf(c, w.steps, w.names);
    PartRest(c, w.steps, w.names);
    var some, rest := DottedBy(step, w.names[step]), AllDotted(w.steps[1..], w.names);
    assert AllDotted(w.steps, w.names) == some + rest && some[0] == k;
    GatheredKeys(c, w, y);
    AllDottedKeys(c, w.steps[1..], w.names, y);
    PrecedesConcat(some, rest, k, y);
    PrecedesCons(some, k, y);
    if k == y {
      var t :| t != step && Spells(c, t, k);
      assert t in w.steps[1..];
    }
  }

  lemma BareFirst(c: Ctx, k: string, y: string) returns (w: Walk)
    requires Rank(c, k) == 1 && Rank(c, y) == 1 && k != y
    ensures Walks(c, w) && Precedes(FromSteps(w), k, y)
  {
    var step :| step in c.namespaced && k in c.namespaced[step];
    w := StepWalk(c, step, k);
    var dotted, bare := AllDotted(w.steps, w.names), AllBare(w.steps, w.names);
    GatheredKeys(c, w, k);
    GatheredKeys(c, w, y);
    MissingKeys(dotted, bare, y);
    assert bare[0] == k;
    FirstPrecedes(dotted, bare, y);
  }

  lemma FlatFirst(c: Ctx, k: string, y: string) returns (w: Walk)
    requires Rank(c, k) == 2 && Rank(c, y) == 2 && k != y
    ensures Walks(c, w) && Precedes(FromMaps(w), k, y)
  {
    w := FlatWalk(c, k);
    GatheredKeys(c, w, k);
    GatheredKeys(c, w, y);
    FirstPrecedes(FromSteps(w), w.flat, y);
  }

  lemma WalkWith(c: Ctx, k: string, y: string) returns (w: Walk)
    requires MayPrecede(c, k, y) && |k| == |y|
    ensures Walks(c, w) && Precedes(Gathered(c, w), k, y)
  {
    if Rank(c, k) < Rank(c, y) {
      w := SomeWalk(c);
    } else if Rank(c, k) == 0 {
      w := DottedFirst(c, k, y);
    } else {
      OnlyDottedTwice(c, k);
      if Rank(c, k) == 1 {
        w := BareFirst(c, k, y);
      } else if Rank(c, k) == 2 {
        w := FlatFirst(c, k, y);
      } else {
        assert false;  // no two of the built-in keys are of one length
      }
    }
    StaysBefore(c, w, k, y);
  }

  lemma OnlyDottedTwice(c: Ctx, k: string)
    ensures SpelledTwice(c, k) ==> Rank(c, k) == 0
  {
    DottedSpells(c, k);
  }

  /** The pairs `MayPrecede` names are just those that some order visits one before the other. */
  lemma PrecedesExactly(c: Ctx, k: string, w: string)
    ensures (exists keys :: KeyOrder(c, keys) && Precedes(keys, k, w)) <==> MayPrecede(c, k, w)
  {
    if keys :| KeyOrder(c, keys) && Precedes(keys, k, w) {
      var walk :| Walks(c, walk) && keys == SortByLength(Gathered(c, walk));
      SortPrecedes(Gathered(c, walk), k, w);
      GatheredKeys(c, walk, k);
      GatheredKeys(c, walk, w);
      if |k| == |w| { GatheredPrecedes(c, walk, k, w); }
    }
    if MayPrecede(c, k, w) {
      var walk := SomeWalk(c);
      if |k| == |w| { walk := WalkWith(c, k, w); }
      SortPrecedes(Gathered(c, walk), k, w);
      GatheredKeys(c, walk, k);
      GatheredKeys(c, walk, w);
      assert KeyOrder(c, SortByLength(Gathered(c, walk)));
    }
  }
}
