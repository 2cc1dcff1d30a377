/** When expanding configuration variables resolves every token, and when the
    verdict is the same in whatever order the variables come. */
module ConfigVerdicts {
  import opened Text
  import opened Sequences
  import opened Templates
  import opened ConfigTokens

  // ----- chains of references

  /** Names from the text on, each but the first in the value of the one before. */
  ghost predicate Chain(p: seq<string>, text: seq<Item>, vars: Values)
  {
    && p != [] && Group(p[0]) in text
    && forall i :: 0 <= i < |p| - 1 ==> p[i] in vars && Group(p[i + 1]) in Items(vars[p[i]])
  }

  function Last(p: seq<string>): string
    requires p != []
  {
    p[|p| - 1]
  }

  /** No chain that ends in a token name repeats a name, and each such token is defined. */
  ghost predicate Settled(text: seq<Item>, vars: Values)
  {
    forall p :: Chain(p, text, vars) && IsTokenName(Last(p)) ==> Last(p) in vars && NoDuplicates(p)
  }

  /** No chain at all repeats a name. */
  ghost predicate NoLoops(text: seq<Item>, vars: Values)
  {
    forall p :: Chain(p, text, vars) ==> NoDuplicates(p)
  }

  /** A token that is never defined is referred to. */
  ghost predicate Stray(text: seq<Item>, vars: Values)
  {
    exists p :: Chain(p, text, vars) && IsTokenName(Last(p)) && Last(p) !in vars
  }

  /** One chain runs through all variables. */
  ghost predicate FullChain(p: seq<string>, text: seq<Item>, vars: Values)
  {
    Chain(p, text, vars) && Last(p) in vars && |p| == |vars|
  }

  /** A chain of at least `d` names leads to `g`. */
  ghost predicate Reached(g: string, d: nat, text: seq<Item>, vars: Values)
  {
    exists p :: Chain(p, text, vars) && Last(p) == g && |p| >= d
  }

  lemma ChainOne(g: string, text: seq<Item>, vars: Values)
    requires Group(g) in text
    ensures Reached(g, 1, text, vars)
  {
    assert Chain([g], text, vars) && Last([g]) == g;
  }

  lemma ChainMore(p: seq<string>, g: string, text: seq<Item>, vars: Values)
    requires Chain(p, text, vars) && Last(p) in vars && Group(g) in Items(vars[Last(p)])
    ensures Chain(p + [g], text, vars) && Last(p + [g]) == g
  {
    var q := p + [g];
    forall i | 0 <= i < |q| - 1 ensures q[i] in vars && Group(q[i + 1]) in Items(vars[q[i]]) {
      if i < |p| - 1 { assert q[i] == p[i] && q[i + 1] == p[i + 1]; }
    }
  }

  lemma ReachedMore(k: string, g: string, d: nat, text: seq<Item>, vars: Values)
    requires Reached(k, d, text, vars) && k in vars && Group(g) in Items(vars[k])
    ensures Reached(g, d + 1, text, vars)
  {
    var p :| Chain(p, text, vars) && Last(p) == k && |p| >= d;
    ChainMore(p, g, text, vars);
  }

  /** A chain of defined names without repeats is no longer than there are variables. */
  lemma {:induction false} ChainFits(p: seq<string>, names: set<string>)
    requires NoDuplicates(p) && forall i :: 0 <= i < |p| ==> p[i] in names
    ensures |p| <= |names|
    ensures |p| == |names| ==> forall k :: k in names ==> k in p
    decreases |p|
  {
    if p != [] {
      var front, k := p[..|p| - 1], Last(p);
      forall i | 0 <= i < |front| ensures front[i] in names - {k} { assert front[i] == p[i] != k; }
      ChainFits(front, names - {k});
      assert k in names && p == front + [k];
      assert forall x :: x in names ==> x == k || x in names - {k};
    }
  }

  lemma DefinedChainFits(p: seq<string>, text: seq<Item>, vars: Values)
    requires Chain(p, text, vars) && Last(p) in vars && NoDuplicates(p)
    ensures |p| <= |vars| && (|p| == |vars| ==> forall k :: k in vars ==> k in p)
  {
    ChainFits(p, vars.Keys);
    assert |vars.Keys| == |vars|;
  }

  // ----- rounds on items

  lemma {:induction false} SpliceExact(items: seq<Item>, k: string, inner: seq<Item>, item: Item)
    ensures item in Splice(items, k, inner)
       <==> (item in items && item != Group(k)) || (Group(k) in items && item in inner)
  {
    if items != [] {
      SpliceExact(items[1..], k, inner, item);
      assert item in items <==> item == items[0] || item in items[1..];
      assert Group(k) in items <==> Group(k) == items[0] || Group(k) in items[1..];
    }
  }

  ghost predicate Defined(order: seq<string>, vars: Values) { forall k :: k in order ==> k in vars }

  /** The items after replacing the variables of `order` one after the other. */
  function After(items: seq<Item>, order: seq<string>, vars: Values): seq<Item>
    requires Defined(order, vars)
    decreases |order|
  {
    if order == [] then items else After(Splice(items, order[0], Items(vars[order[0]])), order[1..], vars)
  }

  lemma {:induction false} AfterSpells(items: seq<Item>, order: seq<string>, vars: Values)
    requires Grouped(vars) && Neat(items) && Defined(order, vars)
    ensures Neat(After(items, order, vars))
    ensures Sequential(Spell(items), order, vars) == Spell(After(items, order, vars))
    decreases |order|
  {
    if order != [] {
      RoundStep(items, order, vars);
      AfterSpells(Splice(items, order[0], Items(vars[order[0]])), order[1..], vars);
    }
  }

  lemma {:induction false} AfterTwo(items: seq<Item>, a: seq<string>, b: seq<string>, vars: Values)
    requires Defined(a, vars) && Defined(b, vars)
    ensures Defined(a + b, vars) && After(items, a + b, vars) == After(After(items, a, vars), b, vars)
    decreases |a|
  {
    if a == [] {
      assert a + b == b;
    } else {
      assert (a + b)[0] == a[0] && (a + b)[1..] == a[1..] + b;
      AfterTwo(Splice(items, a[0], Items(vars[a[0]])), a[1..], b, vars);
    }
  }

  function AfterRounds(items: seq<Item>, order: seq<string>, vars: Values, r: nat): seq<Item>
    requires Defined(order, vars)
  {
    if r == 0 then items else After(AfterRounds(items, order, vars, r - 1), order, vars)
  }

  lemma {:induction false} OneRoundFirst(items: seq<Item>, order: seq<string>, vars: Values, r: nat)
    requires Defined(order, vars)
    ensures AfterRounds(After(items, order, vars), order, vars, r) == AfterRounds(items, order, vars, r + 1)
  {
    if r > 0 { OneRoundFirst(items, order, vars, r - 1); }
  }

  /** From a round that changes nothing on, nothing changes. */
  lemma {:induction false} StaysStill(items: seq<Item>, order: seq<string>, vars: Values, r: nat, s: nat)
    requires Defined(order, vars) && r <= s
    requires AfterRounds(items, order, vars, r + 1) == AfterRounds(items, order, vars, r)
    ensures AfterRounds(items, order, vars, s) == AfterRounds(items, order, vars, r)
    decreases s
  {
    if r < s { StaysStill(items, order, vars, r, s - 1); }
  }

  /** Some round within the budget changes nothing. */
  ghost predicate Stalls(items: seq<Item>, order: seq<string>, vars: Values, passes: nat)
    requires Defined(order, vars)
  {
    exists r :: 0 <= r < passes && Still(items, order, vars, r)
  }

  ghost predicate Still(items: seq<Item>, order: seq<string>, vars: Values, r: nat)
    requires Defined(order, vars)
  {
    AfterRounds(items, order, vars, r + 1) == AfterRounds(items, order, vars, r)
  }

  /** The value is that of all rounds; it is refused exactly when every round
      changes the text and a token is left in the end. */
  lemma {:induction false} RoundsVerdict(items: seq<Item>, order: seq<string>, vars: Values, passes: nat)
    requires Grouped(vars) && Neat(items) && Defined(order, vars)
    ensures var r := Rounds(Spell(items), order, vars, passes);
      r.value == Spell(AfterRounds(items, order, vars, passes))
      && (r.Ok? <==> Stalls(items, order, vars, passes) || !HasUnresolved(r.value))
    decreases passes
  {
    if passes == 0 {
      RoundsEnd(Spell(items), order, vars);
    } else {
      var next := After(items, order, vars);
      AfterSpells(items, order, vars);
      RoundsNext(Spell(items), order, vars, passes);
      assert AfterRounds(items, order, vars, 0) == items && AfterRounds(items, order, vars, 1) == next;
      if Spell(next) == Spell(items) {
        NeatReadBack(items);
        NeatReadBack(next);
        assert Still(items, order, vars, 0);
        StaysStill(items, order, vars, 0, passes);
      } else {
        RoundsVerdict(next, order, vars, passes - 1);
        OneRoundFirst(items, order, vars, passes - 1);
        StallsLater(items, order, vars, passes);
      }
    }
  }

  lemma StallsLater(items: seq<Item>, order: seq<string>, vars: Values, passes: nat)
    requires Defined(order, vars) && passes > 0 && !Still(items, order, vars, 0)
    ensures Stalls(items, order, vars, passes) <==> Stalls(After(items, order, vars), order, vars, passes - 1)
  {
    var next := After(items, order, vars);
    forall r: nat ensures Still(next, order, vars, r) <==> Still(items, order, vars, r + 1) {
      OneRoundFirst(items, order, vars, r);
      OneRoundFirst(items, order, vars, r + 1);
    }
    if Stalls(items, order, vars, passes) {
      var r :| 0 <= r < passes && Still(items, order, vars, r);
      assert Still(next, order, vars, r - 1);
    }
    if Stalls(next, order, vars, passes - 1) {
      var r :| 0 <= r < passes - 1 && Still(next, order, vars, r);
      assert Still(items, order, vars, r + 1);
    }
  }

  // ----- every round leads one reference deeper

  /** Within a round: groups of variables already replaced lie one deeper. */
  ghost predicate Deepening(items: seq<Item>, later: seq<string>, text: seq<Item>, vars: Values, d: nat)
  {
    forall g :: Group(g) in items ==>
      Reached(g, 1, text, vars)
      && (g in vars ==> Reached(g, d + 1, text, vars) || (g in later && Reached(g, d, text, vars)))
  }

  lemma SpliceDeepens(items: seq<Item>, later: seq<string>, text: seq<Item>, vars: Values, d: nat)
    requires later != [] && later[0] in vars && Deepening(items, later, text, vars, d)
    ensures Deepening(Splice(items, later[0], Items(vars[later[0]])), later[1..], text, vars, d)
  {
    var k := later[0];
    var next := Splice(items, k, Items(vars[k]));
    forall g | Group(g) in next
      ensures Reached(g, 1, text, vars)
      ensures g in vars ==> Reached(g, d + 1, text, vars) || (g in later[1..] && Reached(g, d, text, vars))
    {
      SpliceExact(items, k, Items(vars[k]), Group(g));
      if Group(g) in items && g != k {
        assert g in later ==> g in later[1..];
      } else {
        assert Reached(k, d, text, vars);
        ReachedMore(k, g, d, text, vars);
        assert d + 1 >= 1;
      }
    }
  }

  lemma {:induction false} AfterDeepens(items: seq<Item>, later: seq<string>, text: seq<Item>, vars: Values, d: nat)
    requires Defined(later, vars) && Deepening(items, later, text, vars, d)
    ensures Deepening(After(items, later, vars), [], text, vars, d)
    decreases |later|
  {
    if later != [] {
      SpliceDeepens(items, later, text, vars, d);
      AfterDeepens(Splice(items, later[0], Items(vars[later[0]])), later[1..], text, vars, d);
    }
  }

  /** After `r` rounds every defined group left lies at the end of a chain of more than `r` names. */
  lemma {:induction false} RoundsDeepen(text: seq<Item>, order: seq<string>, vars: Values, r: nat)
    requires Enumerates(order, vars)
    ensures Deepening(AfterRounds(text, order, vars, r), [], text, vars, r)
  {
    if r == 0 {
      forall g | Group(g) in text ensures Reached(g, 1, text, vars) { ChainOne(g, text, vars); }
    } else {
      RoundsDeepen(text, order, vars, r - 1);
      var before := AfterRounds(text, order, vars, r - 1);
      assert Deepening(before, order, text, vars, r);
      AfterDeepens(before, order, text, vars, r);
    }
  }

  /** Without loops no defined group outlives as many rounds as there are variables. */
  lemma NoneDefinedLeft(text: seq<Item>, order: seq<string>, vars: Values, r: nat, g: string)
    requires Enumerates(order, vars) && NoLoops(text, vars) && Group(g) in AfterRounds(text, order, vars, r)
             && g in vars
    ensures r < |vars| && (r == |vars| - 1 ==> exists p :: FullChain(p, text, vars))
  {
    RoundsDeepen(text, order, vars, r);
    var p :| Chain(p, text, vars) && Last(p) == g && |p| >= r + 1;
    DefinedChainFits(p, text, vars);
    assert r == |vars| - 1 ==> FullChain(p, text, vars);
  }

  // ----- what cannot be got rid of

  /** Every defined name of `names` refers to one of them. */
  ghost predicate Feeds(names: set<string>, vars: Values)
  {
    forall e :: e in names && e in vars ==> Holds(names, Items(vars[e]))
  }

  ghost predicate Holds(names: set<string>, items: seq<Item>) { exists f :: f in names && Group(f) in items }

  lemma {:induction false} AfterHolds(items: seq<Item>, order: seq<string>, vars: Values, names: set<string>)
    requires Defined(order, vars) && Feeds(names, vars) && Holds(names, items)
    ensures Holds(names, After(items, order, vars))
    decreases |order|
  {
    if order != [] {
      var k := order[0];
      var next := Splice(items, k, Items(vars[k]));
      var f :| f in names && Group(f) in items;
      SpliceExact(items, k, Items(vars[k]), Group(f));
      if f == k {
        var h :| h in names && Group(h) in Items(vars[k]);
        SpliceExact(items, k, Items(vars[k]), Group(h));
      }
      AfterHolds(next, order[1..], vars, names);
    }
  }

  lemma {:induction false} RoundsHold(items: seq<Item>, order: seq<string>, vars: Values, names: set<string>, r: nat)
    requires Defined(order, vars) && Feeds(names, vars) && Holds(names, items)
    ensures Holds(names, AfterRounds(items, order, vars, r))
  {
    if r > 0 {
      RoundsHold(items, order, vars, names, r - 1);
      AfterHolds(AfterRounds(items, order, vars, r - 1), order, vars, names);
    }
  }

  /** A group whose variable is not replaced stays. */
  lemma {:induction false} AfterSpares(items: seq<Item>, order: seq<string>, vars: Values, t: string)
    requires Defined(order, vars) && Group(t) in items && t !in order
    ensures Group(t) in After(items, order, vars)
    decreases |order|
  {
    if order != [] {
      SpliceExact(items, order[0], Items(vars[order[0]]), Group(t));
      AfterSpares(Splice(items, order[0], Items(vars[order[0]])), order[1..], vars, t);
    }
  }

  function Names(p: seq<string>): set<string> { set k | k in p }

  /** The names of a chain, up to an undefined end or to a repeated name, feed each other. */
  lemma ChainFeeds(p: seq<string>, n: nat, text: seq<Item>, vars: Values)
    requires Chain(p, text, vars) && 0 < n <= |p|
    requires if n == |p| then Last(p) !in vars else p[n] in p[..n]
    ensures Feeds(Names(p[..n]), vars) && Holds(Names(p[..n]), text)
  {
    var names := Names(p[..n]);
    assert p[..n][0] == p[0];
    forall e | e in names && e in vars ensures Holds(names, Items(vars[e])) {
      var i :| 0 <= i < n && p[..n][i] == e;
      assert i < |p| - 1;
      assert p[i + 1] in p[..n] by {
        if i + 1 < n { assert p[..n][i + 1] == p[i + 1]; }
      }
    }
  }

  // ----- an order that leaves a token

  /** The names of a path in the order of their last occurrence, without `t`. */
  function LastFirst(q: seq<string>, t: string): seq<string>
  {
    if q == [] then [] else (if q[0] in q[1..] || q[0] == t then [] else [q[0]]) + LastFirst(q[1..], t)
  }

  lemma {:induction false} LastFirstNames(q: seq<string>, t: string)
    ensures NoDuplicates(LastFirst(q, t)) && forall k :: k in LastFirst(q, t) <==> k in q && k != t
  {
    if q != [] {
      LastFirstNames(q[1..], t);
      assert forall k :: k in q <==> k == q[0] || k in q[1..];
    }
  }

  /** The name at `i` of a path that ends in `t`. */
  function NameAt(q: seq<string>, t: string, i: nat): string { if i < |q| then q[i] else t }

  /** A path of references that ends in `t`. */
  ghost predicate Leads(q: seq<string>, t: string, vars: Values)
  {
    forall i :: 0 <= i < |q| ==> q[i] in vars && Group(NameAt(q, t, i + 1)) in Items(vars[q[i]])
  }

  /** Replacing along the path carries any of its names on to the end. */
  lemma {:induction false} PathCarries(items: seq<Item>, q: seq<string>, t: string, vars: Values, x: string)
    requires Leads(q, t, vars) && (x in q || x == t) && Group(x) in items
    ensures Defined(LastFirst(q, t), vars) && Group(t) in After(items, LastFirst(q, t), vars)
    decreases |q|
  {
    LastFirstNames(q, t);
    if q != [] {
      var h, more := q[0], q[1..];
      PathRest(q, t, vars);
      if h in more || h == t {
        PathCarries(items, more, t, vars, x);
        assert LastFirst(q, t) == LastFirst(more, t);
      } else {
        var y := if x == h then NameAt(more, t, 0) else x;
        SpliceExact(items, h, Items(vars[h]), Group(y));
        PathCarries(Splice(items, h, Items(vars[h])), more, t, vars, y);
        assert LastFirst(q, t)[0] == h && LastFirst(q, t)[1..] == LastFirst(more, t);
      }
    }
  }

  lemma PathRest(q: seq<string>, t: string, vars: Values)
    requires Leads(q, t, vars) && q != []
    ensures Leads(q[1..], t, vars) && q[0] in vars && Group(NameAt(q[1..], t, 0)) in Items(vars[q[0]])
    ensures forall k :: k in q <==> k == q[0] || k in q[1..]
  {
    forall i | 0 <= i < |q[1..]|
      ensures q[1..][i] in vars && Group(NameAt(q[1..], t, i + 1)) in Items(vars[q[1..][i]])
    {
      assert q[1..][i] == q[i + 1] && NameAt(q[1..], t, i + 1) == NameAt(q, t, i + 2);
    }
    assert NameAt(q[1..], t, 0) == NameAt(q, t, 1);
  }

  /** Any list of distinct variables can be completed to an order of all of them. */
  lemma {:induction false} Complete(some: seq<string>, left: set<string>, vars: Values) returns (rest: seq<string>)
    requires NoDuplicates(some) && left == vars.Keys - Names(some) && Defined(some, vars)
    ensures Enumerates(some + rest, vars) && forall k :: k in rest ==> k !in some
    decreases left
  {
    if left == {} {
      rest := [];
      assert some + rest == some;
      forall k | k in vars ensures k in some {
        assert k !in left;
        assert k in Names(some);
      }
      assert forall k :: k in some ==> k in vars;
      Distinct(some);
      assert Names(some) == vars.Keys && |vars.Keys| == |vars|;
    } else {
      var k :| k in left;
      assert k !in some by { assert k !in Names(some); }
      var more := Complete(some + [k], left - {k}, vars);
      rest := [k] + more;
      assert some + rest == some + [k] + more;
      assert forall x :: x in some ==> x in some + [k];
    }
  }

  lemma {:induction false} Distinct(p: seq<string>)
    requires NoDuplicates(p)
    ensures |Names(p)| == |p|
  {
    if p != [] {
      var front := p[..|p| - 1];
      Distinct(front);
      assert Names(p) == Names(front) + {Last(p)};
      assert Last(p) !in front;
    }
  }

  /** `t` first, then along the path to it: a round that starts with a name of the
      path which cannot be got rid of ends with `t`. */
  lemma RoundEndsIn(items: seq<Item>, p: seq<string>, rest: seq<string>, order: seq<string>, names: set<string>,
                    text: seq<Item>, vars: Values)
    requires Chain(p, text, vars) && Feeds(names, vars) && Holds(names, items) && names <= Names(p)
    requires order == First(Last(p), vars) + Along(p) + rest && Defined(order, vars) && Last(p) !in rest
    ensures Group(Last(p)) in After(items, order, vars)
  {
    var head, path, t := First(Last(p), vars), Along(p), Last(p);
    ChainLeads(p, text, vars);
    assert forall k :: k in head || k in path || k in rest ==> k in order;
    AfterHolds(items, head, vars, names);
    var one := After(items, head, vars);
    var x :| x in names && Group(x) in one;
    PathCarries(one, p[..|p| - 1], t, vars, x);
    AfterSpares(After(one, path, vars), rest, vars, t);
    AfterTwo(items, head, path, vars);
    AfterTwo(items, head + path, rest, vars);
  }

  /** The names of a chain before its end. */
  function Along(p: seq<string>): seq<string>
    requires p != []
  {
    LastFirst(p[..|p| - 1], Last(p))
  }

  function First(t: string, vars: Values): seq<string> { if t in vars then [t] else [] }

  lemma ChainLeads(p: seq<string>, text: seq<Item>, vars: Values)
    requires Chain(p, text, vars)
    ensures Leads(p[..|p| - 1], Last(p), vars) && forall k :: k in p ==> k in p[..|p| - 1] || k == Last(p)
  {
    assert p[..|p| - 1] + [Last(p)] == p;
    assert forall j :: 0 <= j < |p| ==> NameAt(p[..|p| - 1], Last(p), j) == p[j];
  }

  /** The part of such a chain whose names cannot be got rid of. */
  lemma ChainStuck(p: seq<string>, text: seq<Item>, vars: Values) returns (names: set<string>)
    requires Chain(p, text, vars) && (Last(p) !in vars || !NoDuplicates(p))
    ensures Feeds(names, vars) && Holds(names, text) && names <= Names(p)
  {
    var n: nat := |p|;
    if Last(p) in vars {
      var i, j :| 0 <= i < j < |p| && p[i] == p[j];
      n := j;
      assert p[..n][i] == p[n];
    }
    ChainFeeds(p, n, text, vars);
    names := Names(p[..n]);
  }

  /** The order: the end of the chain first, then along the chain, then the others. */
  lemma EndFirst(p: seq<string>, text: seq<Item>, vars: Values) returns (rest: seq<string>)
    requires Chain(p, text, vars)
    ensures Enumerates(First(Last(p), vars) + Along(p) + rest, vars) && Last(p) !in rest
  {
    var q, t := p[..|p| - 1], Last(p);
    ChainLeads(p, text, vars);
    LastFirstNames(q, t);
    var some := First(t, vars) + LastFirst(q, t);
    HeadApart(t, LastFirst(q, t), vars);
    rest := Complete(some, vars.Keys - Names(some), vars);
    assert t in vars ==> t in some;
    assert forall k :: k in rest ==> k in some + rest;
  }

  lemma HeadApart(t: string, others: seq<string>, vars: Values)
    requires NoDuplicates(others) && t !in others && Defined(others, vars)
    ensures NoDuplicates(First(t, vars) + others) && Defined(First(t, vars) + others, vars)
    ensures t in vars ==> t in First(t, vars) + others
  {
    var all := First(t, vars) + others;
    if t in vars {
      assert all[0] == t && forall i :: 0 < i < |all| ==> all[i] == others[i - 1];
    } else {
      assert all == others;
    }
  }

  /** A chain to a token that is undefined, or that repeats a name on the way:
      some order leaves that token in the text. */
  lemma TokenLeft(text: seq<Item>, vars: Values, p: seq<string>) returns (order: seq<string>)
    requires Grouped(vars) && Neat(text) && Chain(p, text, vars) && IsTokenName(Last(p))
    requires Last(p) !in vars || !NoDuplicates(p)
    ensures Enumerates(order, vars) && Group(Last(p)) in AfterRounds(text, order, vars, Budget(vars))
  {
    var names := ChainStuck(p, text, vars);
    var rest := EndFirst(p, text, vars);
    var n := Budget(vars);
    order := First(Last(p), vars) + Along(p) + rest;
    RoundsHold(text, order, vars, names, n - 1);
    RoundEndsIn(AfterRounds(text, order, vars, n - 1), p, rest, order, names, text, vars);
    LastRound(text, order, vars, n, Last(p));
  }

  lemma LastRound(text: seq<Item>, order: seq<string>, vars: Values, n: nat, t: string)
    requires Defined(order, vars) && n > 0 && Group(t) in After(AfterRounds(text, order, vars, n - 1), order, vars)
    ensures Group(t) in AfterRounds(text, order, vars, n)
  {}

  /** A token group left after the last round is found by the scanner. */
  lemma TokenSeen(text: seq<Item>, order: seq<string>, vars: Values, n: nat, t: string)
    requires Grouped(vars) && Neat(text) && Defined(order, vars) && IsTokenName(t)
    requires Group(t) in AfterRounds(text, order, vars, n)
    ensures HasUnresolved(Rounds(Spell(text), order, vars, n).value)
  {
    RoundsVerdict(text, order, vars, n);
    RoundsNeat(text, order, vars, n);
    ScannerOnNeat(AfterRounds(text, order, vars, n));
  }

  lemma {:induction false} RoundsNeat(items: seq<Item>, order: seq<string>, vars: Values, r: nat)
    requires Grouped(vars) && Neat(items) && Defined(order, vars)
    ensures Neat(AfterRounds(items, order, vars, r))
  {
    if r > 0 {
      RoundsNeat(items, order, vars, r - 1);
      AfterSpells(AfterRounds(items, order, vars, r - 1), order, vars);
    }
  }

  /** A settled text is resolved in every order. */
  lemma SettledResolves(text: seq<Item>, vars: Values, order: seq<string>)
    requires Grouped(vars) && Neat(text) && Enumerates(order, vars) && Settled(text, vars)
    ensures Resolves(Spell(text), order, vars)
  {
    var n := Budget(vars);
    var end := AfterRounds(text, order, vars, n);
    RoundsVerdict(text, order, vars, n);
    RoundsNeat(text, order, vars, n);
    RoundsDeepen(text, order, vars, n);
    forall g | Group(g) in end ensures !IsTokenName(g) {
      if IsTokenName(g) {
        var p :| Chain(p, text, vars) && Last(p) == g;
        assert g in vars;
        var q :| Chain(q, text, vars) && Last(q) == g && |q| >= n + 1;
        DefinedChainFits(q, text, vars);
        assert false;
      }
    }
    ScannerOnNeat(end);
  }

  /** The result is handed out and holds no token. */
  ghost predicate Resolves(raw: string, order: seq<string>, vars: Values)
  {
    var r := Rounds(raw, order, vars, Budget(vars));
    r.Ok? && !HasUnresolved(r.value)
  }

  /** Every order resolves every token exactly when no chain of references from
      the text to a token repeats a name or ends undefined. */
  lemma ResolvedExactly(text: seq<Item>, vars: Values)
    requires Grouped(vars) && Neat(text)
    ensures (forall order :: Enumerates(order, vars) ==> Resolves(Spell(text), order, vars)) <==> Settled(text, vars)
  {
    if Settled(text, vars) {
      forall order | Enumerates(order, vars) ensures Resolves(Spell(text), order, vars) {
        SettledResolves(text, vars, order);
      }
    } else {
      var p :| Chain(p, text, vars) && IsTokenName(Last(p)) && !(Last(p) in vars && NoDuplicates(p));
      var order := TokenLeft(text, vars, p);
      TokenSeen(text, order, vars, Budget(vars), Last(p));
      assert !Resolves(Spell(text), order, vars);
    }
  }

  /** If all variables have token names, the condition is that no chain repeats a
      name and no undefined token is referred to. */
  lemma SettledTokenNames(text: seq<Item>, vars: Values)
    requires forall k :: k in vars ==> IsTokenName(k)
    ensures Settled(text, vars) <==> NoLoops(text, vars) && !Stray(text, vars)
  {
    if Settled(text, vars) {
      forall p | Chain(p, text, vars) ensures NoDuplicates(p) {
        forall i, j | 0 <= i < j < |p| ensures p[i] != p[j] {
          var q := p[..j + 1];
          assert Chain(q, text, vars) && Last(q) == p[j];
          assert p[i] in vars && q[i] == p[i] && q[j] == p[j];
        }
      }
    }
  }

  /** Then it decides in each single order whether all tokens are resolved: a loop
      or an undefined token leaves one in whichever order the variables come. */
  lemma ResolvedInEachOrder(text: seq<Item>, vars: Values, order: seq<string>)
    requires Grouped(vars) && Neat(text) && Enumerates(order, vars) && forall k :: k in vars ==> IsTokenName(k)
    ensures Resolves(Spell(text), order, vars) <==> NoLoops(text, vars) && !Stray(text, vars)
  {
    SettledTokenNames(text, vars);
    if Settled(text, vars) {
      SettledResolves(text, vars, order);
    } else {
      var p :| Chain(p, text, vars) && IsTokenName(Last(p)) && !(Last(p) in vars && NoDuplicates(p));
      var names := ChainStuck(p, text, vars);
      RoundsHold(text, order, vars, names, Budget(vars));
      var g :| g in names && Group(g) in AfterRounds(text, order, vars, Budget(vars));
      var i :| 0 <= i < |p| && p[i] == g;
      assert i < |p| - 1 ==> p[i] in vars;
      TokenSeen(text, order, vars, Budget(vars), g);
    }
  }

  // ----- undefined tokens: the verdict in every order

  /** A text that refers to an undefined token is left with it, if there are no loops. */
  lemma StrayLeft(text: seq<Item>, vars: Values, order: seq<string>)
    requires Grouped(vars) && Neat(text) && Enumerates(order, vars) && NoLoops(text, vars) && Stray(text, vars)
    ensures HasUnresolved(Rounds(Spell(text), order, vars, Budget(vars)).value)
  {
    var n := Budget(vars);
    var p :| Chain(p, text, vars) && IsTokenName(Last(p)) && Last(p) !in vars;
    ChainFeeds(p, |p|, text, vars);
    RoundsHold(text, order, vars, Names(p[..|p|]), n);
    var end := AfterRounds(text, order, vars, n);
    var g :| g in Names(p[..|p|]) && Group(g) in end;
    if g in vars { NoneDefinedLeft(text, order, vars, n, g); }
    var i :| 0 <= i < |p| && p[i] == g;
    assert i == |p| - 1;
    TokenSeen(text, order, vars, n, g);
  }

  lemma {:induction false} NothingDefined(items: seq<Item>, order: seq<string>, vars: Values)
    requires Defined(order, vars) && forall g :: g in vars ==> Group(g) !in items
    ensures After(items, order, vars) == items
    decreases |order|
  {
    if order != [] {
      SpliceMembers(items, order[0], Items(vars[order[0]]));
      NothingDefined(items, order[1..], vars);
    }
  }

  /** Without a chain through all variables every order comes to a round that changes nothing. */
  lemma ShortChainsStall(text: seq<Item>, vars: Values, order: seq<string>)
    requires Enumerates(order, vars) && NoLoops(text, vars) && !exists p :: FullChain(p, text, vars)
    ensures Stalls(text, order, vars, Budget(vars))
  {
    var r := Budget(vars) - 1;
    forall g | g in vars ensures Group(g) !in AfterRounds(text, order, vars, r) {
      if Group(g) in AfterRounds(text, order, vars, r) { NoneDefinedLeft(text, order, vars, r, g); }
    }
    NothingDefined(AfterRounds(text, order, vars, r), order, vars);
    assert Still(text, order, vars, r);
  }

  function Reversed(p: seq<string>): (r: seq<string>)
    ensures forall k :: k in r <==> k in p
    ensures |r| == |p|
  {
    if p == [] then [] else Reversed(p[1..]) + [p[0]]
  }

  lemma {:induction false} ReversedTwo(a: seq<string>, b: seq<string>)
    ensures Reversed(a + b) == Reversed(b) + Reversed(a)
  {
    if a == [] {
      assert a + b == b;
    } else {
      assert (a + b)[1..] == a[1..] + b;
      ReversedTwo(a[1..], b);
    }
  }

  /** Against the chain a round goes just one name on. */
  lemma BackwardRound(items: seq<Item>, p: seq<string>, r: nat, text: seq<Item>, vars: Values)
    requires Chain(p, text, vars) && NoDuplicates(p) && Last(p) in vars && r + 1 < |p| && Group(p[r]) in items
    ensures Defined(Reversed(p), vars) && Group(p[r + 1]) in After(items, Reversed(p), vars)
  {
    ReversedAround(p, r);
    ChainDefined(p, text, vars);
    SlicesApart(p, r, vars);
    ReplaceOne(items, Reversed(p[r + 1..]), p[r], p[r + 1], Reversed(p[..r]), vars);
  }

  lemma SlicesApart(p: seq<string>, r: nat, vars: Values)
    requires NoDuplicates(p) && r + 1 < |p| && Defined(p, vars)
    ensures p[r] !in p[r + 1..] && p[r + 1] !in p[..r]
    ensures Defined(Reversed(p[r + 1..]), vars) && Defined(Reversed(p[..r]), vars)
  {
    assert forall x :: x in p[r + 1..] ==> x in p;
    assert forall x :: x in p[..r] ==> x in p;
  }

  lemma ChainDefined(p: seq<string>, text: seq<Item>, vars: Values)
    requires Chain(p, text, vars) && Last(p) in vars
    ensures Defined(p, vars)
  {
    forall k | k in p ensures k in vars {
      var i :| 0 <= i < |p| && p[i] == k;
    }
  }

  lemma ReversedAround(p: seq<string>, r: nat)
    requires r < |p|
    ensures Reversed(p) == Reversed(p[r + 1..]) + [p[r]] + Reversed(p[..r])
  {
    var tail := p[r..];
    assert p == p[..r] + tail && tail[1..] == p[r + 1..] && tail[0] == p[r];
    ReversedTwo(p[..r], tail);
    assert Reversed(tail) == Reversed(tail[1..]) + [tail[0]];
  }

  /** A variable whose turn comes between others gives way to the names in its value. */
  lemma ReplaceOne(items: seq<Item>, before: seq<string>, k: string, g: string, after: seq<string>, vars: Values)
    requires Defined(before, vars) && k in vars && Defined(after, vars) && k !in before && g !in after
    requires Group(k) in items && Group(g) in Items(vars[k])
    ensures Defined(before + [k] + after, vars) && Group(g) in After(items, before + [k] + after, vars)
  {
    AfterSpares(items, before, vars, k);
    var one := After(items, before, vars);
    SpliceExact(one, k, Items(vars[k]), Group(g));
    assert [k][1..] == [];
    AfterTwo(items, before, [k], vars);
    AfterSpares(Splice(one, k, Items(vars[k])), after, vars, g);
    AfterTwo(items, before + [k], after, vars);
  }

  lemma {:induction false} BackwardRounds(text: seq<Item>, p: seq<string>, vars: Values, r: nat)
    requires Chain(p, text, vars) && NoDuplicates(p) && Last(p) in vars && r < |p|
    ensures Defined(Reversed(p), vars) && Group(p[r]) in AfterRounds(text, Reversed(p), vars, r)
  {
    assert forall k :: k in p ==> k in vars;
    if r > 0 {
      BackwardRounds(text, p, vars, r - 1);
      BackwardRound(AfterRounds(text, Reversed(p), vars, r - 1), p, r - 1, text, vars);
    }
  }

  /** The reverse of a chain through all variables changes the text in every round. */
  lemma BackwardNeverStalls(text: seq<Item>, p: seq<string>, vars: Values)
    requires FullChain(p, text, vars) && NoLoops(text, vars)
    ensures Enumerates(Reversed(p), vars) && !Stalls(text, Reversed(p), vars, Budget(vars))
  {
    DefinedChainFits(p, text, vars);
    assert forall k :: k in p ==> k in vars;
    var order := Reversed(p);
    forall r | 0 <= r < |p| && Still(text, order, vars, r) ensures false {
      BackwardRounds(text, p, vars, r);
      StaysStill(text, order, vars, r, |p|);
      NoneDefinedLeft(text, order, vars, |p|, p[r]);
    }
  }

  /** Along the chain one round replaces all defined groups. */
  lemma {:induction false} ForwardRound(items: seq<Item>, p: seq<string>, n: nat, text: seq<Item>, vars: Values)
    requires Chain(p, text, vars) && Last(p) in vars && NoLoops(text, vars) && n <= |p|
    ensures Defined(p[..n], vars) && forall y :: 0 <= y < n ==> Group(p[y]) !in After(items, p[..n], vars)
  {
    assert forall k :: k in p ==> k in vars;
    if n > 0 {
      var k, front := p[n - 1], p[..n - 1];
      ForwardRound(items, p, n - 1, text, vars);
      var before := After(items, front, vars);
      assert p[..n] == front + [k] && [k][1..] == [];
      AfterTwo(items, front, [k], vars);
      forall y | 0 <= y < n ensures Group(p[y]) !in Splice(before, k, Items(vars[k])) {
        SpliceExact(before, k, Items(vars[k]), Group(p[y]));
        NoReference(p, n - 1, y, text, vars);
        assert y == n - 1 || Group(p[y]) !in before;
      }
    }
  }

  /** Without loops no name of a chain refers back to an earlier one, or to itself. */
  lemma NoReference(p: seq<string>, i: nat, y: nat, text: seq<Item>, vars: Values)
    requires Chain(p, text, vars) && Last(p) in vars && NoLoops(text, vars) && y <= i < |p|
    ensures Group(p[y]) !in Items(vars[p[i]])
  {
    if Group(p[y]) in Items(vars[p[i]]) {
      var q := p[..i + 1];
      var c := q + [p[y]];
      assert c[y] == p[y] == c[i + 1];
      ChainPrefix(p, i + 1, text, vars);
      ChainMore(q, p[y], text, vars);
      assert false;
    }
  }

  lemma ChainPrefix(p: seq<string>, n: nat, text: seq<Item>, vars: Values)
    requires Chain(p, text, vars) && 0 < n <= |p|
    ensures Chain(p[..n], text, vars) && Last(p[..n]) == p[n - 1]
  {}

  lemma ForwardStalls(text: seq<Item>, p: seq<string>, vars: Values)
    requires FullChain(p, text, vars) && NoLoops(text, vars) && |vars| > 1
    ensures Enumerates(p, vars) && Stalls(text, p, vars, Budget(vars))
  {
    DefinedChainFits(p, text, vars);
    assert forall k :: k in p ==> k in vars;
    ForwardRound(text, p, |p|, text, vars);
    assert p[..|p|] == p;
    var one := AfterRounds(text, p, vars, 1);
    assert one == After(AfterRounds(text, p, vars, 0), p, vars);
    forall g | g in vars ensures Group(g) !in one {
      var y :| 0 <= y < |p| && p[y] == g;
    }
    NothingDefined(one, p, vars);
    assert Still(text, p, vars, 1);
  }

  ghost predicate Accepted(raw: string, order: seq<string>, vars: Values)
  {
    Rounds(raw, order, vars, Budget(vars)).Ok?
  }

  /** Without loops, every order is accepted exactly when no undefined token is
      referred to, or no chain runs through all variables. */
  lemma AcceptedInEveryOrder(text: seq<Item>, vars: Values)
    requires Grouped(vars) && Neat(text) && NoLoops(text, vars)
    ensures (forall order :: Enumerates(order, vars) ==> Accepted(Spell(text), order, vars))
       <==> !Stray(text, vars) || !exists p :: FullChain(p, text, vars)
  {
    if Stray(text, vars) && exists p :: FullChain(p, text, vars) {
      var p :| FullChain(p, text, vars);
      BackwardNeverStalls(text, p, vars);
      StrayLeft(text, vars, Reversed(p));
      RoundsVerdict(text, Reversed(p), vars, Budget(vars));
      assert !Accepted(Spell(text), Reversed(p), vars);
    } else {
      forall order | Enumerates(order, vars) ensures Accepted(Spell(text), order, vars) {
        if !Stray(text, vars) {
          assert Settled(text, vars);
          SettledResolves(text, vars, order);
        } else {
          ShortChainsStall(text, vars, order);
          RoundsVerdict(text, order, vars, Budget(vars));
        }
      }
    }
  }

  /** With more than one variable, a chain through all of them and an undefined
      token, one order is accepted and its reverse is not. */
  lemma OrdersDiffer(text: seq<Item>, vars: Values, p: seq<string>)
    requires Grouped(vars) && Neat(text) && NoLoops(text, vars)
    requires Stray(text, vars) && FullChain(p, text, vars) && |vars| > 1
    ensures Enumerates(p, vars) && Accepted(Spell(text), p, vars)
    ensures Enumerates(Reversed(p), vars) && !Accepted(Spell(text), Reversed(p), vars)
  {
    BackwardNeverStalls(text, p, vars);
    StrayLeft(text, vars, Reversed(p));
    RoundsVerdict(text, Reversed(p), vars, Budget(vars));
    ForwardStalls(text, p, vars);
    RoundsVerdict(text, p, vars, Budget(vars));
  }

  lemma OneOrder(a: seq<string>, b: seq<string>, vars: Values)
    requires Enumerates(a, vars) && Enumerates(b, vars) && |vars| == 1
    ensures a == b
  {
    assert a[0] in a && b[0] in b && |vars.Keys| == |vars|;
    OneElement(vars.Keys, a[0], b[0]);
  }

  ghost predicate SameVerdict(raw: string, a: seq<string>, b: seq<string>, vars: Values)
  {
    Accepted(raw, a, vars) <==> Accepted(raw, b, vars)
  }

  /** Without loops, the verdict is the same in all orders exactly when no
      undefined token is referred to, or no chain runs through all variables,
      or there is just one variable. */
  lemma VerdictSameInAllOrders(text: seq<Item>, vars: Values)
    requires Grouped(vars) && Neat(text) && NoLoops(text, vars)
    ensures (forall a, b :: Enumerates(a, vars) && Enumerates(b, vars) ==> SameVerdict(Spell(text), a, b, vars))
       <==> !Stray(text, vars) || |vars| == 1 || !exists p :: FullChain(p, text, vars)
  {
    AcceptedInEveryOrder(text, vars);
    if Stray(text, vars) && exists p :: FullChain(p, text, vars) {
      var p :| FullChain(p, text, vars);
      if |vars| == 1 {
        forall a, b | Enumerates(a, vars) && Enumerates(b, vars) ensures a == b { OneOrder(a, b, vars); }
      } else {
        OrdersDiffer(text, vars, p);
        assert !SameVerdict(Spell(text), p, Reversed(p), vars);
      }
    }
  }

  lemma OneElement(s: set<string>, x: string, y: string)
    requires |s| == 1 && x in s && y in s
    ensures x == y
  {
    var rest := s - {x};
    assert |rest| == 0 && y !in rest;
  }
}
