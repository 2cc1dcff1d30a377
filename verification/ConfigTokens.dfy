/** Expanding configuration variables by repeated replacement, against the
    full recursive expansion. */
module ConfigTokens {
  import opened Text
  import opened Templates

  datatype Outcome = Ok(value: string) | Unresolved(value: string)

  predicate IsTokenChar(c: char)
  {
    'a' <= c <= 'z' || 'A' <= c <= 'Z' || '0' <= c <= '9' || c == '_' || c == '.'
  }

  predicate IsTokenName(token: string) { token != "" && forall c :: c in token ==> IsTokenChar(c) }

  /** Reading left to right, some opening brace and the next closing brace enclose a token name. */
  predicate HasUnresolved(s: string)
  {
    if s == "" then false
    else if s[0] != '{' then HasUnresolved(s[1..])
    else match IndexOf(s[1..], '}')
         case None => HasUnresolved(s[1..])
         case Some(close) => IsTokenName(s[1..close + 1]) || HasUnresolved(s[close + 2..])
  }

  /** What the scan does at a position: whether a token is found there, and where it goes on. */
  function Scan(value: string, index: nat): (bool, nat)
    requires index < |value|
  {
    if value[index] != '{' then (false, index + 1)
    else match IndexOf(value[index + 1..], '}')
         case None => (false, index + 1)
         case Some(close) => (IsTokenName(value[index + 1..index + 1 + close]), index + close + 2)
  }

  lemma ScanStep(value: string, index: nat)
    requires index < |value|
    ensures index < Scan(value, index).1 <= |value|
    ensures HasUnresolved(value[index..]) == (Scan(value, index).0 || HasUnresolved(value[Scan(value, index).1..]))
  {
    var rest := value[index..];
    assert rest[1..] == value[index + 1..];
    var close := IndexOf(value[index + 1..], '}');
    if close.Some? {
      assert rest[1..close.value + 1] == value[index + 1..index + 1 + close.value];
      assert rest[close.value + 2..] == value[index + close.value + 2..];
    }
  }

  /** One round of the scan. */
  method ScanOne(value: string, index: nat) returns (found: bool, next: nat)
    requires index < |value|
    ensures (found, next) == Scan(value, index)
  {
    if value[index] != '{' {
      return false, index + 1;
    }
    var close := IndexOf(value[index + 1..], '}');
    if close.None? {
      return false, index + 1;
    }
    return IsTokenName(value[index + 1..index + 1 + close.value]), index + close.value + 2;
  }

  method HasUnresolvedConfigToken(value: string) returns (b: bool)
    ensures b == HasUnresolved(value)
  {
    var index := 0;
    ghost var goal := HasUnresolved(value);
    assert value[0..] == value;
    while index < |value|
      invariant 0 <= index <= |value|
      invariant goal == HasUnresolved(value[index..])
      decreases |value| - index
    {
      ScanStep(value, index);
      var found, next := ScanOne(value, index);
      if found {
        return true;
      }
      index := next;
    }
    return false;
  }

  /** An order in which the variable map is iterated. */
  ghost predicate Enumerates(order: seq<string>, vars: Values)
  {
    (forall k :: k in order <==> k in vars) && |order| == |vars|
  }

  /** At most `passes` rounds over all variables, stopping early once a round changes nothing. */
  function Rounds(value: string, order: seq<string>, vars: Values, passes: nat): Outcome
    decreases passes
  {
    if passes == 0 then
      if HasUnresolved(value) then Unresolved(value) else Ok(value)
    else
      var next := Sequential(value, order, vars);
      if next == value then Ok(value) else Rounds(next, order, vars, passes - 1)
  }

  function Budget(vars: Values): nat { if |vars| > 1 then |vars| else 1 }

  method InterpolateConfigVariables(raw: string, vars: Values, order: seq<string>) returns (r: Outcome)
    requires Enumerates(order, vars)
    ensures r == Rounds(raw, order, vars, Budget(vars))
  {
    var value := raw;
    ghost var goal := Rounds(raw, order, vars, Budget(vars));
    for left := Budget(vars) downto 0
      invariant goal == Rounds(value, order, vars, left)
    {
      var previous := value;
      RoundsNext(previous, order, vars, left + 1);
      value := ReplaceEach(previous, order, vars);
      if value == previous {
        return Ok(value);
      }
    }
    RoundsEnd(value, order, vars);
    var unresolved := HasUnresolvedConfigToken(value);
    return if unresolved then Unresolved(value) else Ok(value);
  }

  lemma RoundsEnd(value: string, order: seq<string>, vars: Values)
    ensures Rounds(value, order, vars, 0) == if HasUnresolved(value) then Unresolved(value) else Ok(value)
  {}

  lemma RoundsNext(value: string, order: seq<string>, vars: Values, passes: nat)
    requires passes > 0
    ensures var next := Sequential(value, order, vars);
      Rounds(value, order, vars, passes) == if next == value then Ok(value) else Rounds(next, order, vars, passes - 1)
  {}

  /** One pass over all variables, each replacing in what the ones before left. */
  method ReplaceEach(text: string, order: seq<string>, vars: Values) returns (value: string)
    requires forall k :: k in order ==> k in vars
    ensures value == Sequential(text, order, vars)
  {
    value := text;
    assert order[0..] == order;
    for i := 0 to |order|
      invariant Sequential(value, order[i..], vars) == Sequential(text, order, vars)
    {
      assert order[i..][1..] == order[i + 1..];
      value := Replace(value, Token(order[i]), vars[order[i]]);
    }
  }

  // ----- the full expansion

  /** Braces occur only around names. */
  predicate Neat(items: seq<Item>)
  {
    forall item :: item in items ==>
      match item case Lit(c) => c != '{' && c != '}' case Group(name) => BraceFree(name)
  }

  /** Raw text and values hold no nested or stray braces. */
  predicate Grouped(vars: Values)
  {
    forall k :: k in vars ==> BraceFree(k) && Neat(Items(vars[k]))
  }

  /** A rank that falls from every variable to the variables in its value. */
  ghost predicate Acyclic(vars: Values, rank: map<string, nat>)
  {
    && (forall k :: k in vars ==> k in rank)
    && forall k, g :: k in vars && g in vars && Group(g) in Items(vars[k]) ==> rank[g] < rank[k]
  }

  ghost predicate Below(items: seq<Item>, vars: Values, rank: map<string, nat>, bound: nat)
    requires Acyclic(vars, rank)
  {
    forall g :: g in vars && Group(g) in items ==> rank[g] < bound
  }

  /** Every defined group is expanded, and so are the groups in its value. */
  ghost function Expand(items: seq<Item>, vars: Values, rank: map<string, nat>, bound: nat): string
    requires Acyclic(vars, rank) && Below(items, vars, rank, bound)
    decreases bound, |items|
  {
    if items == [] then ""
    else
      var first := items[0];
      assert first in items && forall item :: item in items[1..] ==> item in items;
      (if first.Group? && first.name in vars
       then Expand(Items(vars[first.name]), vars, rank, rank[first.name])
       else Shown(first, map[])) + Expand(items[1..], vars, rank, bound)
  }

  lemma {:induction false} ExpandConcat(a: seq<Item>, b: seq<Item>, vars: Values, rank: map<string, nat>, bound: nat)
    requires Acyclic(vars, rank) && Below(a + b, vars, rank, bound)
    ensures Below(a, vars, rank, bound) && Below(b, vars, rank, bound)
    ensures Expand(a + b, vars, rank, bound) == Expand(a, vars, rank, bound) + Expand(b, vars, rank, bound)
    decreases |a|
  {
    assert forall item :: item in a || item in b ==> item in a + b;
    if a == [] {
      assert a + b == b;
    } else {
      var s, rest := a + b, a[1..] + b;
      assert s[1..] == rest && s[0] == a[0];
      assert forall item :: item in rest ==> item in s;
      ExpandConcat(a[1..], b, vars, rank, bound);
      ExpandCons(s, vars, rank, bound);
      ExpandCons(a, vars, rank, bound);
      Regroup(ExpandOne(a[0], vars, rank), Expand(a[1..], vars, rank, bound), Expand(b, vars, rank, bound));
    }
  }

  lemma Regroup(x: string, y: string, z: string)
    ensures x + (y + z) == x + y + z
  {}

  ghost function ExpandOne(item: Item, vars: Values, rank: map<string, nat>): string
    requires Acyclic(vars, rank)
  {
    if item.Group? && item.name in vars
    then Expand(Items(vars[item.name]), vars, rank, rank[item.name])
    else Shown(item, map[])
  }

  lemma ExpandCons(items: seq<Item>, vars: Values, rank: map<string, nat>, bound: nat)
    requires Acyclic(vars, rank) && Below(items, vars, rank, bound) && items != []
    ensures Below(items[1..], vars, rank, bound)
    ensures Expand(items, vars, rank, bound) == ExpandOne(items[0], vars, rank) + Expand(items[1..], vars, rank, bound)
  {
    assert forall item :: item in items[1..] ==> item in items;
  }

  lemma {:induction false} ExpandBound(items: seq<Item>, vars: Values, rank: map<string, nat>, b0: nat, b1: nat)
    requires Acyclic(vars, rank) && Below(items, vars, rank, b0) && Below(items, vars, rank, b1)
    ensures Expand(items, vars, rank, b0) == Expand(items, vars, rank, b1)
    decreases |items|
  {
    if items != [] {
      assert forall item :: item in items[1..] ==> item in items;
      ExpandBound(items[1..], vars, rank, b0, b1);
    }
  }

  /** All groups named `k` replaced by the items of a value. */
  function Splice(items: seq<Item>, k: string, inner: seq<Item>): seq<Item>
  {
    if items == [] then []
    else (if items[0] == Group(k) then inner else [items[0]]) + Splice(items[1..], k, inner)
  }

  lemma {:induction false} SpliceMembers(items: seq<Item>, k: string, inner: seq<Item>)
    ensures forall item :: item in Splice(items, k, inner) ==> (item in items && item != Group(k)) || item in inner
    ensures Group(k) !in items ==> Splice(items, k, inner) == items
  {
    if items != [] { SpliceMembers(items[1..], k, inner); }
  }

  lemma {:induction false} FillConcat(a: seq<Item>, b: seq<Item>, m: Values)
    ensures Fill(a + b, m) == Fill(a, m) + Fill(b, m)
    decreases |a|
  {
    if a == [] {
      assert a + b == b;
    } else {
      var s := a + b;
      assert s[1..] == a[1..] + b && s[0] == a[0];
      FillConcat(a[1..], b, m);
      Regroup(Shown(a[0], m), Fill(a[1..], m), Fill(b, m));
    }
  }

  function Spell(items: seq<Item>): string { Fill(items, map[]) }

  /** Replacing a token in neat text splices the value in. */
  lemma {:induction false} ReplaceSplices(items: seq<Item>, k: string, inner: seq<Item>)
    requires Neat(items) && BraceFree(k)
    ensures Replace(Spell(items), Token(k), Spell(inner)) == Spell(Splice(items, k, inner))
  {
    if items != [] {
      var item, rest, v := items[0], Spell(items[1..]), Spell(inner);
      assert item in items && forall x :: x in items[1..] ==> x in items;
      ReplaceSplices(items[1..], k, inner);
      match item {
        case Lit(c) => ReplaceSkips([c], rest, k, v);
        case Group(g) =>
          if g == k {
            ReplaceHit(rest, k, v);
            FillConcat(inner, Splice(items[1..], k, inner), map[]);
          } else {
            ReplaceMiss(g, rest, k, v);
          }
      }
      if item != Group(k) {
        assert Splice(items, k, inner) == [item] + Splice(items[1..], k, inner);
      }
    }
  }

  lemma GroupReadBack(g: string, rest: string)
    requires BraceFree(g)
    ensures Items(Token(g) + rest) == [Group(g)] + Items(rest)
  {
    var t := Token(g) + rest;
    assert t[0] == '{' && t[1..] == g + "}" + rest;
    NameThen(g, rest);
    assert t[1..|g| + 1] == g && t[|g| + 2..] == rest;
  }

  /** Neat text is read back as it was spelled. */
  lemma {:induction false} NeatReadBack(items: seq<Item>)
    requires Neat(items)
    ensures Items(Spell(items)) == items
  {
    if items != [] {
      var item, rest := items[0], Spell(items[1..]);
      assert item in items && forall x :: x in items[1..] ==> x in items;
      NeatReadBack(items[1..]);
      match item {
        case Lit(c) => assert ([c] + rest)[1..] == rest;
        case Group(g) => GroupReadBack(g, rest);
      }
    }
  }

  /** Every replacement keeps the full expansion. */
  lemma {:induction false} SpliceKeepsExpansion(items: seq<Item>, k: string, vars: Values, rank: map<string, nat>,
                                                bound: nat)
    requires Acyclic(vars, rank) && Below(items, vars, rank, bound) && k in vars
    ensures Below(Splice(items, k, Items(vars[k])), vars, rank, bound)
    ensures Expand(Splice(items, k, Items(vars[k])), vars, rank, bound) == Expand(items, vars, rank, bound)
    decreases |items|
  {
    var inner := Items(vars[k]);
    SpliceMembers(items, k, inner);
    if items != [] {
      assert items[0] in items && forall x :: x in items[1..] ==> x in items;
      var rest := Splice(items[1..], k, inner);
      SpliceKeepsExpansion(items[1..], k, vars, rank, bound);
      if items[0] == Group(k) {
        assert Below(inner, vars, rank, bound);
        ExpandConcat(inner, rest, vars, rank, bound);
        ExpandBound(inner, vars, rank, bound, rank[k]);
      } else {
        var s := Splice(items, k, inner);
        assert s == [items[0]] + rest && s[1..] == rest;
      }
    }
  }

  /** After the variables in `order[..n]`, groups of the top rank are left only for later variables. */
  ghost predicate TopLeft(items: seq<Item>, vars: Values, rank: map<string, nat>, top: nat, later: seq<string>)
    requires Acyclic(vars, rank)
  {
    forall g :: g in vars && Group(g) in items ==> rank[g] < top || (rank[g] == top && g in later)
  }

  /** Replacing the first of the variables leaves the top rank to the rest of them. */
  lemma SpliceTop(items: seq<Item>, later: seq<string>, vars: Values, rank: map<string, nat>, top: nat)
    requires Acyclic(vars, rank) && later != [] && later[0] in vars && TopLeft(items, vars, rank, top, later)
    ensures TopLeft(Splice(items, later[0], Items(vars[later[0]])), vars, rank, top, later[1..])
  {
    var k := later[0];
    var next := Splice(items, k, Items(vars[k]));
    SpliceMembers(items, k, Items(vars[k]));
    forall g | g in vars && Group(g) in next ensures rank[g] < top || (rank[g] == top && g in later[1..]) {
      if Group(g) in items && g != k {
        assert g in later ==> g in later[1..];
      } else {
        InnerRank(items, k, g, vars, rank, top, next, later);
      }
    }
  }

  /** One round: the text stays neat, keeps its expansion, and loses its top rank. */
  lemma {:induction false} RoundDrops(items: seq<Item>, later: seq<string>, vars: Values, rank: map<string, nat>,
                                      top: nat)
    returns (result: seq<Item>)
    requires Grouped(vars) && Acyclic(vars, rank) && Neat(items)
    requires forall k :: k in later ==> k in vars
    requires TopLeft(items, vars, rank, top, later)
    ensures Neat(result) && Sequential(Spell(items), later, vars) == Spell(result)
    ensures Below(result, vars, rank, top) && Below(items, vars, rank, top + 1) && Below(result, vars, rank, top + 1)
    ensures Expand(result, vars, rank, top + 1) == Expand(items, vars, rank, top + 1)
    decreases |later|
  {
    if later == [] {
      result := items;
    } else {
      var next := Splice(items, later[0], Items(vars[later[0]]));
      RoundStep(items, later, vars);
      SpliceTop(items, later, vars, rank, top);
      result := RoundDrops(next, later[1..], vars, rank, top);
      SpliceKeepsExpansion(items, later[0], vars, rank, top + 1);
    }
  }

  /** Replacing the first of the variables in neat text. */
  lemma RoundStep(items: seq<Item>, later: seq<string>, vars: Values)
    requires Grouped(vars) && Neat(items) && later != [] && forall k :: k in later ==> k in vars
    ensures var next := Splice(items, later[0], Items(vars[later[0]]));
      Neat(next) && Sequential(Spell(items), later, vars) == Sequential(Spell(next), later[1..], vars)
  {
    var k := later[0];
    SpliceMembers(items, k, Items(vars[k]));
    ReplaceSplices(items, k, Items(vars[k]));
    ReadBack(vars[k]);
  }

  lemma InnerRank(items: seq<Item>, k: string, g: string, vars: Values, rank: map<string, nat>, top: nat,
                  next: seq<Item>, later: seq<string>)
    requires Acyclic(vars, rank) && k in vars && g in vars && Group(g) in Items(vars[k])
    requires TopLeft(items, vars, rank, top, later) && next == Splice(items, k, Items(vars[k])) && Group(g) in next
    requires Group(g) !in items || g == k
    ensures rank[g] < top
  {
    SpliceMembers(items, k, Items(vars[k]));
  }

  /** A round that changes nothing leaves no defined group. */
  lemma {:induction false} FixpointIsDone(items: seq<Item>, order: seq<string>, vars: Values, rank: map<string, nat>,
                                          bound: nat)
    requires Grouped(vars) && Acyclic(vars, rank) && Enumerates(order, vars) && Neat(items)
    requires Below(items, vars, rank, bound) && Sequential(Spell(items), order, vars) == Spell(items)
    ensures Below(items, vars, rank, 0)
    decreases bound
  {
    if bound > 0 {
      var result := RoundDrops(items, order, vars, rank, bound - 1);
      NeatReadBack(items);
      NeatReadBack(result);
      FixpointIsDone(items, order, vars, rank, bound - 1);
    }
  }

  lemma {:induction false} NothingLeft(items: seq<Item>, vars: Values, rank: map<string, nat>, bound: nat)
    requires Acyclic(vars, rank) && Below(items, vars, rank, 0) && Below(items, vars, rank, bound)
    ensures Expand(items, vars, rank, bound) == Spell(items)
    decreases |items|
  {
    if items != [] {
      assert items[0] in items && forall x :: x in items[1..] ==> x in items;
      NothingLeft(items[1..], vars, rank, bound);
    }
  }

  /** The outcome carries `e`, and refuses it only when `e` holds a token. */
  ghost predicate Delivers(r: Outcome, e: string)
  {
    r.value == e && (r.Unresolved? ==> HasUnresolved(e))
  }

  /** One round takes the text on without changing its expansion; a round that changes nothing has reached it. */
  lemma RoundKeeps(items: seq<Item>, order: seq<string>, vars: Values, rank: map<string, nat>, passes: nat)
    returns (result: seq<Item>)
    requires Grouped(vars) && Acyclic(vars, rank) && Enumerates(order, vars) && Neat(items)
    requires passes > 0 && Below(items, vars, rank, passes)
    ensures Neat(result) && Below(result, vars, rank, passes - 1)
    ensures Sequential(Spell(items), order, vars) == Spell(result)
    ensures Expand(result, vars, rank, passes - 1) == Expand(items, vars, rank, passes)
    ensures Spell(result) == Spell(items) ==> Expand(items, vars, rank, passes) == Spell(items)
  {
    result := RoundDrops(items, order, vars, rank, passes - 1);
    ExpandBound(result, vars, rank, passes, passes - 1);
    if Spell(result) == Spell(items) {
      FixpointIsDone(items, order, vars, rank, passes);
      NothingLeft(items, vars, rank, passes);
    }
  }

  /** The texts of successive rounds: the last one is `e`, and so is one that a round leaves unchanged. */
  ghost predicate LeadsTo(chain: seq<string>, order: seq<string>, vars: Values, e: string)
  {
    && chain != [] && chain[|chain| - 1] == e
    && forall i :: 0 <= i < |chain| - 1 ==>
      chain[i + 1] == Sequential(chain[i], order, vars) && (chain[i + 1] == chain[i] ==> chain[i] == e)
  }

  lemma {:induction false} RoundsFollow(chain: seq<string>, order: seq<string>, vars: Values, e: string)
    requires LeadsTo(chain, order, vars, e)
    ensures Rounds(chain[0], order, vars, |chain| - 1).value == e
    decreases |chain|
  {
    if |chain| == 1 {
      RoundsEnd(chain[0], order, vars);
    } else {
      var rest := chain[1..];
      assert chain[0 + 1] == Sequential(chain[0], order, vars) == rest[0];
      assert forall i :: 0 <= i < |rest| ==> rest[i] == chain[i + 1];
      RoundsNext(chain[0], order, vars, |chain| - 1);
      RoundsFollow(rest, order, vars, e);
    }
  }

  lemma {:induction false} ExpansionChain(items: seq<Item>, order: seq<string>, vars: Values, rank: map<string, nat>,
                                          passes: nat)
    returns (chain: seq<string>)
    requires Grouped(vars) && Acyclic(vars, rank) && Enumerates(order, vars) && Neat(items)
    requires Below(items, vars, rank, passes)
    ensures |chain| == passes + 1 && chain[0] == Spell(items)
    ensures LeadsTo(chain, order, vars, Expand(items, vars, rank, passes))
    decreases passes
  {
    if passes == 0 {
      NothingLeft(items, vars, rank, 0);
      chain := [Spell(items)];
    } else {
      var result := RoundKeeps(items, order, vars, rank, passes);
      var rest := ExpansionChain(result, order, vars, rank, passes - 1);
      chain := ChainCons(Spell(items), rest, order, vars, Expand(items, vars, rank, passes));
    }
  }

  lemma ChainCons(text: string, rest: seq<string>, order: seq<string>, vars: Values, e: string)
      returns (chain: seq<string>)
    requires LeadsTo(rest, order, vars, e) && rest[0] == Sequential(text, order, vars)
             && (rest[0] == text ==> text == e)
    ensures |chain| == |rest| + 1 && chain[0] == text && LeadsTo(chain, order, vars, e)
  {
    chain := [text] + rest;
    assert forall i :: 0 < i < |chain| ==> chain[i] == rest[i - 1];
  }

  /** As many rounds as there are ranks give the full expansion. */
  lemma RoundsExpand(items: seq<Item>, order: seq<string>, vars: Values, rank: map<string, nat>, passes: nat)
    requires Grouped(vars) && Acyclic(vars, rank) && Enumerates(order, vars) && Neat(items)
    requires Below(items, vars, rank, passes)
    ensures Rounds(Spell(items), order, vars, passes).value == Expand(items, vars, rank, passes)
  {
    var chain := ExpansionChain(items, order, vars, rank, passes);
    RoundsFollow(chain, order, vars, Expand(items, vars, rank, passes));
  }

  /** Only text that holds a token is refused. */
  lemma {:induction false} RefusedHoldsToken(value: string, order: seq<string>, vars: Values, passes: nat)
    ensures var r := Rounds(value, order, vars, passes); r.Unresolved? ==> HasUnresolved(r.value)
    decreases passes
  {
    if passes > 0 {
      RoundsNext(value, order, vars, passes);
      RefusedHoldsToken(Sequential(value, order, vars), order, vars, passes - 1);
    }
  }

  // ----- ranks below the number of variables

  function Lower(vars: Values, rank: map<string, nat>, k: string): set<string>
    requires forall j :: j in vars ==> j in rank
    requires k in vars
  {
    set j | j in vars && rank[j] < rank[k]
  }

  /** Counting the variables of lower rank is again a rank, and less than the number of variables. */
  lemma Compress(vars: Values, rank: map<string, nat>) returns (small: map<string, nat>)
    requires Acyclic(vars, rank)
    ensures Acyclic(vars, small) && forall k :: k in vars ==> small[k] < |vars|
  {
    small := map k | k in vars :: |Lower(vars, rank, k)|;
    forall k | k in vars ensures small[k] < |vars| {
      assert k !in Lower(vars, rank, k);
      Strictly(Lower(vars, rank, k), vars.Keys);
      assert |vars.Keys| == |vars|;
    }
    forall k, g | k in vars && g in vars && Group(g) in Items(vars[k]) ensures small[g] < small[k] {
      assert g in Lower(vars, rank, k) && g !in Lower(vars, rank, g);
      Strictly(Lower(vars, rank, g), Lower(vars, rank, k));
    }
  }

  lemma {:induction false} Strictly(a: set<string>, b: set<string>)
    requires a < b
    ensures |a| < |b|
  {
    if a != {} {
      var x :| x in a;
      Strictly(a - {x}, b - {x});
    }
  }

  /** With acyclic variables and no nested braces, the value handed out is the
      full expansion for every iteration order, and it is refused only when
      the expansion itself still holds a token. */
  lemma ExpansionComplete(raw: string, vars: Values, order: seq<string>, rank: map<string, nat>, bound: nat)
    requires Grouped(vars) && Neat(Items(raw)) && Acyclic(vars, rank) && Enumerates(order, vars)
    requires Below(Items(raw), vars, rank, bound)
    ensures Delivers(Rounds(raw, order, vars, Budget(vars)), Expand(Items(raw), vars, rank, bound))
  {
    var small := Compress(vars, rank);
    ReadBack(raw);
    RoundsExpand(Items(raw), order, vars, small, Budget(vars));
    RefusedHoldsToken(raw, order, vars, Budget(vars));
    RankIrrelevant(Items(raw), vars, rank, bound, small, Budget(vars));
  }

  lemma {:induction false} RankIrrelevant(items: seq<Item>, vars: Values, r0: map<string, nat>, b0: nat,
                                          r1: map<string, nat>, b1: nat)
    requires Acyclic(vars, r0) && Below(items, vars, r0, b0) && Acyclic(vars, r1) && Below(items, vars, r1, b1)
    ensures Expand(items, vars, r0, b0) == Expand(items, vars, r1, b1)
    decreases b0, |items|
  {
    if items != [] {
      var first := items[0];
      assert first in items && forall x :: x in items[1..] ==> x in items;
      RankIrrelevant(items[1..], vars, r0, b0, r1, b1);
      if first.Group? && first.name in vars {
        RankIrrelevant(Items(vars[first.name]), vars, r0, r0[first.name], r1, r1[first.name]);
      }
    }
  }

  // ----- when the expansion holds no token

  lemma ScanGroup(g: string, rest: string)
    requires BraceFree(g)
    ensures HasUnresolved(Token(g) + rest) == (IsTokenName(g) || HasUnresolved(rest))
  {
    var t := Token(g) + rest;
    assert t[0] == '{' && t[1..] == g + ['}'] + rest;
    IndexOfFirst(g, '}', rest);
    assert t[1..|g| + 1] == g && t[|g| + 2..] == rest;
  }

  /** On neat text the scanner reports exactly the groups that look like tokens. */
  lemma {:induction false} ScannerOnNeat(items: seq<Item>)
    requires Neat(items)
    ensures HasUnresolved(Spell(items)) <==> exists g :: Group(g) in items && IsTokenName(g)
  {
    if items != [] {
      var item, rest := items[0], Spell(items[1..]);
      assert item in items && forall x :: x in items[1..] ==> x in items;
      ScannerOnNeat(items[1..]);
      assert forall x :: x in items <==> x == item || x in items[1..];
      match item {
        case Lit(c) => assert ([c] + rest)[1..] == rest;
        case Group(g) => ScanGroup(g, rest);
      }
    }
  }

  /** Every group that looks like a token is a variable. */
  ghost predicate AllDefined(items: seq<Item>, vars: Values)
  {
    forall g :: Group(g) in items && IsTokenName(g) ==> g in vars
  }

  /** What the expansion spells: undefined groups of the text and of the values used. */
  lemma {:induction false} ExpandedItems(items: seq<Item>, vars: Values, rank: map<string, nat>, bound: nat)
    returns (result: seq<Item>)
    requires Grouped(vars) && Acyclic(vars, rank) && Below(items, vars, rank, bound) && Neat(items)
    requires AllDefined(items, vars) && forall k :: k in vars ==> AllDefined(Items(vars[k]), vars)
    ensures Neat(result) && Spell(result) == Expand(items, vars, rank, bound)
    ensures forall g :: Group(g) in result ==> !IsTokenName(g)
    decreases bound, |items|
  {
    if items == [] {
      result := [];
    } else {
      var first := items[0];
      assert first in items && forall x :: x in items[1..] ==> x in items;
      var rest := ExpandedItems(items[1..], vars, rank, bound);
      if first.Group? && first.name in vars {
        var inner := ExpandedItems(Items(vars[first.name]), vars, rank, rank[first.name]);
        FillConcat(inner, rest, map[]);
        result := inner + rest;
      } else {
        FillConcat([first], rest, map[]);
        assert Fill([first], map[]) == Shown(first, map[]) + Fill([], map[]);
        result := [first] + rest;
      }
    }
  }

  /** With every token defined the result is Ok with the full expansion, in every order. */
  lemma DefinedTokensExpand(raw: string, vars: Values, order: seq<string>, rank: map<string, nat>, bound: nat)
    requires Grouped(vars) && Neat(Items(raw)) && Acyclic(vars, rank) && Enumerates(order, vars)
    requires Below(Items(raw), vars, rank, bound)
    requires AllDefined(Items(raw), vars) && forall k :: k in vars ==> AllDefined(Items(vars[k]), vars)
    ensures Rounds(raw, order, vars, Budget(vars)) == Ok(Expand(Items(raw), vars, rank, bound))
  {
    ExpansionComplete(raw, vars, order, rank, bound);
    var result := ExpandedItems(Items(raw), vars, rank, bound);
    ScannerOnNeat(result);
  }
}
