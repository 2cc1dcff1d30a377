/** The step context: variables written by steps, looked up most recent writer
    first, and carried across a checkpoint through an allowlist. */
module Context {
  import opened Text

  const NAMESPACED := "__namespaced_vars"
  const STEP_ORDER := "__step_order"
  const EDGE_COUNTS := "__edge_loop_counts"

  type Vars = map<string, string>

  /** The JSON values a checkpoint holds. */
  datatype Json =
    | Str(text: string)
    | StepMaps(maps: map<string, Vars>)
    | Steps(steps: seq<string>)
    | Counts(counts: map<string, nat>)
    | Other

  /** Everything lookups depend on; `allow` is the set of keys a checkpoint may carry. */
  datatype Ctx = Ctx(variables: Vars, current: Option<string>, order: seq<string>,
                     namespaced: map<string, Vars>, allow: set<string>)
  {
    /** `step.var` reads one namespace; a bare key the most recent writer, then
        the `config` namespace, then the flat variables. */
    function Get(key: string): Option<string>
      decreases if key == "issue_number" then 1 else 0
    {
      match IndexOf(key, '.')
      case Some(dot) => InStep(namespaced, key[..dot], key[dot + 1..])
      case None =>
        if Own(key).Some? then Own(key)
        else if key == "issue_number" then Get("primary_issue_number")
        else None
    }

    /** A bare key, without the fallback from `issue_number` to `primary_issue_number`. */
    function Own(key: string): Option<string>
    {
      var recent := MostRecent(order, namespaced, key);
      if recent.Some? then recent
      else if InStep(namespaced, "config", key).Some? then InStep(namespaced, "config", key)
      else if key in variables then Some(variables[key])
      else None
    }

    function Set(key: string, value: string): Ctx
    {
      var stored := this.(variables := variables[key := value]);
      if current.None? then stored
      else
        var s := current.value;
        var own := if s in namespaced then namespaced[s] else map[];
        stored.(namespaced := namespaced[s := own[key := value]])
    }

    function Enter(step: string): Ctx
    {
      Ctx(variables["current_step_id" := step], Some(step),
          if order != [] && order[|order| - 1] == step then order else order + [step], namespaced, allow)
    }

    function CheckpointValues(): map<string, Json>
    {
      (map k | k in variables && k in allow :: Str(variables[k]))
      [NAMESPACED := StepMaps(map s | s in namespaced :: Allowed(namespaced[s], allow))]
      [STEP_ORDER := Steps(order)]
    }
  }

  function Allowed(vars: Vars, allow: set<string>): Vars { map k | k in vars && k in allow :: vars[k] }

  function InStep(namespaced: map<string, Vars>, step: string, key: string): Option<string>
  {
    if step in namespaced && key in namespaced[step] then Some(namespaced[step][key]) else None
  }

  function MostRecent(order: seq<string>, namespaced: map<string, Vars>, key: string): Option<string>
  {
    if order == [] then None
    else
      var here := InStep(namespaced, order[|order| - 1], key);
      if here.Some? then here else MostRecent(order[..|order| - 1], namespaced, key)
  }

  // ----- restoring a checkpoint

  /** The values decode: reserved keys hold their own shapes, allowlisted keys hold strings. */
  ghost predicate Restorable(allow: set<string>, values: map<string, Json>)
  {
    && (NAMESPACED in values ==> values[NAMESPACED].StepMaps?)
    && (STEP_ORDER in values ==> values[STEP_ORDER].Steps?)
    && forall k :: k in values && k in allow && k != NAMESPACED && k != STEP_ORDER ==> values[k].Str?
  }

  ghost function Restored(c: Ctx, values: map<string, Json>): Ctx
    requires Restorable(c.allow, values)
  {
    c.(namespaced := if NAMESPACED in values
                     then (map s | s in values[NAMESPACED].maps :: Allowed(values[NAMESPACED].maps[s], c.allow))
                     else c.namespaced,
       order := if STEP_ORDER in values then values[STEP_ORDER].steps else c.order,
       variables := c.variables +
         (map k | k in values && k in c.allow && k != NAMESPACED && k != STEP_ORDER :: values[k].text))
  }

  class StepContext {
    var variables: Vars
    var current: Option<string>
    var order: seq<string>
    var namespaced: map<string, Vars>
    const allow: set<string>

    ghost function View(): Ctx
      reads this
    {
      Ctx(variables, current, order, namespaced, allow)
    }

    constructor (workDir: string, runId: string, allow: set<string>)
      ensures View() == Ctx(map["work_dir" := workDir, "run_id" := runId], None, [], map[], allow)
    {
      this.variables := map["work_dir" := workDir]["run_id" := runId];
      this.current, this.order, this.namespaced, this.allow := None, [], map[], allow;
    }

    /** The lookup loop walks the step order backwards. */
    method Get(key: string) returns (value: Option<string>)
      ensures value == View().Get(key)
      decreases if key == "issue_number" then 1 else 0
    {
      var dot := IndexOf(key, '.');
      if dot.Some? {
        return InStep(namespaced, key[..dot.value], key[dot.value + 1..]);
      }
      var i := |order|;
      assert order[..i] == order;
      while i > 0
        invariant 0 <= i <= |order|
        invariant MostRecent(order, namespaced, key) == MostRecent(order[..i], namespaced, key)
      {
        assert order[..i][..i - 1] == order[..i - 1];
        i := i - 1;
        var here := InStep(namespaced, order[i], key);
        if here.Some? {
          return here;
        }
      }
      value := InStep(namespaced, "config", key);
      if value.Some? {
        return;
      }
      if key in variables {
        return Some(variables[key]);
      }
      if key == "issue_number" {
        value := Get("primary_issue_number");
      }
    }

    method Set(key: string, value: string)
      modifies this
      ensures View() == old(View()).Set(key, value)
    {
      if current.Some? {
        var own := if current.value in namespaced then namespaced[current.value] else map[];
        namespaced := namespaced[current.value := own[key := value]];
      }
      variables := variables[key := value];
    }

    method SetCurrentStepId(step: string)
      modifies this
      ensures View() == old(View()).Enter(step)
    {
      current := Some(step);
      if order == [] || order[|order| - 1] != step {
        order := order + [step];
      }
      variables := variables["current_step_id" := step];
    }

    /** Fails closed on a value of the wrong shape; the entries are visited in any order. */
    method RestoreCheckpointValues(values: map<string, Json>) returns (ok: bool)
      modifies this
      ensures ok <==> Restorable(allow, values)
      ensures ok ==> View() == Restored(old(View()), values)
    {
      if NAMESPACED in values {
        if !values[NAMESPACED].StepMaps? {
          return false;
        }
        var raw := values[NAMESPACED].maps;
        namespaced := map s | s in raw :: Allowed(raw[s], allow);
      }
      if STEP_ORDER in values {
        if !values[STEP_ORDER].Steps? {
          return false;
        }
        order := values[STEP_ORDER].steps;
      }
      ok := RestoreVariables(values);
    }

    method RestoreVariables(values: map<string, Json>) returns (ok: bool)
      modifies `variables
      ensures ok <==> forall k :: k in values && k in allow && k != NAMESPACED && k != STEP_ORDER ==> values[k].Str?
      ensures ok ==>
        variables == old(variables) +
          (map k | k in values && k in allow && k != NAMESPACED && k != STEP_ORDER :: values[k].text)
    {
      var left := values.Keys - {NAMESPACED, STEP_ORDER};
      ghost var all := left;
      while left != {}
        invariant left <= all
        invariant forall k :: k in all - left && k in allow ==> values[k].Str?
        invariant variables == old(variables) + (map k | k in all - left && k in allow :: values[k].text)
      {
        var key :| key in left;
        left := left - {key};
        if key in allow {
          if !values[key].Str? {
            return false;
          }
          variables := variables[key := values[key].text];
        }
      }
      assert all - left == all;
      return true;
    }
  }

  // ----- what survives a checkpoint

  ghost predicate ReservedKeysFree(allow: set<string>)
  {
    NAMESPACED !in allow && STEP_ORDER !in allow && EDGE_COUNTS !in allow
  }

  /** What is stored: the context values together with the edge counters. */
  function Saved(c: Ctx, counts: map<string, nat>): map<string, Json>
  {
    c.CheckpointValues()[EDGE_COUNTS := Counts(counts)]
  }

  /** Every allowlisted variable of the blank context was set in the saved one. */
  ghost predicate SeedsKept(c: Ctx, blank: Ctx)
  {
    forall k :: k in blank.variables && k in c.allow ==> k in c.variables
  }

  /** The context a resumed run starts from. */
  ghost function Carried(c: Ctx, blank: Ctx): Ctx
  {
    Ctx(blank.variables + Allowed(c.variables, c.allow), blank.current, c.order,
        map s | s in c.namespaced :: Allowed(c.namespaced[s], c.allow), c.allow)
  }

  lemma AllowedTwice(m: Vars, allow: set<string>)
    ensures Allowed(Allowed(m, allow), allow) == Allowed(m, allow)
  {}

  lemma SavedValues(c: Ctx, counts: map<string, nat>, key: string)
    requires ReservedKeysFree(c.allow) && key in c.allow
    ensures key in Saved(c, counts) <==> key in c.variables
    ensures key in c.variables ==> Saved(c, counts)[key] == Str(c.variables[key])
  {}

  lemma SavedVariables(c: Ctx, counts: map<string, nat>)
    requires ReservedKeysFree(c.allow)
    ensures var v := Saved(c, counts);
      && (forall k :: k in v && k in c.allow && k != NAMESPACED && k != STEP_ORDER ==> v[k].Str?)
      && (map k | k in v && k in c.allow && k != NAMESPACED && k != STEP_ORDER :: v[k].text)
        == Allowed(c.variables, c.allow)
  {
    forall k | k in c.allow
      ensures k in Saved(c, counts) <==> k in c.variables
      ensures k in c.variables ==> Saved(c, counts)[k] == Str(c.variables[k])
    {
      SavedValues(c, counts, k);
    }
  }

  /** A stored checkpoint always decodes into the carried context. */
  lemma CheckpointDecodes(c: Ctx, blank: Ctx, counts: map<string, nat>)
    requires blank.allow == c.allow && ReservedKeysFree(c.allow)
    ensures Restorable(blank.allow, Saved(c, counts))
    ensures Restored(blank, Saved(c, counts)) == Carried(c, blank)
  {
    SavedVariables(c, counts);
    forall s | s in c.namespaced
      ensures Allowed(Allowed(c.namespaced[s], c.allow), c.allow) == Allowed(c.namespaced[s], c.allow)
    {
      AllowedTwice(c.namespaced[s], c.allow);
    }
    assert Restored(blank, Saved(c, counts)).namespaced == Carried(c, blank).namespaced;
  }

  /** Checkpointing the carried context gives the same values exactly when it
      adds no seeded variable of its own. */
  lemma CheckpointRoundTrip(c: Ctx, blank: Ctx)
    requires ReservedKeysFree(c.allow)
    ensures Carried(c, blank).CheckpointValues() == c.CheckpointValues() <==> SeedsKept(c, blank)
  {
    var r := Carried(c, blank);
    forall s | s in c.namespaced
      ensures Allowed(Allowed(c.namespaced[s], c.allow), c.allow) == Allowed(c.namespaced[s], c.allow) {}
    assert (map s | s in r.namespaced :: Allowed(r.namespaced[s], c.allow)) == r.namespaced;
    var ours, theirs := r.CheckpointValues(), c.CheckpointValues();
    if SeedsKept(c, blank) {
      assert ours.Keys == theirs.Keys;
      assert forall k :: k in ours ==> ours[k] == theirs[k];
    } else {
      var k :| k in blank.variables && k in c.allow && k !in c.variables;
      assert k in ours && k !in theirs;
    }
  }

  lemma {:induction false} AllowedLookup(order: seq<string>, ns: map<string, Vars>, allow: set<string>, key: string)
    ensures MostRecent(order, map s | s in ns :: Allowed(ns[s], allow), key) ==
            if key in allow then MostRecent(order, ns, key) else None
  {
    if order != [] {
      AllowedLookup(order[..|order| - 1], ns, allow, key);
    }
  }

  predicate Bare(key: string) { '.' !in key }

  lemma BareGet(c: Ctx, key: string)
    requires Bare(key) && key != "issue_number"
    ensures c.Get(key) == c.Own(key)
  {}

  /** The last of the entered steps whose namespace has the key is number `i` in their order. */
  ghost predicate LastHolder(c: Ctx, key: string, i: nat)
  {
    && i < |c.order| && InStep(c.namespaced, c.order[i], key).Some?
    && forall j :: i < j < |c.order| ==> InStep(c.namespaced, c.order[j], key).None?
  }

  lemma {:induction false} MostRecentIs(order: seq<string>, namespaced: map<string, Vars>, key: string, i: nat)
    requires i < |order| && InStep(namespaced, order[i], key).Some?
    requires forall j :: i < j < |order| ==> InStep(namespaced, order[j], key).None?
    ensures MostRecent(order, namespaced, key) == InStep(namespaced, order[i], key)
  {
    if i < |order| - 1 { MostRecentIs(order[..|order| - 1], namespaced, key, i); }
  }

  lemma {:induction false} MostRecentNone(order: seq<string>, namespaced: map<string, Vars>, key: string)
    requires forall j :: 0 <= j < |order| ==> InStep(namespaced, order[j], key).None?
    ensures MostRecent(order, namespaced, key).None?
  {
    if order != [] { MostRecentNone(order[..|order| - 1], namespaced, key); }
  }

  /** A bare key is answered by the last entered step that holds it; if none does,
      by the `config` namespace, then by the flat variables; and if they do not
      either, `issue_number` is answered as `primary_issue_number` is. */
  lemma LookupOrder(c: Ctx, key: string)
    requires Bare(key)
    ensures forall i: nat :: LastHolder(c, key, i) ==> c.Get(key) == InStep(c.namespaced, c.order[i], key)
    ensures (forall s :: s in c.order ==> InStep(c.namespaced, s, key).None?) ==>
      c.Get(key) == if "config" in c.namespaced && key in c.namespaced["config"] then Some(c.namespaced["config"][key])
                    else if key in c.variables then Some(c.variables[key])
                    else if key == "issue_number" then c.Get("primary_issue_number") else None
  {
    forall i: nat | LastHolder(c, key, i) ensures c.Get(key) == InStep(c.namespaced, c.order[i], key) {
      MostRecentIs(c.order, c.namespaced, key, i);
    }
    if forall s :: s in c.order ==> InStep(c.namespaced, s, key).None? {
      MostRecentNone(c.order, c.namespaced, key);
    }
  }

  lemma CarriedOwn(c: Ctx, blank: Ctx, key: string)
    requires SeedsKept(c, blank) && key in c.allow
    ensures Carried(c, blank).Own(key) == c.Own(key)
  {
    AllowedLookup(c.order, c.namespaced, c.allow, key);
  }

  /** Lookups of carried keys agree with the original context, exactly unless one
      needs a fallback that is not carried and that the blank context does not
      seed alike. */
  lemma CarriedLookups(c: Ctx, blank: Ctx, key: string)
    requires SeedsKept(c, blank) && Bare(key) && key in c.allow
    ensures Carried(c, blank).Get(key) == c.Get(key) <==>
            key != "issue_number" || "primary_issue_number" in c.allow || c.Own(key).Some?
            || c.Get("primary_issue_number") == Seed(blank, "primary_issue_number")
  {
    CarriedOwn(c, blank, key);
    var fallback := "primary_issue_number";
    if key == "issue_number" && fallback in c.allow {
      CarriedOwn(c, blank, fallback);
      assert Bare(fallback);
      BareGet(c, fallback);
      BareGet(Carried(c, blank), fallback);
    } else if key == "issue_number" && c.Own(key).None? {
      FallbackNotCarried(c, blank);
    }
  }

  function Seed(blank: Ctx, key: string): Option<string>
  {
    if key in blank.variables then Some(blank.variables[key]) else None
  }

  /** Namespaced keys: carried variables agree, all others are gone. */
  lemma CarriedNamespaces(c: Ctx, blank: Ctx, step: string, key: string)
    requires Bare(step)
    ensures Carried(c, blank).Get(step + "." + key) ==
            if key in c.allow then c.Get(step + "." + key) else None
  {
    var full := step + "." + key;
    var dot := |step|;
    IndexOfFirst(step, '.', key);
    assert full[..dot] == step && full[dot + 1..] == key;
  }

  /** A bare key outside the allowlist comes only from the blank context's flat variables. */
  lemma NothingElseCarried(c: Ctx, blank: Ctx, key: string)
    requires Bare(key) && key !in c.allow && key != "issue_number"
    ensures Carried(c, blank).Get(key) == Seed(blank, key)
  {
    AllowedLookup(c.order, c.namespaced, c.allow, key);
  }

  /** An allowlist with `issue_number` but not the key it falls back to: a
      context that needs the fallback loses it unless the blank one seeds it. */
  lemma FallbackNotCarried(c: Ctx, blank: Ctx)
    requires SeedsKept(c, blank) && "issue_number" in c.allow && "primary_issue_number" !in c.allow
    requires c.Own("issue_number").None?
    ensures c.Get("issue_number") == c.Get("primary_issue_number")
    ensures Carried(c, blank).Get("issue_number") == Seed(blank, "primary_issue_number")
  {
    AllowedLookup(c.order, c.namespaced, c.allow, "issue_number");
    NothingElseCarried(c, blank, "primary_issue_number");
  }

  // ----- the context as a log of writes

  datatype Event = Entered(step: string) | Wrote(key: string, value: string)

  function Apply(c: Ctx, e: Event): Ctx
  {
    match e
    case Entered(step) => c.Enter(step)
    case Wrote(key, value) => c.Set(key, value)
  }

  function Replay(c: Ctx, log: seq<Event>): Ctx
  {
    if log == [] then c else Apply(Replay(c, log[..|log| - 1]), log[|log| - 1])
  }

  /** The step most recently entered within the log. */
  function StepAfter(log: seq<Event>): Option<string>
  {
    if log == [] then None
    else match log[|log| - 1]
         case Entered(step) => Some(step)
         case Wrote(_, _) => StepAfter(log[..|log| - 1])
  }

  /** Where a step was last entered, -1 when it never was. */
  function LastEntry(log: seq<Event>, step: string): int
  {
    if log == [] then -1
    else if log[|log| - 1] == Entered(step) then |log| - 1
    else LastEntry(log[..|log| - 1], step)
  }

  /** Entry `i` of the log is a write of `key` made while `step` was current. */
  ghost predicate WrittenBy(log: seq<Event>, i: int, key: string, step: string)
  {
    0 <= i < |log| && log[i].Wrote? && log[i].key == key && StepAfter(log[..i]) == Some(step)
  }

  /** Write `i` is the last one by the most recently entered of all steps that ever wrote `key`. */
  ghost predicate Decides(log: seq<Event>, key: string, step: string, i: int)
  {
    && WrittenBy(log, i, key, step)
    && (forall j :: WrittenBy(log, j, key, step) ==> j <= i)
    && (forall j, other :: WrittenBy(log, j, key, other) && other != step ==>
        LastEntry(log, other) < LastEntry(log, step))
  }

  ghost predicate Fresh(c: Ctx) { c.current == None && c.order == [] && c.namespaced == map[] }

  lemma PrefixWrites(log: seq<Event>, i: int, key: string, step: string)
    requires log != [] && i < |log| - 1
    ensures WrittenBy(log, i, key, step) <==> WrittenBy(log[..|log| - 1], i, key, step)
  {
    if i >= 0 { assert log[..|log| - 1][..i] == log[..i]; }
  }

  /** The current step, the step order and the namespaces say what the log says. */
  lemma {:induction false} ReplayState(c: Ctx, log: seq<Event>)
    requires Fresh(c)
    ensures var r := Replay(c, log);
      && r.current == StepAfter(log)
      && (r.current.Some? ==> r.order != [] && r.order[|r.order| - 1] == r.current.value)
    ensures forall s :: StepAfter(log) == Some(s) ==> forall t :: t != s ==> LastEntry(log, t) < LastEntry(log, s)
    ensures forall s :: LastEntry(log, s) < |log|
  {
    if log != [] {
      ReplayState(c, log[..|log| - 1]);
    }
  }

  /** A flat variable holds the last value written under its key, by whichever step. */
  lemma {:induction false} FlatHolds(c: Ctx, log: seq<Event>, key: string)
    requires key != "current_step_id"
    ensures var flat := Replay(c, log).variables;
      if exists i :: LastWrite(log, key, i)
      then forall i :: LastWrite(log, key, i) ==> key in flat && flat[key] == log[i].value
      else (key in flat <==> key in c.variables) && (key in flat ==> flat[key] == c.variables[key])
  {
    if log != [] {
      var front, last := log[..|log| - 1], log[|log| - 1];
      FlatHolds(c, front, key);
      if last.Wrote? && last.key == key {
        assert LastWrite(log, key, |log| - 1);
      } else {
        assert forall i :: LastWrite(log, key, i) <==> LastWrite(front, key, i);
      }
    }
  }

  ghost predicate LastWrite(log: seq<Event>, key: string, i: int)
  {
    && 0 <= i < |log| && log[i].Wrote? && log[i].key == key
    && forall j :: i < j < |log| ==> !(log[j].Wrote? && log[j].key == key)
  }

  /** A namespace holds the last write its step made. */
  lemma {:induction false} NamespaceHolds(c: Ctx, log: seq<Event>, key: string, step: string)
    requires Fresh(c)
    ensures var held := InStep(Replay(c, log).namespaced, step, key);
      if held.Some?
      then exists i :: WrittenBy(log, i, key, step) && held == Some(log[i].value)
                       && forall j :: WrittenBy(log, j, key, step) ==> j <= i
      else forall j :: !WrittenBy(log, j, key, step)
  {
    if log != [] {
      var n := |log| - 1;
      var before := log[..n];
      NamespaceHolds(c, before, key, step);
      ReplayState(c, before);
      forall j | j < n ensures WrittenBy(log, j, key, step) <==> WrittenBy(before, j, key, step) {
        PrefixWrites(log, j, key, step);
      }
      assert log[..n] == before;
      var was, held := InStep(Replay(c, before).namespaced, step, key), InStep(Replay(c, log).namespaced, step, key);
      if WrittenBy(log, n, key, step) {
        assert held == Some(log[n].value);
      } else {
        assert held == was;
        if was.Some? {
          var i :| WrittenBy(before, i, key, step) && was == Some(before[i].value)
                   && forall j :: WrittenBy(before, j, key, step) ==> j <= i;
          assert WrittenBy(log, i, key, step) && log[i] == before[i];
          assert forall j :: WrittenBy(log, j, key, step) ==> j <= i;
        }
      }
    }
  }

  /** Once a step has been entered, some step is current. */
  lemma {:induction false} StepOnceEntered(log: seq<Event>, i: nat)
    requires i <= |log| && StepAfter(log[..i]).Some?
    ensures StepAfter(log).Some?
  {
    if i < |log| {
      assert log[..|log| - 1][..i] == log[..i];
      StepOnceEntered(log[..|log| - 1], i);
    } else {
      assert log[..i] == log;
    }
  }

  /** The lookup finds the deciding write. */
  lemma {:induction false} LookupDecided(c: Ctx, log: seq<Event>, key: string, step: string, i: int)
    requires Fresh(c) && Decides(log, key, step, i)
    ensures MostRecent(Replay(c, log).order, Replay(c, log).namespaced, key) == Some(log[i].value)
  {
    var n := |log| - 1;
    var before, r := log[..n], Replay(c, log);
    assert log[..i] == before[..i] || i == n;
    ReplayState(c, log);
    ReplayState(c, before);
    NamespaceHolds(c, log, key, step);
    assert InStep(r.namespaced, step, key) == Some(log[i].value);
    forall j, s | j < n ensures WrittenBy(log, j, key, s) <==> WrittenBy(before, j, key, s) {
      PrefixWrites(log, j, key, s);
    }
    StepOnceEntered(log, i);
    if StepAfter(log) != Some(step) {
      var now := StepAfter(log).value;
      NamespaceHolds(c, log, key, now);
      assert InStep(r.namespaced, now, key).None?;
      assert i < n;
      assert Decides(before, key, step, i);
      LookupDecided(c, before, key, step, i);
      var b := Replay(c, before);
      match log[n] {
        case Entered(s) => assert r.namespaced == b.namespaced;
          if r.order != b.order { assert r.order[..|r.order| - 1] == b.order; }
        case Wrote(k, v) =>
          if k != key { OtherKeyWritten(b, k, v, key); }
          else { assert WrittenBy(log, n, key, now); }
      }
    }
  }

  lemma {:induction false} OtherKeyWritten(c: Ctx, k: string, v: string, key: string)
    requires k != key
    ensures MostRecent(c.order, c.Set(k, v).namespaced, key) == MostRecent(c.order, c.namespaced, key)
    decreases |c.order|
  {
    if c.order != [] {
      OtherKeyWritten(c.(order := c.order[..|c.order| - 1]), k, v, key);
    }
  }

  /** A bare key reads the last value written by the most recently entered step that ever wrote it. */
  lemma GetIsDecidingWrite(c: Ctx, log: seq<Event>, key: string, step: string, i: int)
    requires Fresh(c) && Bare(key) && Decides(log, key, step, i)
    ensures Replay(c, log).Get(key) == Some(log[i].value)
  {
    LookupDecided(c, log, key, step, i);
  }

  lemma {:induction false} NoWriterNoHit(order: seq<string>, ns: map<string, Vars>, key: string)
    requires forall s :: InStep(ns, s, key).None?
    ensures MostRecent(order, ns, key).None?
  {
    if order != [] {
      NoWriterNoHit(order[..|order| - 1], ns, key);
    }
  }

  /** With no write inside any step, the flat variables answer. */
  lemma GetWithoutWriters(c: Ctx, log: seq<Event>, key: string)
    requires Fresh(c) && Bare(key) && key != "issue_number"
    requires forall s, j :: !WrittenBy(log, j, key, s)
    ensures var r := Replay(c, log); r.Get(key) == if key in r.variables then Some(r.variables[key]) else None
  {
    var r := Replay(c, log);
    forall s ensures InStep(r.namespaced, s, key).None? {
      NamespaceHolds(c, log, key, s);
    }
    NoWriterNoHit(r.order, r.namespaced, key);
  }

  /** A step that is not current and whose writes decide before the last event still decides. */
  lemma StillDecides(log: seq<Event>, key: string, step: string, i: int)
    requires log != [] && Decides(log[..|log| - 1], key, step, i)
    requires forall j :: StepAfter(log).Some? ==> !WrittenBy(log, j, key, StepAfter(log).value)
    ensures Decides(log, key, step, i)
  {
    var before := log[..|log| - 1];
    SameWrite(log, i, key, step);
    forall j | WrittenBy(log, j, key, step) ensures j <= i {
      SameWrite(log, j, key, step);
    }
    forall j, other | WrittenBy(log, j, key, other) && other != step
      ensures LastEntry(log, other) < LastEntry(log, step)
    {
      SameWrite(log, j, key, other);
      assert LastEntry(log, other) == LastEntry(before, other) && LastEntry(log, step) == LastEntry(before, step);
    }
  }

  /** A last event that is not a write of `key` leaves the writes of `key` as they were. */
  lemma SameWrite(log: seq<Event>, j: int, key: string, s: string)
    requires log != []
    requires forall i :: StepAfter(log).Some? ==> !WrittenBy(log, i, key, StepAfter(log).value)
    ensures WrittenBy(log, j, key, s) <==> WrittenBy(log[..|log| - 1], j, key, s)
    ensures WrittenBy(log, j, key, s) ==> StepAfter(log) != Some(s)
  {
    if j < |log| - 1 { PrefixWrites(log, j, key, s); }
    if j == |log| - 1 {
      assert log[..j] == log[..|log| - 1];
      assert WrittenBy(log, j, key, s) ==> StepAfter(log) == Some(s);
    }
  }

  /** A deciding write exists as soon as any step wrote the key. */
  lemma {:induction false} SomeWriteDecides(log: seq<Event>, key: string, j0: int, s0: string)
    requires WrittenBy(log, j0, key, s0)
    ensures exists s, i :: Decides(log, key, s, i)
  {
    var n := |log| - 1;
    var blank := Ctx(map[], None, [], map[], {});
    ReplayState(blank, log);
    assert log[..j0] <= log;
    StepOnceEntered(log, j0);
    var now := StepAfter(log).value;
    NamespaceHolds(blank, log, key, now);
    if InStep(Replay(blank, log).namespaced, now, key).Some? {
      var i :| WrittenBy(log, i, key, now) && forall j :: WrittenBy(log, j, key, now) ==> j <= i;
      assert Decides(log, key, now, i);
    } else {
      SameWrite(log, j0, key, s0);
      SomeWriteDecides(log[..n], key, j0, s0);
      var s, i :| Decides(log[..n], key, s, i);
      StillDecides(log, key, s, i);
    }
  }
}
