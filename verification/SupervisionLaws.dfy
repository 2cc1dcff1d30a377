/** Who a supervision pass restarts and who it retires, and what spawning does. */
module SupervisionLaws {
  import opened Text
  import opened Numbers
  import opened Sequences
  import opened Supervision

  type Exit = (string, Option<int>)

  /** The policy asks for a restart of a worker that exited like this. */
  predicate Asked(policy: string, code: Option<int>)
  {
    policy == "always" || (policy == "on_failure" && code != Some(0))
  }

  /** The exited worker is tracked, below its limit, and to be restarted. */
  predicate Restarts(cfg: MonitorConfig, w: World, x: Exit)
  {
    x.0 in w.workers && w.workers[x.0] < cfg.maxRestarts && Asked(cfg.policy, x.1)
  }

  /** What a pass does about an exited worker. */
  function Deed(cfg: MonitorConfig, w: World, x: Exit): Event
  {
    if Restarts(cfg, w, x) then Respawn(x.0, Backoff(cfg, w.workers[x.0] + 1), true)
    else Event.Retire(x.0, AtItsLimit(cfg, w, x.0))
  }

  function Deeds(cfg: MonitorConfig, w: World, exited: seq<Exit>): seq<Event>
  {
    if exited == [] then [] else [Deed(cfg, w, exited[0])] + Deeds(cfg, w, exited[1..])
  }

  ghost predicate Exited(exited: seq<Exit>, id: string) { exists x :: x in exited && x.0 == id }

  /** The worker exited and is restarted, in a world `w` at the beginning of the pass. */
  ghost predicate Restarted(cfg: MonitorConfig, w: World, exited: seq<Exit>, id: string)
  {
    exists x :: x in exited && x.0 == id && Restarts(cfg, w, x)
  }

  /** `end` is `w` after each exited worker was restarted or retired as due. */
  ghost predicate AsDue(cfg: MonitorConfig, w: World, exited: seq<Exit>, end: World)
  {
    && (forall id :: id in end.workers <==>
          id in w.workers && (Exited(exited, id) ==> Restarted(cfg, w, exited, id)))
    && (forall id :: id in end.workers ==> end.workers[id] == w.workers[id] + if Exited(exited, id) then 1 else 0)
    && (forall id :: id in end.active <==>
          if Exited(exited, id) then Restarted(cfg, w, exited, id) else id in w.active)
    && end.log == w.log + Deeds(cfg, w, exited) && end.nextSeq == w.nextSeq && end.shut == w.shut
  }

  /** What handling one exited worker does, if a wanted restart starts. */
  function Handled(cfg: MonitorConfig, w: World, x: Exit): World
  {
    if Restarts(cfg, w, x) then TryRespawn(cfg, w, x.0, true).0 else RetireWorker(cfg, w, x.0)
  }

  lemma HandledAsDue(cfg: MonitorConfig, w: World, x: Exit)
    ensures AsDue(cfg, w, [x], Handled(cfg, w, x))
  {
    assert Deeds(cfg, w, [x]) == [Deed(cfg, w, x)] + Deeds(cfg, w, []);
    forall id ensures Exited([x], id) <==> id == x.0 {
      if id == x.0 { assert x in [x]; }
    }
    forall id ensures Restarted(cfg, w, [x], id) <==> id == x.0 && Restarts(cfg, w, x) {
      if id == x.0 && Restarts(cfg, w, x) { assert x in [x]; }
    }
  }

  lemma ReapHandles(cfg: MonitorConfig, w: World, exited: seq<Exit>, starts: string -> bool)
    requires exited != []
    ensures var x := exited[0];
      if Restarts(cfg, w, x) && !starts(x.0)
      then Reap(cfg, w, exited, starts) == (TryRespawn(cfg, w, x.0, false).0, false)
      else Reap(cfg, w, exited, starts) == Reap(cfg, Handled(cfg, w, x), exited[1..], starts)
  {}

  /** What is due for the others does not depend on the first. */
  lemma DueLater(cfg: MonitorConfig, w: World, x: Exit, rest: seq<Exit>, next: World)
    requires DistinctIds([x] + rest) && AsDue(cfg, w, [x], next)
    ensures forall y :: y in rest ==> y.0 != x.0
    ensures forall y :: y in rest ==>
      Restarts(cfg, next, y) == Restarts(cfg, w, y) && Deed(cfg, next, y) == Deed(cfg, w, y)
  {
    var all := [x] + rest;
    forall y | y in rest
      ensures y.0 != x.0 && Restarts(cfg, next, y) == Restarts(cfg, w, y) && Deed(cfg, next, y) == Deed(cfg, w, y)
    {
      var i :| 0 <= i < |rest| && rest[i] == y;
      assert all[0] == x && all[i + 1] == y;
      assert !Exited([x], y.0) && !Exited([x], y.0);
    }
  }

  lemma {:induction false} DeedsAlike(cfg: MonitorConfig, w: World, next: World, rest: seq<Exit>)
    requires forall y :: y in rest ==> Deed(cfg, next, y) == Deed(cfg, w, y)
    ensures Deeds(cfg, next, rest) == Deeds(cfg, w, rest)
  {
    if rest != [] { DeedsAlike(cfg, w, next, rest[1..]); }
  }

  lemma ExitedCons(x: Exit, rest: seq<Exit>, id: string)
    ensures Exited([x] + rest, id) <==> id == x.0 || Exited(rest, id)
  {
    var all := [x] + rest;
    if Exited(rest, id) {
      var y :| y in rest && y.0 == id;
      assert y in all;
    }
    if id == x.0 { assert all[0] == x && x in all; }
  }

  lemma RestartedCons(cfg: MonitorConfig, w: World, x: Exit, rest: seq<Exit>, id: string)
    ensures Restarted(cfg, w, [x] + rest, id) <==> (id == x.0 && Restarts(cfg, w, x)) || Restarted(cfg, w, rest, id)
  {
    var all := [x] + rest;
    if Restarted(cfg, w, rest, id) {
      var y :| y in rest && y.0 == id && Restarts(cfg, w, y);
      assert y in all;
    }
    if id == x.0 && Restarts(cfg, w, x) { assert all[0] == x && x in all; }
  }

  lemma RestartedAlike(cfg: MonitorConfig, w: World, next: World, rest: seq<Exit>, id: string)
    requires forall y :: y in rest ==> Restarts(cfg, next, y) == Restarts(cfg, w, y)
    ensures Restarted(cfg, next, rest, id) == Restarted(cfg, w, rest, id)
  {}

  lemma AsDueCons(cfg: MonitorConfig, w: World, x: Exit, rest: seq<Exit>, next: World, end: World)
    requires DistinctIds([x] + rest) && AsDue(cfg, w, [x], next) && AsDue(cfg, next, rest, end)
    ensures AsDue(cfg, w, [x] + rest, end)
  {
    var all := [x] + rest;
    DueLater(cfg, w, x, rest, next);
    DeedsAlike(cfg, w, next, rest);
    assert [x] + [] == [x] && all[1..] == rest && [x][1..] == [];
    assert w.log + Deeds(cfg, w, [x]) + Deeds(cfg, w, rest) == w.log + Deeds(cfg, w, all);
    forall id
      ensures Exited(all, id) <==> id == x.0 || Exited(rest, id)
      ensures Exited([x], id) <==> id == x.0
      ensures Restarted(cfg, w, [x], id) <==> id == x.0 && Restarts(cfg, w, x)
      ensures Restarted(cfg, w, all, id) <==> (id == x.0 && Restarts(cfg, w, x)) || Restarted(cfg, next, rest, id)
    {
      ExitedCons(x, rest, id);
      ExitedCons(x, [], id);
      RestartedCons(cfg, w, x, rest, id);
      RestartedCons(cfg, w, x, [], id);
      RestartedAlike(cfg, w, next, rest, id);
    }
  }

  lemma NothingDue(cfg: MonitorConfig, w: World)
    ensures AsDue(cfg, w, [], w)
  {
    assert w.log + Deeds(cfg, w, []) == w.log;
  }

  ghost predicate AllStart(cfg: MonitorConfig, w: World, exited: seq<Exit>, starts: string -> bool)
  {
    forall x :: x in exited && Restarts(cfg, w, x) ==> starts(x.0)
  }

  /** The restart of `x` was counted and logged, and could not be started. */
  ghost predicate StuckOn(cfg: MonitorConfig, w: World, x: Exit, mid: World, end: World)
  {
    && Restarts(cfg, w, x) && x.0 in mid.workers && end.workers == mid.workers[x.0 := w.workers[x.0] + 1]
    && end.active == mid.active && end.nextSeq == mid.nextSeq && end.shut == mid.shut
    && end.log == mid.log + [Respawn(x.0, Backoff(cfg, w.workers[x.0] + 1), false)]
  }

  /** The pass did what was due up to exit `i`, where a restart could not be started. */
  ghost predicate StopsAt(cfg: MonitorConfig, w: World, exited: seq<Exit>, starts: string -> bool, i: nat, mid: World,
                          end: World)
  {
    && i < |exited| && AllStart(cfg, w, exited[..i], starts) && !starts(exited[i].0)
    && AsDue(cfg, w, exited[..i], mid) && StuckOn(cfg, w, exited[i], mid, end)
  }

  lemma FirstStuck(cfg: MonitorConfig, w: World, exited: seq<Exit>, starts: string -> bool)
    requires exited != [] && Restarts(cfg, w, exited[0]) && !starts(exited[0].0)
    ensures StopsAt(cfg, w, exited, starts, 0, w, TryRespawn(cfg, w, exited[0].0, false).0)
  {
    assert exited[..0] == [];
    NothingDue(cfg, w);
  }

  lemma StuckAlike(cfg: MonitorConfig, w: World, x: Exit, y: Exit, next: World, mid: World, end: World)
    requires AsDue(cfg, w, [x], next) && x.0 != y.0 && StuckOn(cfg, next, y, mid, end)
    ensures StuckOn(cfg, w, y, mid, end)
  {
    assert !Exited([x], y.0);
  }

  lemma AllStartCons(cfg: MonitorConfig, w: World, x: Exit, rest: seq<Exit>, starts: string -> bool, next: World)
    requires AllStart(cfg, next, rest, starts) && (Restarts(cfg, w, x) ==> starts(x.0))
    requires forall y :: y in rest ==> Restarts(cfg, next, y) == Restarts(cfg, w, y)
    ensures AllStart(cfg, w, [x] + rest, starts)
  {}

  lemma DistinctPrefix(exited: seq<Exit>, n: nat)
    requires DistinctIds(exited) && n <= |exited|
    ensures DistinctIds(exited[..n])
  {}

  lemma StuckLater(cfg: MonitorConfig, w: World, exited: seq<Exit>, starts: string -> bool, next: World, i: nat,
                   mid: World, end: World)
    requires exited != [] && DistinctIds(exited) && AsDue(cfg, w, [exited[0]], next)
    requires Restarts(cfg, w, exited[0]) ==> starts(exited[0].0)
    requires StopsAt(cfg, next, exited[1..], starts, i, mid, end)
    ensures StopsAt(cfg, w, exited, starts, i + 1, mid, end)
  {
    var x, rest := exited[0], exited[1..];
    assert [x] + rest == exited && [x] + rest[..i] == exited[..i + 1];
    assert rest[i] == exited[i + 1] && rest[i] in rest;
    DistinctPrefix(exited, i + 1);
    DueLater(cfg, w, x, rest, next);
    AllStartCons(cfg, w, x, rest[..i], starts, next);
    AsDueCons(cfg, w, x, rest[..i], next, mid);
    StuckAlike(cfg, w, x, rest[i], next, mid, end);
  }

  lemma {:induction false} ReapAsDue(cfg: MonitorConfig, w: World, exited: seq<Exit>, starts: string -> bool)
    requires DistinctIds(exited)
    ensures var (end, done) := Reap(cfg, w, exited, starts);
      && (done <==> AllStart(cfg, w, exited, starts))
      && (done ==> AsDue(cfg, w, exited, end))
      && (!done ==> exists i, mid :: StopsAt(cfg, w, exited, starts, i, mid, end))
    decreases |exited|
  {
    if exited == [] {
      NothingDue(cfg, w);
    } else {
      var x, rest := exited[0], exited[1..];
      var (end, done) := Reap(cfg, w, exited, starts);
      assert [x] + rest == exited && exited[0] in exited;
      ReapHandles(cfg, w, exited, starts);
      if Restarts(cfg, w, x) && !starts(x.0) {
        FirstStuck(cfg, w, exited, starts);
      } else {
        var next := Handled(cfg, w, x);
        HandledAsDue(cfg, w, x);
        ReapAsDue(cfg, next, rest, starts);
        DueLater(cfg, w, x, rest, next);
        assert AllStart(cfg, w, exited, starts) <==> AllStart(cfg, next, rest, starts) by {
          assert forall y :: y in exited <==> y == x || y in rest;
        }
        if done {
          AsDueCons(cfg, w, x, rest, next, end);
        } else {
          var i, mid :| StopsAt(cfg, next, rest, starts, i, mid, end);
          StuckLater(cfg, w, exited, starts, next, i, mid, end);
        }
      }
    }
  }

  /** A pass over distinct exited workers restarts just those that are tracked,
      below their limit and to be restarted by the policy, counting and logging one
      more restart each, and retires all others; it ends early exactly at the first
      wanted restart that cannot be started, which is counted and logged too. */
  lemma TickRestartsExactly(cfg: MonitorConfig, w: World, exited: seq<Exit>, starts: string -> bool)
    requires !w.shut && DistinctIds(exited)
    ensures var (end, done) := Tick(cfg, w, exited, starts);
      && (done <==> AllStart(cfg, w, exited, starts))
      && (done ==> AsDue(cfg, w, exited, end))
      && (!done ==> exists i, mid :: StopsAt(cfg, w, exited, starts, i, mid, end))
  {
    ReapAsDue(cfg, w, exited, starts);
  }

  /** Spawning tracks a worker that starts from no restarts at all, under the next
      number; one that does not start is listed, but not tracked. */
  lemma SpawnTracks(cfg: MonitorConfig, w: World, started: bool)
    ensures var id, end := "worker-" + Decimal(w.nextSeq), Do(cfg, w, SpawnTask(started));
      && end.workers == (if started then w.workers[id := 0] else w.workers)
      && end.log == w.log + (if started then [Track(id)] else [])
      && (forall x :: x in end.active <==> x in w.active || (x == id && (started || id !in w.workers)))
      && end.nextSeq == w.nextSeq + 1 && end.lifecycle == w.lifecycle && end.shut == w.shut
  {}

  lemma SpawnCommandTracks(cfg: MonitorConfig, w: World, id: string, started: bool)
    ensures var end := Do(cfg, w, SpawnCommand(id, started));
      if started then
        && end.workers == w.workers[id := 0] && end.log == w.log + [Track(id)]
        && (forall x :: x in end.active <==> x in w.active || x == id)
        && end.nextSeq == w.nextSeq && end.lifecycle == w.lifecycle && end.shut == w.shut
      else end == w
  {}

  function Spawns(cs: seq<Command>): nat
  {
    if cs == [] then 0 else (if cs[0].SpawnTask? then 1 else 0) + Spawns(cs[1..])
  }

  lemma {:induction false} ReapKeepsNumber(cfg: MonitorConfig, w: World, exited: seq<Exit>, starts: string -> bool)
    ensures Reap(cfg, w, exited, starts).0.nextSeq == w.nextSeq
    decreases |exited|
  {
    if exited != [] {
      var x := exited[0];
      if !(Restarts(cfg, w, x) && !starts(x.0)) { ReapKeepsNumber(cfg, Handled(cfg, w, x), exited[1..], starts); }
      ReapHandles(cfg, w, exited, starts);
    }
  }

  /** Workers spawned by number get the numbers 0, 1, 2 and so on, whatever happens in between. */
  lemma {:induction false} NumbersInOrder(cfg: MonitorConfig, w: World, cs: seq<Command>)
    ensures Run(cfg, w, cs).nextSeq == w.nextSeq + Spawns(cs)
    decreases |cs|
  {
    if cs != [] {
      if cs[0].Supervise? && !w.shut { ReapKeepsNumber(cfg, w, cs[0].exited, cs[0].starts); }
      NumbersInOrder(cfg, Do(cfg, w, cs[0]), cs[1..]);
    }
  }

  // ----- the rest of the monitor

  lemma {:induction false} ShutStays(cfg: MonitorConfig, w: World, cs: seq<Command>)
    requires w.shut
    ensures Run(cfg, w, cs).shut && (w.lifecycle == Stopped ==> Run(cfg, w, cs).lifecycle == Stopped)
    decreases |cs|
  {
    if cs != [] { ShutStays(cfg, Do(cfg, w, cs[0]), cs[1..]); }
  }

  /** A shutdown leaves nothing tracked or listed, and supervises nothing any more. */
  lemma ShutdownIsFinal(cfg: MonitorConfig, w: World, later: seq<Command>, exited: seq<Exit>, starts: string -> bool)
    ensures var s := Do(cfg, w, StopAll);
      && s.workers == map[] && s.active == [] && s.log == w.log
      && Run(cfg, s, later).lifecycle == Stopped
      && Do(cfg, Run(cfg, s, later), Supervise(exited, starts)) == Run(cfg, s, later)
  {
    ShutStays(cfg, Do(cfg, w, StopAll), later);
  }

  /** Without the exponential strategy every restart waits the initial delay. */
  lemma BackoffFixed(cfg: MonitorConfig, attempt: nat)
    ensures cfg.strategy != "exponential" ==> Backoff(cfg, attempt) == cfg.initial
    ensures Backoff(cfg, 0) == Backoff(cfg, 1)
  {}
}
