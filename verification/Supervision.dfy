/** The monitor that restarts exited workers: how often, after what delay, and
    what it reports meanwhile. */
module Supervision {
  import opened Text
  import opened Numbers
  import opened Sequences

  /** One more than the largest 64-bit number. */
  const U64 := 0x1_0000_0000_0000_0000

  datatype MonitorConfig = MonitorConfig(policy: string, maxRestarts: u32, strategy: string, initial: u64,
                                         maxBackoff: u64)

  // ----- the delay before a restart

  /** `x` doubled `n` times. */
  function Doubled(x: nat, n: nat): nat { if n == 0 then x else 2 * Doubled(x, n - 1) }

  /** The delay before restart number `attempt`, in 64-bit arithmetic that wraps around. */
  function Backoff(cfg: MonitorConfig, attempt: nat): nat
  {
    if cfg.strategy == "exponential"
    then Min(Doubled(cfg.initial, if attempt == 0 then 0 else attempt - 1) % U64, cfg.maxBackoff)
    else cfg.initial
  }

  lemma {:induction false} DoubledGrows(x: nat, m: nat, n: nat)
    requires m <= n
    ensures Doubled(x, m) <= Doubled(x, n)
    decreases n
  {
    if m < n { DoubledGrows(x, m, n - 1); }
  }

  /** The delay is the capped doubling exactly when the doubling fits 64 bits or
      what is left of it after wrapping still reaches the cap. */
  lemma BackoffExact(cfg: MonitorConfig, attempt: nat)
    requires cfg.strategy == "exponential" && attempt > 0
    ensures var d := Doubled(cfg.initial, attempt - 1);
      Backoff(cfg, attempt) == Min(d, cfg.maxBackoff) <==> d < U64 || cfg.maxBackoff <= d % U64
  {
    var d := Doubled(cfg.initial, attempt - 1);
    if d >= U64 { assert d % U64 < U64; }
  }

  /** While the doubling fits, delays never shrink and never pass the cap. */
  lemma BackoffGrows(cfg: MonitorConfig, a: nat, b: nat, last: nat)
    requires 1 <= a <= b <= last
    requires cfg.strategy == "exponential" ==> Doubled(cfg.initial, last - 1) < U64
    ensures Backoff(cfg, a) <= Backoff(cfg, b)
    ensures cfg.strategy == "exponential" ==> Backoff(cfg, b) <= cfg.maxBackoff
  {
    DoubledGrows(cfg.initial, a - 1, b - 1);
    DoubledGrows(cfg.initial, b - 1, last - 1);
  }

  lemma {:induction false} DoubledMore(x: nat, m: nat, n: nat)
    ensures Doubled(x, m + n) == Doubled(x * Doubled(1, m), n)
    decreases n, m
  {
    if n > 0 {
      DoubledMore(x, m, n - 1);
    } else if m > 0 {
      DoubledMore(x, m - 1, 0);
      assert Doubled(x, m) == 2 * (x * Doubled(1, m - 1)) == x * Doubled(1, m);
    }
  }

  lemma DoubledSixteen()
    ensures Doubled(1, 16) == 0x1_0000
  {
    assert Doubled(1, 4) == 16;
    assert Doubled(1, 8) == 256;
    assert Doubled(1, 12) == 4096;
  }

  lemma DoubledSixtyFour()
    ensures Doubled(1, 64) == U64
  {
    DoubledSixteen();
    DoubledMore(1, 16, 48);
    DoubledMore(0x1_0000, 16, 32);
    DoubledMore(0x1_0000_0000, 16, 16);
    DoubledMore(0x1_0000_0000_0000, 16, 0);
  }

  /** Past 64 doublings the delay collapses: restart 65 of a one-second backoff waits not at all. */
  lemma BackoffCollapses(cfg: MonitorConfig)
    requires cfg.strategy == "exponential" && cfg.initial == 1
    ensures Backoff(cfg, 65) == 0 && Backoff(cfg, 1) == Min(1, cfg.maxBackoff)
  {
    DoubledSixtyFour();
    assert U64 % U64 == 0;
  }

  // ----- the monitor's state

  datatype Lifecycle = Running | Degraded | Stopping | Stopped

  datatype Event =
    | Track(id: string)
    | Respawn(id: string, delay: nat, started: bool)
    | Retire(id: string, atLimit: bool)

  /** `workers` maps each tracked worker to its restart count; `log` is all that was done. */
  datatype World = World(workers: map<string, nat>, active: seq<string>, lifecycle: Lifecycle, shut: bool,
                         nextSeq: nat, log: seq<Event>)

  const START := World(map[], [], Running, false, 0, [])

  function Listed(active: seq<string>, id: string): seq<string> { if id in active then active else active + [id] }

  function Unlisted(active: seq<string>, id: string): (r: seq<string>)
    ensures forall x :: x in r <==> x in active && x != id
    ensures NoDuplicates(active) ==> NoDuplicates(r)
  {
    if active == [] then []
    else
      assert NoDuplicates(active) ==> NoDuplicates(active[1..]) && active[0] !in active[1..];
      (if active[0] == id then [] else [active[0]]) + Unlisted(active[1..], id)
  }

  function TrackNew(w: World, id: string, started: bool): World
  {
    if !started then w
    else w.(workers := w.workers[id := 0], active := Listed(w.active, id), log := w.log + [Track(id)])
  }

  /** A worker that cannot be started is listed as active all the same. */
  function TrackTask(w: World, started: bool): World
  {
    var id := "worker-" + Decimal(w.nextSeq);
    var tracked := TrackNew(w.(nextSeq := w.nextSeq + 1), id, started);
    if id in tracked.workers then tracked else tracked.(active := Listed(tracked.active, id))
  }

  /** Exit code `None`: killed by a signal. */
  predicate ShouldRestart(cfg: MonitorConfig, code: Option<int>)
  {
    cfg.policy == "always" || (cfg.policy == "on_failure" && code != Some(0))
  }

  datatype Attempt = Restarted | AtLimit | SpawnFailed

  function TryRespawn(cfg: MonitorConfig, w: World, id: string, started: bool): (World, Attempt)
  {
    if id !in w.workers || w.workers[id] >= cfg.maxRestarts then (w, AtLimit)
    else
      var count := w.workers[id] + 1;
      var logged := w.(workers := w.workers[id := count], log := w.log + [Respawn(id, Backoff(cfg, count), started)]);
      if started then (logged.(active := Listed(w.active, id)), Restarted) else (logged, SpawnFailed)
  }

  function RetireWorker(cfg: MonitorConfig, w: World, id: string): World
  {
    var atLimit := id in w.workers && w.workers[id] >= cfg.maxRestarts;
    w.(workers := w.workers - {id}, active := Unlisted(w.active, id),
       lifecycle := if atLimit then Degraded else w.lifecycle, log := w.log + [Retire(id, atLimit)])
  }

  /** The exited workers one by one; a restart that cannot be started ends the pass. */
  function Reap(cfg: MonitorConfig, w: World, exited: seq<(string, Option<int>)>, starts: string -> bool): (World, bool)
    decreases |exited|
  {
    if exited == [] then (w, true)
    else
      var (id, code) := exited[0];
      if !ShouldRestart(cfg, code) then Reap(cfg, RetireWorker(cfg, w, id), exited[1..], starts)
      else
        var (tried, attempt) := TryRespawn(cfg, w, id, starts(id));
        match attempt
        case Restarted => Reap(cfg, tried, exited[1..], starts)
        case AtLimit => Reap(cfg, RetireWorker(cfg, tried, id), exited[1..], starts)
        case SpawnFailed => (tried, false)
  }

  function Tick(cfg: MonitorConfig, w: World, exited: seq<(string, Option<int>)>, starts: string -> bool): (World, bool)
  {
    if w.shut then (w, true) else Reap(cfg, w, exited, starts)
  }

  function Shut(w: World): World { w.(workers := map[], active := [], lifecycle := Stopped, shut := true) }

  /** The supervisor object. */
  class Monitor {
    const cfg: MonitorConfig
    var workers: map<string, nat>
    var active: seq<string>
    var lifecycle: Lifecycle
    var shut: bool
    var nextSeq: nat
    ghost var log: seq<Event>

    ghost function Now(): World reads this { World(workers, active, lifecycle, shut, nextSeq, log) }

    constructor (cfg: MonitorConfig)
      ensures this.cfg == cfg && Now() == START
    {
      this.cfg := cfg;
      workers, active, lifecycle, shut, nextSeq, log := map[], [], Running, false, 0, [];
    }

    method MarkActive(id: string)
      modifies `active
      ensures active == Listed(old(active), id)
    {
      if id !in active { active := active + [id]; }
    }

    method SpawnWorkerCommand(id: string, started: bool) returns (ok: bool)
      modifies this
      ensures Now() == TrackNew(old(Now()), id, started) && ok == started
    {
      if !started {
        return false;
      }
      log := log + [Track(id)];
      workers := workers[id := 0];
      MarkActive(id);
      return true;
    }

    method SpawnWorker(started: bool) returns (id: string)
      modifies this
      ensures Now() == TrackTask(old(Now()), started)
    {
      id := "worker-" + Decimal(nextSeq);
      nextSeq := nextSeq + 1;
      var ok := SpawnWorkerCommand(id, started);
      if id !in workers { MarkActive(id); }
    }

    method TryRespawnWorker(id: string, started: bool) returns (attempt: Attempt)
      modifies this
      ensures (Now(), attempt) == TryRespawn(cfg, old(Now()), id, started)
    {
      if id !in workers || workers[id] >= cfg.maxRestarts {
        return AtLimit;
      }
      workers := workers[id := workers[id] + 1];
      log := log + [Respawn(id, Backoff(cfg, workers[id]), started)];
      if !started {
        return SpawnFailed;
      }
      MarkActive(id);
      return Restarted;
    }

    method Retire(id: string)
      modifies this
      ensures Now() == RetireWorker(cfg, old(Now()), id)
    {
      var atLimit := id in workers && workers[id] >= cfg.maxRestarts;
      log := log + [Event.Retire(id, atLimit)];
      workers := workers - {id};
      active := Unlisted(active, id);
      if atLimit { lifecycle := Degraded; }
    }

    /** One supervision pass over the workers seen to have exited. */
    method SuperviseTick(exited: seq<(string, Option<int>)>, starts: string -> bool) returns (ok: bool)
      modifies this
      ensures (Now(), ok) == Tick(cfg, old(Now()), exited, starts)
    {
      if shut {
        return true;
      }
      for i := 0 to |exited|
        invariant shut == old(shut)
        invariant Reap(cfg, Now(), exited[i..], starts) == Reap(cfg, old(Now()), exited, starts)
      {
        var (id, code) := exited[i];
        assert exited[i..][1..] == exited[i + 1..];
        var restarted := false;
        if ShouldRestart(cfg, code) {
          var attempt := TryRespawnWorker(id, starts(id));
          if attempt == SpawnFailed {
            return false;
          }
          restarted := attempt == Restarted;
        }
        if !restarted {
          Retire(id);
        }
      }
      return true;
    }

    method Shutdown()
      modifies this
      ensures Now() == Shut(old(Now()))
    {
      shut := true;
      lifecycle := Stopping;
      workers := map[];
      active := [];
      lifecycle := Stopped;
    }
  }

  // ----- what holds over every run

  datatype Command =
    | SpawnTask(started: bool)
    | SpawnCommand(id: string, started: bool)
    | Supervise(exited: seq<(string, Option<int>)>, starts: string -> bool)
    | StopAll

  function Do(cfg: MonitorConfig, w: World, c: Command): World
  {
    match c
    case SpawnTask(started) => TrackTask(w, started)
    case SpawnCommand(id, started) => TrackNew(w, id, started)
    case Supervise(exited, starts) => Tick(cfg, w, exited, starts).0
    case StopAll => Shut(w)
  }

  function Run(cfg: MonitorConfig, w: World, cs: seq<Command>): World
    decreases |cs|
  {
    if cs == [] then w else Run(cfg, Do(cfg, w, cs[0]), cs[1..])
  }

  /** How often the worker tracked under `id` was started, or tried to be; 0 once it is retired. */
  function Starts(log: seq<Event>, id: string): nat
  {
    if log == [] then 0
    else match log[|log| - 1]
         case Track(i) => if i == id then 1 else Starts(log[..|log| - 1], id)
         case Respawn(i, _, _) => Starts(log[..|log| - 1], id) + (if i == id then 1 else 0)
         case Retire(i, _) => if i == id then 0 else Starts(log[..|log| - 1], id)
  }

  lemma StartsAppend(log: seq<Event>, e: Event, id: string)
    ensures Starts(log + [e], id) == match e
      case Track(i) => if i == id then 1 else Starts(log, id)
      case Respawn(i, _, _) => Starts(log, id) + (if i == id then 1 else 0)
      case Retire(i, _) => if i == id then 0 else Starts(log, id)
  {
    assert (log + [e])[..|log|] == log;
  }

  /** Every restart waits the delay its number asks for, and is within the limit. */
  ghost predicate RestartsInOrder(cfg: MonitorConfig, log: seq<Event>)
  {
    forall i :: 0 <= i < |log| && log[i].Respawn? ==>
      var n := Starts(log[..i], log[i].id);
      1 <= n <= cfg.maxRestarts && log[i].delay == Backoff(cfg, n)
  }

  /** Some worker was retired at its limit. */
  ghost predicate LimitMet(log: seq<Event>) { exists e :: e in log && e.Retire? && e.atLimit }

  lemma LimitMetAppend(log: seq<Event>, e: Event)
    ensures LimitMet(log + [e]) <==> LimitMet(log) || (e.Retire? && e.atLimit)
  {
    var all := log + [e];
    assert all[|log|] == e && forall x :: x in all <==> x in log || x == e;
  }

  ghost predicate Invariant(cfg: MonitorConfig, w: World)
  {
    && (forall id :: id in w.workers ==> id in w.active && w.workers[id] <= cfg.maxRestarts
                                         && Starts(w.log, id) == w.workers[id] + 1)
    && NoDuplicates(w.active)
    && RestartsInOrder(cfg, w.log)
    && w.lifecycle == (if w.shut then Stopped else if LimitMet(w.log) then Degraded else Running)
  }

  lemma InOrderAppend(cfg: MonitorConfig, log: seq<Event>, e: Event)
    requires RestartsInOrder(cfg, log)
    requires e.Respawn? ==> 1 <= Starts(log, e.id) <= cfg.maxRestarts && e.delay == Backoff(cfg, Starts(log, e.id))
    ensures RestartsInOrder(cfg, log + [e])
  {
    var all := log + [e];
    forall i | 0 <= i < |all| && all[i].Respawn?
      ensures var n := Starts(all[..i], all[i].id);
        1 <= n <= cfg.maxRestarts && all[i].delay == Backoff(cfg, n)
    {
      assert all[..i] == log[..i] && log[..|log|] == log;
    }
  }

  lemma TrackKeeps(cfg: MonitorConfig, w: World, id: string, started: bool)
    requires Invariant(cfg, w)
    ensures Invariant(cfg, TrackNew(w, id, started))
  {
    InOrderAppend(cfg, w.log, Track(id));
    forall i { StartsAppend(w.log, Track(id), i); }
    LimitMetAppend(w.log, Track(id));
  }

  lemma RespawnKeeps(cfg: MonitorConfig, w: World, id: string, started: bool)
    requires Invariant(cfg, w)
    ensures Invariant(cfg, TryRespawn(cfg, w, id, started).0) && TryRespawn(cfg, w, id, started).0.shut == w.shut
  {
    if id in w.workers && w.workers[id] < cfg.maxRestarts {
      var e := Respawn(id, Backoff(cfg, w.workers[id] + 1), started);
      InOrderAppend(cfg, w.log, e);
      forall i { StartsAppend(w.log, e, i); }
      LimitMetAppend(w.log, e);
    }
  }

  lemma RetireKeeps(cfg: MonitorConfig, w: World, id: string)
    requires Invariant(cfg, w) && !w.shut
    ensures Invariant(cfg, RetireWorker(cfg, w, id)) && !RetireWorker(cfg, w, id).shut
  {
    var e := Event.Retire(id, id in w.workers && w.workers[id] >= cfg.maxRestarts);
    InOrderAppend(cfg, w.log, e);
    forall i { StartsAppend(w.log, e, i); }
    LimitMetAppend(w.log, e);
  }

  lemma {:induction false} ReapKeeps(cfg: MonitorConfig, w: World, exited: seq<(string, Option<int>)>,
                                     starts: string -> bool)
    requires Invariant(cfg, w) && !w.shut
    ensures Invariant(cfg, Reap(cfg, w, exited, starts).0)
    decreases |exited|
  {
    if exited != [] {
      var (id, code) := exited[0];
      if !ShouldRestart(cfg, code) {
        RetireKeeps(cfg, w, id);
        ReapKeeps(cfg, RetireWorker(cfg, w, id), exited[1..], starts);
      } else {
        RespawnKeeps(cfg, w, id, starts(id));
        var (tried, attempt) := TryRespawn(cfg, w, id, starts(id));
        if attempt == Restarted {
          ReapKeeps(cfg, tried, exited[1..], starts);
        } else if attempt == AtLimit {
          RetireKeeps(cfg, tried, id);
          ReapKeeps(cfg, RetireWorker(cfg, tried, id), exited[1..], starts);
        }
      }
    }
  }

  /** Every command keeps the supervisor's invariant, so it holds in every run:
      tracked workers are listed once as active; a worker is started at most
      once more than the restart limit, each restart after the delay its number
      asks for; and the monitor is degraded, up to its shutdown, exactly when a
      worker was retired at its limit. */
  lemma {:induction false} RunKeeps(cfg: MonitorConfig, w: World, cs: seq<Command>)
    requires Invariant(cfg, w)
    ensures Invariant(cfg, Run(cfg, w, cs))
    decreases |cs|
  {
    if cs != [] {
      match cs[0] {
        case SpawnTask(started) =>
          TrackKeeps(cfg, w.(nextSeq := w.nextSeq + 1), "worker-" + Decimal(w.nextSeq), started);
        case SpawnCommand(id, started) => TrackKeeps(cfg, w, id, started);
        case Supervise(exited, starts) => if !w.shut { ReapKeeps(cfg, w, exited, starts); }
        case StopAll =>
      }
      RunKeeps(cfg, Do(cfg, w, cs[0]), cs[1..]);
    }
  }

  lemma {:induction false} StartsBounded(cfg: MonitorConfig, log: seq<Event>, id: string)
    requires RestartsInOrder(cfg, log)
    ensures Starts(log, id) <= cfg.maxRestarts + 1
  {
    if log != [] {
      var rest := log[..|log| - 1];
      assert forall i :: 0 <= i < |rest| ==> rest[..i] == log[..i];
      StartsBounded(cfg, rest, id);
      var e := log[|log| - 1];
      assert e.Respawn? ==> Starts(log[..|log| - 1], e.id) <= cfg.maxRestarts;
    }
  }

  /** The event neither begins nor ends the tracking of `id`. */
  predicate SameWorker(e: Event, id: string) { e.Respawn? || e.id != id }

  /** Between two restarts of the same tracked worker the start count only grows. */
  lemma {:induction false} StartsGrow(log: seq<Event>, i: nat, j: nat, id: string)
    requires i <= j <= |log| && forall k :: i <= k < j ==> SameWorker(log[k], id)
    ensures Starts(log[..i], id) <= Starts(log[..j], id)
    decreases j
  {
    if i < j {
      StartsGrow(log, i, j - 1, id);
      assert log[..j] == log[..j - 1] + [log[j - 1]];
      StartsAppend(log[..j - 1], log[j - 1], id);
    }
  }

  predicate RestartOf(e: Event, id: string) { e.Respawn? && e.id == id }

  predicate DoublingFits(cfg: MonitorConfig)
  {
    cfg.strategy == "exponential" && cfg.maxRestarts > 0 ==> Doubled(cfg.initial, cfg.maxRestarts - 1) < U64
  }

  /** Later restarts of the same tracked worker wait no shorter, and no longer than the cap. */
  ghost predicate DelaysGrow(cfg: MonitorConfig, log: seq<Event>, id: string)
  {
    forall i, j :: 0 <= i <= j < |log| && RestartOf(log[i], id) && RestartOf(log[j], id)
                   && (forall k :: i <= k < j ==> SameWorker(log[k], id)) ==>
      log[i].delay <= log[j].delay && (cfg.strategy == "exponential" ==> log[j].delay <= cfg.maxBackoff)
  }

  /** In every run: no worker is started more than `maxRestarts + 1` times, and
      the delays of its restarts never shrink and stay within the cap, provided
      the largest doubling fits 64 bits. */
  lemma SupervisionBounded(cfg: MonitorConfig, cs: seq<Command>, id: string)
    ensures Starts(Run(cfg, START, cs).log, id) <= cfg.maxRestarts + 1
    ensures DoublingFits(cfg) ==> DelaysGrow(cfg, Run(cfg, START, cs).log, id)
  {
    RunKeeps(cfg, START, cs);
    var log := Run(cfg, START, cs).log;
    StartsBounded(cfg, log, id);
    if DoublingFits(cfg) {
      forall i, j | 0 <= i <= j < |log| && RestartOf(log[i], id) && RestartOf(log[j], id)
                    && forall k :: i <= k < j ==> SameWorker(log[k], id)
        ensures log[i].delay <= log[j].delay && (cfg.strategy == "exponential" ==> log[j].delay <= cfg.maxBackoff)
      {
        StartsGrow(log, i, j, id);
        BackoffGrows(cfg, Starts(log[..i], id), Starts(log[..j], id), cfg.maxRestarts);
      }
    }
  }

  lemma {:induction false} ShutExactly(cfg: MonitorConfig, w: World, cs: seq<Command>)
    ensures Run(cfg, w, cs).shut <==> w.shut || StopAll in cs
    decreases |cs|
  {
    if cs != [] {
      if cs[0].Supervise? && !w.shut { ReapNeverShuts(cfg, w, cs[0].exited, cs[0].starts); }
      ShutExactly(cfg, Do(cfg, w, cs[0]), cs[1..]);
      assert StopAll in cs <==> cs[0] == StopAll || StopAll in cs[1..];
    }
  }

  lemma ReapNeverShuts(cfg: MonitorConfig, w: World, exited: seq<(string, Option<int>)>, starts: string -> bool)
    ensures Reap(cfg, w, exited, starts).0.shut == w.shut
    decreases |exited|
  {}

  /** The monitor reports itself degraded exactly when it was not shut down and
      some worker was retired at its restart limit, however long ago. */
  lemma DegradedExactly(cfg: MonitorConfig, cs: seq<Command>)
    ensures var w := Run(cfg, START, cs);
      w.lifecycle == Degraded <==> StopAll !in cs && exists e :: e in w.log && e.Retire? && e.atLimit
  {
    RunKeeps(cfg, START, cs);
    ShutExactly(cfg, START, cs);
  }

  /** Every tracked worker is listed as active, and nothing is listed twice. */
  lemma TrackedAreListed(cfg: MonitorConfig, cs: seq<Command>)
    ensures var w := Run(cfg, START, cs);
      NoDuplicates(w.active) && forall id :: id in w.workers ==> id in w.active
  {
    RunKeeps(cfg, START, cs);
  }

  predicate AtItsLimit(cfg: MonitorConfig, w: World, id: string)
  {
    id in w.workers && w.workers[id] >= cfg.maxRestarts
  }

  predicate DistinctIds(exited: seq<(string, Option<int>)>)
  {
    forall i, j :: 0 <= i < j < |exited| ==> exited[i].0 != exited[j].0
  }

  ghost predicate SomeAtLimit(cfg: MonitorConfig, w: World, exited: seq<(string, Option<int>)>)
  {
    exists x :: x in exited && AtItsLimit(cfg, w, x.0)
  }

  lemma {:induction false} ReapReports(cfg: MonitorConfig, w: World, exited: seq<(string, Option<int>)>,
                                       starts: string -> bool)
    requires DistinctIds(exited)
    ensures var (end, done) := Reap(cfg, w, exited, starts);
      && (done ==> end.lifecycle == if SomeAtLimit(cfg, w, exited) then Degraded else w.lifecycle)
      && (end.lifecycle != w.lifecycle ==> end.lifecycle == Degraded && SomeAtLimit(cfg, w, exited))
    decreases |exited|
  {
    if exited != [] {
      var (id, code) := exited[0];
      var rest := exited[1..];
      var (tried, attempt) := TryRespawn(cfg, w, id, starts(id));
      var next := if !ShouldRestart(cfg, code) || attempt == AtLimit then RetireWorker(cfg, w, id) else tried;
      assert exited[0] in exited && forall x :: x in exited <==> x == exited[0] || x in rest;
      forall x | x in rest ensures AtItsLimit(cfg, next, x.0) <==> AtItsLimit(cfg, w, x.0) {
        var i :| 0 <= i < |rest| && rest[i] == x;
        assert exited[i + 1] == x && x.0 != id;
      }
      if !ShouldRestart(cfg, code) || attempt != SpawnFailed {
        ReapReports(cfg, next, rest, starts);
      }
    }
  }

  /** A pass that completes degrades the monitor exactly when one of the exited
      workers was at its restart limit, whatever the policy and however it exited,
      even with success under a policy that would not restart it. */
  lemma TickDegradesExactly(cfg: MonitorConfig, w: World, exited: seq<(string, Option<int>)>, starts: string -> bool)
    requires !w.shut && DistinctIds(exited)
    ensures var (end, done) := Tick(cfg, w, exited, starts);
      && (done ==> end.lifecycle == if SomeAtLimit(cfg, w, exited) then Degraded else w.lifecycle)
      && (end.lifecycle != w.lifecycle ==> end.lifecycle == Degraded && SomeAtLimit(cfg, w, exited))
  {
    ReapReports(cfg, w, exited, starts);
  }
}
