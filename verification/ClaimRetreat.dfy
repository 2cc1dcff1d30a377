/** What claiming before counting costs: how far the active leases can pass the
    limit in between, and when every claimer can be turned away. */
module ClaimRetreat {
  import opened Text
  import opened ClaimModel
  import opened Leases
  import opened ClaimLimit

  /** Every issue some claimer goes for. */
  function Wanted(g: Game): set<IssueKey> { set k | k in g.keys }

  predicate NoResume(es: seq<Event>) { forall e :: e in es ==> !e.Resume? }

  predicate OnlyClaimers(es: seq<Event>) { forall e :: e in es ==> e.TryClaim? || e.CountActive? || e.GiveUp? }

  predicate DistinctKeys(g: Game) { forall i, j :: 0 <= i < j < |g.keys| ==> g.keys[i] != g.keys[j] }

  predicate AllFree(g: Game, s: State) { forall k :: k in g.keys ==> Free(s, k) }

  predicate RowIs(s: State, k: IssueKey, r: Row) { k in s.rows && s.rows[k] == r }

  /** Claimer `i` got its issue, found the limit passed and gave the issue back. */
  predicate TurnedAway(g: Game, s: State, i: nat)
    requires i < |s.phases| == |g.keys|
  {
    s.phases[i] == Over && RowIs(s, g.keys[i], Row(Lease(g.config, Abandoned), Some(i)))
  }

  predicate NobodyIn(g: Game, s: State)
    requires |s.phases| == |g.keys|
  {
    forall i :: 0 <= i < |g.keys| ==> TurnedAway(g, s, i)
  }

  lemma {:induction false} PlayShape(g: Game, s: State, es: seq<Event>)
    requires |s.phases| == |g.keys|
    ensures |Play(g, s, es).phases| == |g.keys|
    decreases |es|
  {
    if es != [] {
      PlayShape(g, Step(g, s, es[0]), es[1..]);
    }
  }

  lemma {:induction false} PlayConcat(g: Game, s: State, es: seq<Event>, fs: seq<Event>)
    requires |s.phases| == |g.keys|
    ensures |Play(g, s, es).phases| == |g.keys|
    ensures Play(g, s, es + fs) == Play(g, Play(g, s, es), fs)
    decreases |es|
  {
    if es == [] {
      assert es + fs == fs;
    } else {
      assert (es + fs)[1..] == es[1..] + fs;
      PlayConcat(g, Step(g, s, es[0]), es[1..], fs);
    }
  }

  /** Without resumes only the claimers add to the active leases. */
  ghost predicate Confined(g: Game, s: State, most: set<IssueKey>)
  {
    |s.phases| == |g.keys| && Wanted(g) <= most && Held(g, s) <= most
  }

  lemma {:induction false} PlayConfined(g: Game, s: State, es: seq<Event>, most: set<IssueKey>)
    requires Confined(g, s, most) && NoResume(es)
    ensures Confined(g, Play(g, s, es), most)
    decreases |es|
  {
    if es != [] {
      StepConfined(g, s, es[0], most);
      PlayConfined(g, Step(g, s, es[0]), es[1..], most);
    }
  }

  lemma StepConfined(g: Game, s: State, e: Event, most: set<IssueKey>)
    requires Confined(g, s, most) && !e.Resume?
    ensures Confined(g, Step(g, s, e), most)
  {
    var s' := Step(g, s, e);
    assert |s'.phases| == |g.keys|;
    forall k | k in Held(g, s') ensures k in most {
      if k !in Held(g, s) {
        assert k in Wanted(g);
      }
    }
  }

  /** With room for all of them, a claimer that has claimed is counting or in. */
  ghost predicate Welcome(g: Game, s: State)
  {
    && |s.phases| == |g.keys|
    && GivingUp !in s.phases
    && (forall k :: k in s.rows && s.rows[k].holder.Some? ==>
          s.rows[k].holder.value < |s.phases| && s.phases[s.rows[k].holder.value] in {Counting, Passed})
  }

  lemma StepWelcome(g: Game, s: State, e: Event)
    requires Welcome(g, s) && |Held(g, s)| <= g.max
    ensures Welcome(g, Step(g, s, e))
  {}

  lemma {:induction false} PlayWelcome(g: Game, s: State, es: seq<Event>, most: set<IssueKey>)
    requires Welcome(g, s) && Confined(g, s, most) && |most| <= g.max && NoResume(es)
    ensures Welcome(g, Play(g, s, es))
    decreases |es|
  {
    if es != [] {
      Fewer(Held(g, s), most);
      StepWelcome(g, s, es[0]);
      StepConfined(g, s, es[0], most);
      PlayWelcome(g, Step(g, s, es[0]), es[1..], most);
    }
  }

  function Claims(n: nat): seq<Event> { seq(n, i requires i >= 0 => TryClaim(i)) }

  function Counts(n: nat): seq<Event> { seq(n, i requires i >= 0 => CountActive(i)) }

  function Retreats(n: nat): seq<Event> { seq(n, i requires i >= 0 => GiveUp(i)) }

  /** The first `n` claimers have claimed, the others wait. */
  ghost predicate HaveClaimed(g: Game, start: State, s: State, n: nat)
  {
    && |s.phases| == |g.keys| >= n
    && (forall i :: 0 <= i < n ==>
          s.phases[i] == Counting && RowIs(s, g.keys[i], Row(Lease(g.config, Claimed), Some(i))))
    && (forall i :: n <= i < |g.keys| ==> s.phases[i] == Idle)
    && (forall k :: k !in g.keys[..n] ==> SameRow(start, s, k))
  }

  predicate SameRow(s: State, t: State, k: IssueKey)
  {
    (k in s.rows <==> k in t.rows) && (k in s.rows ==> s.rows[k] == t.rows[k])
  }

  lemma {:induction false} ClaimAll(g: Game, s: State, n: nat)
    requires Starting(g, s) && DistinctKeys(g) && AllFree(g, s) && n <= |g.keys|
    ensures HaveClaimed(g, s, Play(g, s, Claims(n)), n)
  {
    if n > 0 {
      ClaimAll(g, s, n - 1);
      assert Claims(n) == Claims(n - 1) + [TryClaim(n - 1)];
      PlayConcat(g, s, Claims(n - 1), [TryClaim(n - 1)]);
      var before := Play(g, s, Claims(n - 1));
      PlayOne(g, before, TryClaim(n - 1));
      OneMoreClaim(g, s, before, n - 1);
    }
  }

  lemma PlayOne(g: Game, s: State, e: Event)
    requires |s.phases| == |g.keys|
    ensures Play(g, s, [e]) == Step(g, s, e)
  {
    var next := Step(g, s, e);
    assert Play(g, next, [e][1..]) == next;
  }

  lemma OneMoreClaim(g: Game, start: State, s: State, n: nat)
    requires DistinctKeys(g) && AllFree(g, start) && n < |g.keys| && HaveClaimed(g, start, s, n)
    ensures HaveClaimed(g, start, Step(g, s, TryClaim(n)), n + 1)
  {
    var k := g.keys[n];
    assert k !in g.keys[..n];
    assert k in g.keys && Free(start, k);
    assert SameRow(start, s, k) && Free(s, k);
    var s' := Step(g, s, TryClaim(n));
    assert g.keys[..n + 1] == g.keys[..n] + [k];
    assert forall q :: q !in g.keys[..n + 1] ==> SameRow(s, s', q);
  }

  lemma AllHeld(g: Game, start: State, s: State)
    requires HaveClaimed(g, start, s, |g.keys|)
    ensures Held(g, s) == Held(g, start) + Wanted(g)
  {
    assert g.keys[..|g.keys|] == g.keys;
    forall k ensures k in Held(g, s) <==> k in Held(g, start) + Wanted(g) {
      if k in Wanted(g) {
        var i :| 0 <= i < |g.keys| && g.keys[i] == k;
        assert RowIs(s, g.keys[i], Row(Lease(g.config, Claimed), Some(i)));
      } else {
        assert SameRow(start, s, k);
      }
    }
  }

  /** The first `n` claimers found the limit passed. */
  ghost predicate HaveCounted(g: Game, claimed: State, s: State, n: nat)
  {
    && |s.phases| == |claimed.phases| == |g.keys| >= n
    && s.rows == claimed.rows
    && (forall i :: 0 <= i < |g.keys| ==> s.phases[i] == if i < n then GivingUp else Counting)
  }

  lemma {:induction false} CountAll(g: Game, s: State, n: nat)
    requires HaveCounted(g, s, s, 0) && n <= |g.keys| && |Held(g, s)| > g.max
    ensures HaveCounted(g, s, Play(g, s, Counts(n)), n)
  {
    if n > 0 {
      CountAll(g, s, n - 1);
      assert Counts(n) == Counts(n - 1) + [CountActive(n - 1)];
      PlayConcat(g, s, Counts(n - 1), [CountActive(n - 1)]);
      var before := Play(g, s, Counts(n - 1));
      PlayOne(g, before, CountActive(n - 1));
      assert Held(g, before) == Held(g, s);
    }
  }

  /** The first `n` claimers have given their issue back, the others are about to. */
  ghost predicate HaveGivenUp(g: Game, s: State, n: nat)
  {
    && |s.phases| == |g.keys| >= n
    && (forall i :: 0 <= i < n ==> TurnedAway(g, s, i))
    && (forall i :: n <= i < |g.keys| ==>
          s.phases[i] == GivingUp && RowIs(s, g.keys[i], Row(Lease(g.config, Claimed), Some(i))))
  }

  lemma {:induction false} GiveUpAll(g: Game, s: State, n: nat)
    requires DistinctKeys(g) && HaveGivenUp(g, s, 0) && n <= |g.keys|
    ensures HaveGivenUp(g, Play(g, s, Retreats(n)), n)
  {
    if n > 0 {
      GiveUpAll(g, s, n - 1);
      assert Retreats(n) == Retreats(n - 1) + [GiveUp(n - 1)];
      PlayConcat(g, s, Retreats(n - 1), [GiveUp(n - 1)]);
      var before := Play(g, s, Retreats(n - 1));
      PlayOne(g, before, GiveUp(n - 1));
      OneMoreRetreat(g, before, n - 1);
    }
  }

  lemma OneMoreRetreat(g: Game, s: State, n: nat)
    requires DistinctKeys(g) && n < |g.keys| && HaveGivenUp(g, s, n)
    ensures HaveGivenUp(g, Step(g, s, GiveUp(n)), n + 1)
  {
    var s' := Step(g, s, GiveUp(n));
    assert RowIs(s, g.keys[n], Row(Lease(g.config, Claimed), Some(n)));
    forall i | 0 <= i < n + 1 ensures TurnedAway(g, s', i) {
      if i < n {
        assert TurnedAway(g, s, i) && g.keys[i] != g.keys[n];
      }
    }
    forall i | n + 1 <= i < |g.keys|
      ensures s'.phases[i] == GivingUp && RowIs(s', g.keys[i], Row(Lease(g.config, Claimed), Some(i)))
    {
      assert RowIs(s, g.keys[i], Row(Lease(g.config, Claimed), Some(i))) && g.keys[i] != g.keys[n];
    }
  }

  /** All claim, then all count, then all give up. */
  function Stampede(n: nat): seq<Event> { Claims(n) + (Counts(n) + Retreats(n)) }

  lemma StampedeEmpties(g: Game, s: State)
    requires Starting(g, s) && DistinctKeys(g) && AllFree(g, s) && |Held(g, s) + Wanted(g)| > g.max
    ensures |Play(g, s, Stampede(|g.keys|)).phases| == |g.keys| && NobodyIn(g, Play(g, s, Stampede(|g.keys|)))
  {
    var n := |g.keys|;
    ClaimAll(g, s, n);
    var claimed := Play(g, s, Claims(n));
    AllHeld(g, s, claimed);
    CountAll(g, claimed, n);
    var counted := Play(g, claimed, Counts(n));
    GiveUpAll(g, counted, n);
    PlayConcat(g, s, Claims(n), Counts(n) + Retreats(n));
    PlayConcat(g, claimed, Counts(n), Retreats(n));
  }

  ghost predicate EndsEmpty(g: Game, s: State, es: seq<Event>)
    requires |s.phases| == |g.keys|
  {
    PlayShape(g, s, es);
    NobodyIn(g, Play(g, s, es))
  }

  lemma NobodyOnlyWhenFull(g: Game, s: State, es: seq<Event>)
    requires Starting(g, s) && |g.keys| > 0 && NoResume(es) && EndsEmpty(g, s, es)
    ensures |Held(g, s) + Wanted(g)| > g.max
  {
    var end := Play(g, s, es);
    PlayShape(g, s, es);
    assert TurnedAway(g, end, 0) && RowIs(end, g.keys[0], Row(Lease(g.config, Abandoned), Some(0)));
    if |Held(g, s) + Wanted(g)| <= g.max {
      PlayWelcome(g, s, es, Held(g, s) + Wanted(g));
    }
  }

  /** Claimers of distinct, free issues can all be turned away, whatever else
      happens short of a resume, exactly when the active leases and the wanted
      issues together are more than the limit, however much room there was. */
  lemma NobodyInExactly(g: Game, s: State)
    requires Starting(g, s) && DistinctKeys(g) && AllFree(g, s) && |g.keys| > 0
    ensures (exists es :: NoResume(es) && EndsEmpty(g, s, es)) <==> |Held(g, s) + Wanted(g)| > g.max
    ensures (exists es :: OnlyClaimers(es) && EndsEmpty(g, s, es)) <==> |Held(g, s) + Wanted(g)| > g.max
  {
    if es :| NoResume(es) && EndsEmpty(g, s, es) {
      NobodyOnlyWhenFull(g, s, es);
    }
    if |Held(g, s) + Wanted(g)| > g.max {
      StampedeEmpties(g, s);
      var es := Stampede(|g.keys|);
      assert OnlyClaimers(es) && NoResume(es) && EndsEmpty(g, s, es);
    }
    assert forall es :: OnlyClaimers(es) ==> NoResume(es);
  }

  ghost predicate PeakWithin(g: Game, s: State, es: seq<Event>, bound: nat)
    requires |s.phases| == |g.keys|
  {
    |Held(g, Play(g, s, es))| <= bound
  }

  /** The active leases never pass a bound in between exactly when it covers
      those at the start and the wanted issues together. */
  lemma PeakExact(g: Game, s: State, bound: nat)
    requires Starting(g, s) && DistinctKeys(g) && AllFree(g, s)
    ensures (forall es :: NoResume(es) ==> PeakWithin(g, s, es, bound)) <==> |Held(g, s) + Wanted(g)| <= bound
  {
    var most := Held(g, s) + Wanted(g);
    if |most| <= bound {
      forall es | NoResume(es) ensures PeakWithin(g, s, es, bound) {
        PlayConfined(g, s, es, most);
        Fewer(Held(g, Play(g, s, es)), most);
      }
    } else {
      var es := Claims(|g.keys|);
      ClaimAll(g, s, |g.keys|);
      AllHeld(g, s, Play(g, s, es));
      assert NoResume(es) && !PeakWithin(g, s, es, bound);
    }
  }
}
