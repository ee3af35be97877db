/** Politeness delays of more than an hour are not kept: a domain forgotten by pruning takes its last request
    with it. The delay is kept in every run exactly if it is at most an hour. */
module PolitenessLimits {
  import opened Common
  import opened Scheduling
  import opened SchedulerRuns
  import opened Politeness

  /** A scheduler without an hourly limit, for URLs that are their own domain. */
  function WithDelay(delay: real): Config {
    Config(delay, 0, 10, 0, url => url)
  }

  const URL := Item("a", 0)

  function Fresh(): World {
    World(Core(map[], [], [], Outside, 0, 0.0), 0.0, [], [], [], [], [], [0.0])
  }

  /** The scheduler is at rest after one request to the domain "a", and tracks n + 1 domains. */
  ghost predicate AfterRequest(delay: real, n: nat, t: World) {
    && t.core.queue == [] && t.core.waiting == [] && t.core.consumer == Outside && t.core.hourlyCount == 0
    && t.outstanding == [] && t.clock == delay && t.starts == [0.0]
    && t.log == [Dispatched("a", delay, delay, 0)]
    && "a" in t.core.domains && t.core.domains["a"] == DomainState(delay, 0, 0, None)
    && |t.core.domains| == n + 1
    && forall d | d in t.core.domains :: |d| <= n + 1
  }

  lemma AddRequest(delay: real) returns (steps: seq<Step>, t: World)
    requires delay > 3600.0
    ensures IsRun(WithDelay(delay), Fresh(), steps) && Outcome(WithDelay(delay), Fresh(), steps) == t
    ensures t == Fresh().(clock := delay, accepted := [URL],
                          core := Fresh().core.(queue := [URL], domains := map["a" := DomainState(0.0, 1, 0, None)]))
  {
    steps, t := Then(WithDelay(delay), Fresh(), [], Fresh(), Add(URL, delay));
  }

  /** The only URL has been taken from the queue and waits for its delay, which has passed already. */
  function Pausing(delay: real): World {
    Fresh().(clock := delay, accepted := [URL],
             core := Core(map["a" := DomainState(0.0, 1, 0, None)], [], [],
                          Consumer.Pausing(URL, delay, delay, delay), 0, 0.0))
  }

  lemma RequestResumes(delay: real)
    requires delay > 3600.0
    ensures Enabled(WithDelay(delay), Pausing(delay), Resumed(delay, delay))
    ensures var t := Apply(WithDelay(delay), Pausing(delay), Resumed(delay, delay));
            && t.core == Core(map["a" := DomainState(delay, 1, 0, None)], [], [], Outside, 0, 0.0)
            && t.outstanding == [URL] && t.clock == delay && t.starts == [0.0]
            && t.log == [Dispatched("a", delay, delay, 0)]
  {
  }

  lemma TakeRequest(delay: real) returns (steps: seq<Step>, t: World)
    requires delay > 3600.0
    ensures IsRun(WithDelay(delay), Fresh(), steps) && Outcome(WithDelay(delay), Fresh(), steps) == t
    ensures t.core == Core(map["a" := DomainState(delay, 1, 0, None)], [], [], Outside, 0, 0.0)
    ensures t.outstanding == [URL] && t.clock == delay && t.starts == [0.0]
    ensures t.log == [Dispatched("a", delay, delay, 0)]
  {
    var u, v;
    steps, u := AddRequest(delay);
    RequestTaken(delay, u);
    steps, v := Then(WithDelay(delay), Fresh(), steps, u, Taken(delay));
    RequestResumes(delay);
    steps, t := Then(WithDelay(delay), Fresh(), steps, v, Resumed(delay, delay));
  }

  lemma RequestTaken(delay: real, u: World)
    requires delay > 3600.0
    requires u == Fresh().(clock := delay, accepted := [URL],
                           core := Fresh().core.(queue := [URL], domains := map["a" := DomainState(0.0, 1, 0, None)]))
    ensures Enabled(WithDelay(delay), u, Taken(delay))
    ensures Apply(WithDelay(delay), u, Taken(delay)) == Pausing(delay)
  {
  }

  lemma FirstRequest(delay: real) returns (steps: seq<Step>, t: World)
    requires delay > 3600.0
    ensures IsRun(WithDelay(delay), Fresh(), steps) && Outcome(WithDelay(delay), Fresh(), steps) == t
    ensures AfterRequest(delay, 0, t)
  {
    var u;
    steps, u := TakeRequest(delay);
    steps, t := Then(WithDelay(delay), Fresh(), steps, u, Finished(0, false, delay));
    assert t.core.domains == map["a" := DomainState(delay, 0, 0, None)];
  }

  /** A domain name of a length not used so far. */
  function NewName(n: nat): (d: string)
    ensures |d| == n + 2
  {
    seq(n + 2, _ => 'x')
  }

  lemma OneMoreDomain(delay: real, n: nat, t: World)
    requires AfterRequest(delay, n, t)
    ensures Enabled(WithDelay(delay), t, DelaySet(NewName(n), 0.0, delay))
    ensures AfterRequest(delay, n + 1, Apply(WithDelay(delay), t, DelaySet(NewName(n), 0.0, delay)))
  {
    var d := NewName(n);
    assert d !in t.core.domains && |"a"| == 1;
  }

  /** robots.txt delays for n further domains. */
  lemma {:induction false} ManyDomains(delay: real, n: nat) returns (steps: seq<Step>, t: World)
    requires delay > 3600.0
    ensures IsRun(WithDelay(delay), Fresh(), steps) && Outcome(WithDelay(delay), Fresh(), steps) == t
    ensures AfterRequest(delay, n, t)
  {
    if n == 0 {
      steps, t := FirstRequest(delay);
    } else {
      var u;
      steps, u := ManyDomains(delay, n - 1);
      OneMoreDomain(delay, n - 1, u);
      steps, t := Then(WithDelay(delay), Fresh(), steps, u, DelaySet(NewName(n - 1), 0.0, delay));
    }
  }

  /** Halfway between an hour and the delay after the first request. */
  function TooSoon(delay: real): real {
    delay + (delay + 3600.0) / 2.0
  }

  lemma SecondAdd(delay: real, t: World)
    requires delay > 3600.0 && AfterRequest(delay, DOMAIN_PRUNE_THRESHOLD, t)
    ensures Enabled(WithDelay(delay), t, Add(URL, TooSoon(delay)))
    ensures var u := Apply(WithDelay(delay), t, Add(URL, TooSoon(delay)));
            && u.core.queue == [URL] && u.core.consumer == Outside && u.clock == TooSoon(delay) && u.log == t.log
            && "a" in u.core.domains && u.core.domains["a"] == DomainState(0.0, 1, 0, None)
  {
    assert IsStaleDomain(t.core.domains["a"], TooSoon(delay));
    assert "a" !in PruneIfMany(t.core.domains, TooSoon(delay));
  }

  lemma SecondTake(delay: real, u: World)
    requires delay > 3600.0
    requires u.core.queue == [URL] && u.core.consumer == Outside && u.clock == TooSoon(delay)
    requires "a" in u.core.domains && u.core.domains["a"] == DomainState(0.0, 1, 0, None)
    ensures Enabled(WithDelay(delay), u, Taken(TooSoon(delay)))
    ensures var v := Apply(WithDelay(delay), u, Taken(TooSoon(delay)));
            && Enabled(WithDelay(delay), v, Resumed(TooSoon(delay), TooSoon(delay)))
            && var z := Apply(WithDelay(delay), v, Resumed(TooSoon(delay), TooSoon(delay)));
               |z.log| == |u.log| + 1 && z.log[..|u.log|] == u.log
               && z.log[|u.log|].domain == "a" && z.log[|u.log|].time == TooSoon(delay) && z.log[|u.log|].delay == delay
  {
  }

  /** With a delay above an hour, a run in which a domain is requested again too soon. */
  lemma LongDelayBroken(delay: real) returns (w: World, steps: seq<Step>)
    requires delay > 3600.0
    ensures Start(w) && IsRun(WithDelay(delay), w, steps)
    ensures !Spaced(Outcome(WithDelay(delay), w, steps).log)
  {
    w := Fresh();
    var t, u, v, z;
    steps, t := ManyDomains(delay, DOMAIN_PRUNE_THRESHOLD);
    SecondAdd(delay, t);
    steps, u := Then(WithDelay(delay), w, steps, t, Add(URL, TooSoon(delay)));
    SecondTake(delay, u);
    steps, v := Then(WithDelay(delay), w, steps, u, Taken(TooSoon(delay)));
    steps, z := Then(WithDelay(delay), w, steps, v, Resumed(TooSoon(delay), TooSoon(delay)));
    assert z.log[0] == z.log[..1][0] == Dispatched("a", delay, delay, 0);
  }

  /** The configured delay is kept in all runs if and only if it is at most an hour. */
  lemma SpacedIffWithinHour(delay: real)
    ensures delay <= DOMAIN_STALE_SECONDS
       <==> forall w, steps | Start(w) && IsRun(WithDelay(delay), w, steps) ::
              Spaced(Outcome(WithDelay(delay), w, steps).log)
  {
    if delay <= DOMAIN_STALE_SECONDS {
      forall w, steps | Start(w) && IsRun(WithDelay(delay), w, steps)
        ensures Spaced(Outcome(WithDelay(delay), w, steps).log)
      {
        RequestsSpaced(WithDelay(delay), w, steps);
      }
    } else {
      var w, steps := LongDelayBroken(delay);
    }
  }
}
