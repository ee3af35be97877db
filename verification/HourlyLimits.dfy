/** The bound of twice the hourly limit on the requests of an hour is reached under every setting. */
module HourlyLimits {
  import opened Common
  import opened Scheduling
  import opened SchedulerRuns
  import opened Politeness

  /** For URLs that are their own domain. */
  function Settings(delay: real, limit: int, cap: int): Config {
    Config(delay, limit, cap, 0, url => url)
  }

  function Empty(): World {
    World(Core(map[], [], [], Outside, 0, 0.0), 0.0, [], [], [], [], [], [0.0])
  }

  /** A URL of a domain not seen so far. */
  function NewUrl(n: nat): (item: Item)
    ensures |item.url| == n
  {
    Item(seq(n, _ => 'x'), 0)
  }

  /** n URLs were handed out in the hour from 3599 on, m of them in the current window; the scheduler is at rest. */
  ghost predicate AfterRequests(n: nat, m: nat, t: World) {
    && t.core.queue == [] && t.core.consumer == Outside && t.core.hourlyCount == m
    && t.starts != [] && CountHour(t.log, 3599.0) == n
    && forall d | d in t.core.domains :: |d| < n
  }

  /** A new window starts with the check at `now`, or the current one still has room. */
  predicate HasRoom(limit: int, m: nat, t: World, now: real) {
    now - t.core.hourStart >= 3600.0 || m < limit
  }

  lemma RequestAdded(cfg: Config, n: nat, m: nat, t: World, now: real)
    requires AfterRequests(n, m, t) && now >= t.clock && cfg.pendingPerDomain > 0 && cfg.maxDepth == 0
    requires cfg.domainOf(NewUrl(n).url) == NewUrl(n).url
    ensures Enabled(cfg, t, Add(NewUrl(n), now))
    ensures var u := Apply(cfg, t, Add(NewUrl(n), now));
            && u.core.queue == [NewUrl(n)] && u.core.consumer == Outside && u.core.hourlyCount == m
            && u.core.hourStart == t.core.hourStart && u.clock == now && u.log == t.log && u.starts == t.starts
            && NewUrl(n).url in u.core.domains
            && u.core.domains[NewUrl(n).url] == FRESH_DOMAIN.(pendingCount := 1)
            && forall d | d in u.core.domains :: |d| <= n
  {
    assert NewUrl(n).url !in t.core.domains;
  }

  lemma RequestTaken(cfg: Config, n: nat, u: World, now: real)
    requires u.core.queue == [NewUrl(n)] && u.core.consumer == Outside && u.clock == now >= cfg.politenessDelay
    requires cfg.domainOf(NewUrl(n).url) == NewUrl(n).url && NewUrl(n).url in u.core.domains
    requires u.core.domains[NewUrl(n).url] == FRESH_DOMAIN.(pendingCount := 1)
    ensures Enabled(cfg, u, Taken(now))
    ensures var v := Apply(cfg, u, Taken(now));
            v == u.(core := u.core.(queue := [], consumer := Pausing(NewUrl(n), now, now, cfg.politenessDelay)))
  {
    assert Apply(cfg, u, Taken(now)).core.domains == u.core.domains;
  }

  lemma RequestCounted(log: seq<Dispatched>, more: seq<Dispatched>, a: real)
    requires |more| == |log| + 1 && more[..|log|] == log && a <= more[|log|].time < a + 3600.0
    ensures CountHour(more, a) == CountHour(log, a) + 1
  {
  }

  /** With room in the hour the request goes out, in the present window or as the first of the next. */
  lemma RequestInWindow(cfg: Config, c: Core, now: real)
    requires cfg.limit > 0 && (now - c.hourStart >= 3600.0 || c.hourlyCount < cfg.limit) && c.consumer.Pausing?
    ensures !LimitReached(cfg, c, now)
    ensures var sent := Dispatch(cfg, c, now, now);
            && sent.queue == c.queue && sent.consumer == Outside
            && sent.hourlyCount == (if now - c.hourStart >= 3600.0 then 1 else c.hourlyCount + 1)
            && sent.hourStart == if now - c.hourStart >= 3600.0 then now else c.hourStart
  {
  }

  lemma RequestDomains(cfg: Config, n: nat, c: Core, now: real)
    requires c.consumer.Pausing? && forall d | d in c.domains :: |d| <= n
    ensures forall d | d in Dispatch(cfg, c, now, now).domains :: |d| < n + 1
  {
  }

  lemma RequestMade(cfg: Config, n: nat, m: nat, v: World, now: real, delay: real)
    requires v.core.queue == [] && v.core.consumer == Pausing(NewUrl(n), now, now, delay) && v.clock == now
    requires 3599.0 <= now <= 3600.0 && v.core.hourlyCount == m && v.starts != [] && CountHour(v.log, 3599.0) == n
    requires cfg.limit > 0 && HasRoom(cfg.limit, m, v, now)
    requires forall d | d in v.core.domains :: |d| <= n
    ensures Enabled(cfg, v, Resumed(now, now))
    ensures var t := Apply(cfg, v, Resumed(now, now));
            && AfterRequests(n + 1, if now - v.core.hourStart >= 3600.0 then 1 else m + 1, t) && t.clock == now
            && t.core.hourStart == if now - v.core.hourStart >= 3600.0 then now else v.core.hourStart
  {
    RequestInWindow(cfg, v.core, now);
    ResumeHandsOut(cfg, v, now, now);
    RequestDomains(cfg, n, v.core, now);
    RequestCounted(v.log, Resume(cfg, v, now, now).log, 3599.0);
  }

  /** One more URL is added, taken and handed out, all at one time. */
  lemma OneRequest(cfg: Config, w: World, steps: seq<Step>, n: nat, m: nat, t: World, now: real)
    returns (more: seq<Step>, t': World)
    requires IsRun(cfg, w, steps) && Outcome(cfg, w, steps) == t && AfterRequests(n, m, t) && now >= t.clock
    requires 3599.0 <= now <= 3600.0 && cfg.politenessDelay <= 60.0 && cfg.limit > 0 && cfg.pendingPerDomain > 0
    requires cfg.maxDepth == 0 && cfg.domainOf(NewUrl(n).url) == NewUrl(n).url && HasRoom(cfg.limit, m, t, now)
    ensures IsRun(cfg, w, more) && Outcome(cfg, w, more) == t' && t'.clock == now
    ensures AfterRequests(n + 1, if now - t.core.hourStart >= 3600.0 then 1 else m + 1, t')
    ensures t'.core.hourStart == if now - t.core.hourStart >= 3600.0 then now else t.core.hourStart
  {
    var u, v;
    RequestAdded(cfg, n, m, t, now);
    more, u := Then(cfg, w, steps, t, Add(NewUrl(n), now));
    RequestTaken(cfg, n, u, now);
    more, v := Then(cfg, w, more, u, Taken(now));
    RequestMade(cfg, n, m, v, now, cfg.politenessDelay);
    more, t' := Then(cfg, w, more, v, Resumed(now, now));
  }

  /** The window that began at 0 fills up in its last second. */
  lemma {:induction false} FirstWindow(delay: real, limit: int, cap: int, m: nat) returns (steps: seq<Step>, t: World)
    requires delay <= 60.0 && 0 < limit && 0 < cap && m <= limit
    ensures IsRun(Settings(delay, limit, cap), Empty(), steps)
    ensures Outcome(Settings(delay, limit, cap), Empty(), steps) == t
    ensures AfterRequests(m, m, t) && t.clock <= 3599.0 && t.core.hourStart == 0.0
  {
    if m == 0 {
      steps, t := [], Empty();
    } else {
      var u;
      steps, u := FirstWindow(delay, limit, cap, m - 1);
      steps, t := OneRequest(Settings(delay, limit, cap), Empty(), steps, m - 1, m - 1, u, 3599.0);
    }
  }

  /** The next window, which begins at 3600, fills up at once. */
  lemma {:induction false} SecondWindow(delay: real, limit: int, cap: int, m: nat) returns (steps: seq<Step>, t: World)
    requires delay <= 60.0 && 0 < limit && 0 < cap && 0 < m <= limit
    ensures IsRun(Settings(delay, limit, cap), Empty(), steps)
    ensures Outcome(Settings(delay, limit, cap), Empty(), steps) == t
    ensures AfterRequests(limit + m, m, t) && t.clock <= 3600.0 && t.core.hourStart == 3600.0
  {
    var u;
    if m == 1 {
      steps, u := FirstWindow(delay, limit, cap, limit);
      steps, t := OneRequest(Settings(delay, limit, cap), Empty(), steps, limit, limit, u, 3600.0);
    } else {
      steps, u := SecondWindow(delay, limit, cap, m - 1);
      steps, t := OneRequest(Settings(delay, limit, cap), Empty(), steps, limit + m - 1, m - 1, u, 3600.0);
    }
  }

  /** For every limit, every politeness delay up to a minute and every cap on pending URLs, a run in which twice the
      limit of URLs is handed out within an hour. */
  lemma LimitDoubled(delay: real, limit: int, cap: int) returns (w: World, steps: seq<Step>)
    requires delay <= 60.0 && 0 < limit && 0 < cap
    ensures Start(w) && IsRun(Settings(delay, limit, cap), w, steps)
    ensures CountHour(Outcome(Settings(delay, limit, cap), w, steps).log, 3599.0) == 2 * limit
  {
    w := Empty();
    var t;
    steps, t := SecondWindow(delay, limit, cap, limit);
  }

  /** A number bounds the requests of every hour of every run exactly if it is at least twice the limit. */
  lemma HourlyBoundIff(delay: real, limit: int, cap: int, bound: int)
    requires delay <= 60.0 && 0 < limit && 0 < cap
    ensures bound >= 2 * limit
       <==> forall w, steps, a: real | Start(w) && IsRun(Settings(delay, limit, cap), w, steps) ::
              CountHour(Outcome(Settings(delay, limit, cap), w, steps).log, a) <= bound
  {
    if bound >= 2 * limit {
      forall w, steps, a: real | Start(w) && IsRun(Settings(delay, limit, cap), w, steps)
        ensures CountHour(Outcome(Settings(delay, limit, cap), w, steps).log, a) <= bound
      {
        HourlyLimit(Settings(delay, limit, cap), w, steps, a, 0);
      }
    } else {
      var w, steps := LimitDoubled(delay, limit, cap);
    }
  }
}
