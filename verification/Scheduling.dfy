/** The crawl scheduler as a state machine. Its coroutines only yield at their awaits, so a step is what one
    of them does between two awaits; `get_url` is run by a single consumer. */
module Scheduling {
  import opened Common

  datatype Item = Item(url: string, depth: int)

  datatype DomainState = DomainState(lastRequestAt: real, pendingCount: int, errorCount: nat, crawlDelay: Option<real>)

  const FRESH_DOMAIN := DomainState(0.0, 0, 0, None)

  const MAX_TRACKED_DOMAINS: nat := 50_000
  const DOMAIN_PRUNE_THRESHOLD: nat := 40_000
  const DOMAIN_STALE_SECONDS := 3600.0
  const QUEUE_SIZE: nat := 10_000
  const MAX_DELAY := 60.0

  /** The constructor's settings; `limit` 0 or less means no hourly limit, `maxDepth` 0 or less no depth limit. */
  datatype Config = Config(
    politenessDelay: real, limit: int, pendingPerDomain: int, maxDepth: int, domainOf: string -> string
  )

  type Domains = map<string, DomainState>

  /** Where the consumer is inside get_url. */
  datatype Consumer =
    | Outside                                                      // not waiting inside get_url
    | Pausing(item: Item, since: real, until: real, delay: real)   // asleep for the politeness delay
    | PuttingBack(item: Item, wait: real)                          // the hour's limit is reached, the queue is full
    | HourPause(until: real)                                       // asleep until the hour is over

  /** The scheduler's fields. `waiting` holds the URLs whose put waits for room in the queue. */
  datatype Core = Core(
    domains: Domains, queue: seq<Item>, waiting: seq<Item>, consumer: Consumer, hourlyCount: int, hourStart: real
  )

  function State(domains: Domains, d: string): DomainState {
    if d in domains then domains[d] else FRESH_DOMAIN
  }

  predicate IsStaleDomain(s: DomainState, now: real) {
    s.lastRequestAt < now - DOMAIN_STALE_SECONDS && s.pendingCount == 0
  }

  /** _prune_stale_domains. */
  function Prune(domains: Domains, threshold: nat, now: real): Domains {
    if |domains| <= threshold then domains
    else map d | d in domains && !IsStaleDomain(domains[d], now) :: domains[d]
  }

  function PruneIfMany(domains: Domains, now: real): Domains {
    if |domains| > DOMAIN_PRUNE_THRESHOLD then Prune(domains, DOMAIN_PRUNE_THRESHOLD, now) else domains
  }

  /** put: at once if there is room, otherwise the URL waits. */
  function Put(c: Core, item: Item): Core {
    if |c.queue| < QUEUE_SIZE then c.(queue := c.queue + [item]) else c.(waiting := c.waiting + [item])
  }

  // ---- The steps --------------------------------------------------------------------------------------------

  function AddUrl(cfg: Config, c: Core, item: Item, now: real): (Core, bool) {
    if cfg.maxDepth > 0 && item.depth > cfg.maxDepth then (c, false)
    else
      var d := cfg.domainOf(item.url);
      var domains := PruneIfMany(c.domains, now);
      var s := State(domains, d);
      if s.pendingCount >= cfg.pendingPerDomain then (c.(domains := domains[d := s]), false)
      else (Put(c.(domains := domains[d := s.(pendingCount := s.pendingCount + 1)]), item), true)
  }

  /** A waiting put gets its turn. */
  function Unblock(c: Core, i: nat): Core
    requires i < |c.waiting|
  {
    c.(queue := c.queue + [c.waiting[i]], waiting := c.waiting[..i] + c.waiting[i + 1..])
  }

  function DelayInForce(cfg: Config, s: DomainState): real {
    if s.crawlDelay.Some? then s.crawlDelay.value else cfg.politenessDelay
  }

  /** get_url up to its politeness pause: the next URL and how long to wait for it. */
  function Take(cfg: Config, c: Core, now: real): Core
    requires c.queue != []
  {
    var item := c.queue[0];
    var d := cfg.domainOf(item.url);
    var s := State(c.domains, d);
    var delay := DelayInForce(cfg, s);
    var elapsed := now - s.lastRequestAt;
    var until := if elapsed < delay then now + (delay - elapsed) else now;
    c.(domains := c.domains[d := s], queue := c.queue[1..], consumer := Pausing(item, now, until, delay))
  }

  /** _refresh_hour. */
  function RefreshHour(c: Core, now: real): Core {
    if now - c.hourStart >= 3600.0
    then c.(hourlyCount := 0, hourStart := now, domains := Prune(c.domains, MAX_TRACKED_DOMAINS, now))
    else c
  }

  predicate LimitReached(cfg: Config, c: Core, now: real) {
    cfg.limit > 0 && RefreshHour(c, now).hourlyCount >= cfg.limit
  }

  function Refreshed(cfg: Config, c: Core, now: real): Core {
    if cfg.limit > 0 then RefreshHour(c, now) else c
  }

  function HourWait(c: Core, at: real): real {
    var remaining := 3600.0 - (at - c.hourStart);
    if remaining < 1.0 then 1.0 else remaining
  }

  /** After the pause, when the hour's limit is reached: the URL goes back to the end of the queue. */
  function PutBack(cfg: Config, c: Core, now: real, at: real): Core
    requires c.consumer.Pausing?
  {
    var r := Refreshed(cfg, c, now);
    var wait := HourWait(r, at);
    if |r.queue| < QUEUE_SIZE
    then r.(queue := r.queue + [c.consumer.item], consumer := HourPause(at + wait))
    else r.(consumer := PuttingBack(c.consumer.item, wait))
  }

  function PutBackDone(c: Core, now: real): Core
    requires c.consumer.PuttingBack?
  {
    c.(queue := c.queue + [c.consumer.item], consumer := HourPause(now + c.consumer.wait))
  }

  /** After the pause, otherwise: the URL is handed to the consumer. */
  function Dispatch(cfg: Config, c: Core, now: real, at: real): Core
    requires c.consumer.Pausing?
  {
    var r := Refreshed(cfg, c, now);
    var d := cfg.domainOf(c.consumer.item.url);
    // A pruned state object would be written to in vain.
    var domains := if d in r.domains then r.domains[d := r.domains[d].(lastRequestAt := at)] else r.domains;
    r.(domains := domains, consumer := Outside, hourlyCount := r.hourlyCount + if cfg.limit > 0 then 1 else 0)
  }

  /** A caller that waits no longer cancels get_url at the await it is in: the URL it holds there is in no queue. */
  function Cancel(c: Core): Core {
    c.(consumer := Outside)
  }

  function MarkDone(cfg: Config, c: Core, url: string, now: real): Core {
    var d := cfg.domainOf(url);
    if d !in c.domains then c
    else
      var s := c.domains[d];
      var pending := if s.pendingCount - 1 > 0 then s.pendingCount - 1 else 0;
      c.(domains := PruneIfMany(c.domains[d := s.(pendingCount := pending)], now))
  }

  function MarkError(cfg: Config, c: Core, url: string, now: real): Core {
    var d := cfg.domainOf(url);
    if d !in c.domains then c
    else
      var failed := c.domains[d].(errorCount := c.domains[d].errorCount + 1);
      MarkDone(cfg, c.(domains := c.domains[d := failed]), url, now)
  }

  function SetCrawlDelay(c: Core, d: string, delay: real): Core {
    var capped := if delay < MAX_DELAY then delay else MAX_DELAY;
    c.(domains := c.domains[d := State(c.domains, d).(crawlDelay := Some(capped))])
  }
}
