/** The scheduler object: its methods, cut at their awaits, change the fields as the steps of module
    Scheduling say. */
module Scheduler {
  import opened Common
  import opened Scheduling

  class Scheduler {
    const cfg: Config
    var domains: Domains
    var queue: seq<Item>
    var waiting: seq<Item>
    var consumer: Consumer
    var hourlyCount: int
    var hourStart: real

    constructor (cfg: Config, now: real)
      ensures this.cfg == cfg && View() == Core(map[], [], [], Outside, 0, now)
    {
      this.cfg := cfg;
      domains, queue, waiting, consumer, hourlyCount, hourStart := map[], [], [], Outside, 0, now;
    }

    ghost function View(): Core
      reads this
    {
      Core(domains, queue, waiting, consumer, hourlyCount, hourStart)
    }

    /** Forgets the domains without pending URLs that were not requested for an hour, once too many are tracked. */
    method PruneStaleDomains(threshold: nat, now: real)
      modifies this`domains
      ensures domains == Prune(old(domains), threshold, now)
    {
      if |domains| <= threshold {
        return;
      }
      var stale := set d | d in domains && IsStaleDomain(domains[d], now);
      ghost var before := domains;
      while stale != {}
        invariant stale <= domains.Keys <= before.Keys
        invariant forall d | d in before && d !in domains :: IsStaleDomain(before[d], now)
        invariant forall d | d in domains :: domains[d] == before[d] && (d in stale <==> IsStaleDomain(domains[d], now))
        decreases stale
      {
        var d :| d in stale;
        domains := domains - {d};
        stale := stale - {d};
      }
      assert domains == Prune(before, threshold, now);
    }

    method PutItem(item: Item)
      modifies this`queue, this`waiting
      ensures View() == Put(old(View()), item)
    {
      if |queue| < QUEUE_SIZE {
        queue := queue + [item];
      } else {
        waiting := waiting + [item];
      }
    }

    method AddUrl(url: string, depth: int, now: real) returns (added: bool)
      modifies this`domains, this`queue, this`waiting
      ensures (View(), added) == Scheduling.AddUrl(cfg, old(View()), Item(url, depth), now)
    {
      if cfg.maxDepth > 0 && depth > cfg.maxDepth {
        return false;
      }
      if |domains| > DOMAIN_PRUNE_THRESHOLD {
        PruneStaleDomains(DOMAIN_PRUNE_THRESHOLD, now);
      }
      var domain := cfg.domainOf(url);
      ghost var pruned := domains;
      if domain !in domains {
        domains := domains[domain := FRESH_DOMAIN];
      }
      assert domains == pruned[domain := State(pruned, domain)];
      if domains[domain].pendingCount >= cfg.pendingPerDomain {
        return false;
      }
      domains := domains[domain := domains[domain].(pendingCount := domains[domain].pendingCount + 1)];
      assert domains == pruned[domain := domains[domain]];
      PutItem(Item(url, depth));
      return true;
    }

    method SetCrawlDelay(domain: string, delay: real)
      modifies this`domains
      ensures View() == Scheduling.SetCrawlDelay(old(View()), domain, delay)
    {
      var capped := if delay < MAX_DELAY then delay else MAX_DELAY;
      if domain !in domains {
        domains := domains[domain := FRESH_DOMAIN];
      }
      domains := domains[domain := domains[domain].(crawlDelay := Some(capped))];
    }

    /** get_url up to the politeness pause; returns how long the pause lasts. */
    method BeginGetUrl(now: real) returns (pause: real)
      requires queue != []
      modifies this`domains, this`queue, this`consumer
      ensures View() == Take(cfg, old(View()), now)
      ensures pause >= 0.0 && consumer.Pausing? && consumer.since == now && consumer.until == now + pause
    {
      var item := queue[0];
      queue := queue[1..];
      var domain := cfg.domainOf(item.url);
      if domain !in domains {
        domains := domains[domain := FRESH_DOMAIN];
      }
      var state := domains[domain];
      var delay := if state.crawlDelay.Some? then state.crawlDelay.value else cfg.politenessDelay;
      var elapsed := now - state.lastRequestAt;
      pause := if elapsed < delay then delay - elapsed else 0.0;
      consumer := Pausing(item, now, now + pause, delay);
    }

    method RefreshHour(now: real)
      modifies this`hourlyCount, this`hourStart, this`domains
      ensures View() == Scheduling.RefreshHour(old(View()), now)
    {
      if now - hourStart >= 3600.0 {
        hourlyCount := 0;
        hourStart := now;
        PruneStaleDomains(MAX_TRACKED_DOMAINS, now);
      }
    }

    /** get_url after the pause: hands out the URL, or puts it back when the hour's limit is reached. */
    method EndGetUrl(now: real, at: real) returns (result: Option<Item>)
      requires consumer.Pausing?
      modifies this
      ensures View() == if LimitReached(cfg, old(View()), now) then PutBack(cfg, old(View()), now, at)
                        else Dispatch(cfg, old(View()), now, at)
      ensures result == if LimitReached(cfg, old(View()), now) then None else Some(old(consumer).item)
    {
      var item := consumer.item;
      if cfg.limit > 0 {
        RefreshHour(now);
        if hourlyCount >= cfg.limit {
          var remaining := 3600.0 - (at - hourStart);
          var wait := if remaining < 1.0 then 1.0 else remaining;
          if |queue| < QUEUE_SIZE {
            queue := queue + [item];
            consumer := HourPause(at + wait);
          } else {
            consumer := PuttingBack(item, wait);
          }
          return None;
        }
      }
      var domain := cfg.domainOf(item.url);
      if domain in domains {
        domains := domains[domain := domains[domain].(lastRequestAt := at)];
      }
      if cfg.limit > 0 {
        hourlyCount := hourlyCount + 1;
      }
      consumer := Outside;
      return Some(item);
    }

    /** get_url cancelled by its caller while it waits. */
    method CancelGetUrl()
      modifies this`consumer
      ensures View() == Cancel(old(View()))
    {
      consumer := Outside;
    }

    method MarkDone(url: string, now: real)
      modifies this`domains
      ensures View() == Scheduling.MarkDone(cfg, old(View()), url, now)
    {
      var domain := cfg.domainOf(url);
      if domain !in domains {
        return;
      }
      var less := domains[domain].pendingCount - 1;
      domains := domains[domain := domains[domain].(pendingCount := if less > 0 then less else 0)];
      if |domains| > DOMAIN_PRUNE_THRESHOLD {
        PruneStaleDomains(DOMAIN_PRUNE_THRESHOLD, now);
      }
    }

    method MarkError(url: string, now: real)
      modifies this`domains
      ensures View() == Scheduling.MarkError(cfg, old(View()), url, now)
    {
      var domain := cfg.domainOf(url);
      if domain !in domains {
        return;
      }
      domains := domains[domain := domains[domain].(errorCount := domains[domain].errorCount + 1)];
      MarkDone(url, now);
    }
  }
}
