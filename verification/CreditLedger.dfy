/** The ledger object: two append-only tables and the grace cell, changed as the functions of module
    Ledger say. */
module CreditLedger {
  import opened Common
  import opened Ledger

  datatype Result<+T> = Ok(value: T) | ValueError

  datatype Entry = Entry(action: Action, quantity: real, weight: real, multiplier: real, credits: real, timestamp: real)

  datatype Spending = Spending(amount: real, timestamp: real)

  datatype SearchAllowance = SearchAllowance(
    state: CreditState, cost: real, graceRemainingHours: Option<real>, debt: real
  )

  function TotalEarned(entries: seq<Entry>): real {
    if entries == [] then 0.0 else TotalEarned(entries[..|entries| - 1]) + entries[|entries| - 1].credits
  }

  function TotalSpent(spending: seq<Spending>): real {
    if spending == [] then 0.0 else TotalSpent(spending[..|spending| - 1]) + spending[|spending| - 1].amount
  }

  /** Sum of the credits of the entries that are, or are not, language-model work. */
  function EarnedWhere(entries: seq<Entry>, llm: bool): real {
    if entries == [] then 0.0
    else
      var e := entries[|entries| - 1];
      EarnedWhere(entries[..|entries| - 1], llm) + if IsLlm(e.action) == llm then e.credits else 0.0
  }

  /** The rows of the two tables that a history leaves. */
  function EntryEvents(h: seq<Event>): seq<Event> {
    if h == [] then []
    else EntryEvents(h[..|h| - 1]) + if h[|h| - 1].Earned? then [h[|h| - 1]] else []
  }

  function SpendingEvents(h: seq<Event>): seq<Event> {
    if h == [] then []
    else SpendingEvents(h[..|h| - 1]) + if h[|h| - 1].Spent? then [h[|h| - 1]] else []
  }

  function Multiplier(action: Action, offPeak: bool): real {
    if offPeak && IsLlm(action) then OFF_PEAK_MULTIPLIER else 1.0
  }

  function Earnings(action: Action, quantity: real, offPeak: bool): real {
    ActionWeight(action) * quantity * Multiplier(action, offPeak)
  }

  function EntryFor(action: Action, quantity: real, offPeak: bool, now: real): Entry {
    Entry(action, quantity, ActionWeight(action), Multiplier(action, offPeak), Earnings(action, quantity, offPeak), now)
  }

  /** The row of an activity: its credits are the activity's rate times the quantity, and half as much again for
      language-model work outside the peak hours, and for nothing else. */
  lemma EntryColumns(action: Action, quantity: real, offPeak: bool, now: real)
    ensures var e := EntryFor(action, quantity, offPeak, now);
            var rate := match action
                        case DocHosting => 0.1
                        case QueryProcess => 0.5
                        case NetworkUptime => 0.5
                        case Crawl => 1.0
                        case LlmSummarizeOwn => 1.5
                        case LlmSummarizePeer => 2.0
                        case GitDocs => 1000.0
                        case GitFix => 10000.0
                        case GitFeature => 50000.0
                        case GitMajor => 100000.0;
            && e.action == action && e.quantity == quantity && e.timestamp == now && e.weight == rate
            && e.multiplier == (if offPeak && action in {LlmSummarizeOwn, LlmSummarizePeer} then 1.5 else 1.0)
            && e.credits == e.weight * e.quantity * e.multiplier
  {
  }

  function EventOf(e: Entry): Event {
    Earned(e.action, e.credits, e.timestamp)
  }

  ghost predicate TablesHold(entries: seq<Entry>, spending: seq<Spending>, h: seq<Event>) {
    && |entries| == |EntryEvents(h)|
    && (forall i | 0 <= i < |entries| :: EntryEvents(h)[i] == EventOf(entries[i]))
    && |spending| == |SpendingEvents(h)|
    && (forall i | 0 <= i < |spending| :: SpendingEvents(h)[i] == Spent(spending[i].amount, spending[i].timestamp))
  }

  /** The sums over the tables are those over the history. */
  lemma {:induction false} SumsAgree(entries: seq<Entry>, spending: seq<Spending>, h: seq<Event>)
    requires TablesHold(entries, spending, h)
    ensures TotalEarned(entries) - TotalSpent(spending) == Balance(h)
    ensures EarnedWhere(entries, true) == LlmCredits(h) && EarnedWhere(entries, false) == OtherCredits(h)
  {
    if h != [] {
      var init := h[..|h| - 1];
      if h[|h| - 1].Earned? {
        assert EntryEvents(h)[|entries| - 1] == h[|h| - 1];
        SumsAgree(entries[..|entries| - 1], spending, init);
      } else {
        assert SpendingEvents(h)[|spending| - 1] == h[|h| - 1];
        SumsAgree(entries, spending[..|spending| - 1], init);
      }
    }
  }

  lemma AppendEntry(entries: seq<Entry>, spending: seq<Spending>, h: seq<Event>, e: Entry)
    requires TablesHold(entries, spending, h)
    ensures TablesHold(entries + [e], spending, h + [EventOf(e)])
  {
    assert (h + [EventOf(e)])[..|h|] == h;
  }

  lemma AppendSpending(entries: seq<Entry>, spending: seq<Spending>, h: seq<Event>, s: Spending)
    requires TablesHold(entries, spending, h)
    ensures TablesHold(entries, spending + [s], h + [Spent(s.amount, s.timestamp)])
  {
    assert (h + [Spent(s.amount, s.timestamp)])[..|h|] == h;
  }

  class CreditLedger {
    var entries: seq<Entry>
    var spending: seq<Spending>
    var graceStart: Option<real>
    ghost var history: seq<Event>

    ghost predicate Valid()
      reads this
    {
      TablesHold(entries, spending, history)
    }

    ghost function View(): Tables
      reads this
    {
      Tables(history, graceStart)
    }

    constructor ()
      ensures Valid() && View() == EMPTY
    {
      entries, spending, graceStart, history := [], [], None, [];
    }

    method GetBalance() returns (balance: real)
      requires Valid()
      ensures balance == Balance(history)
    {
      SumsAgree(entries, spending, history);
      balance := TotalEarned(entries) - TotalSpent(spending);
    }

    method ClearGrace()
      modifies this`graceStart
      ensures graceStart == None
    {
      graceStart := None;
    }

    /** The committed insert that a crash can separate from the clearing of grace. */
    method InsertEntry(e: Entry)
      requires Valid()
      modifies this`entries, this`history
      ensures Valid() && entries == old(entries) + [e]
      ensures View() == Append(old(View()), EventOf(e))
    {
      AppendEntry(entries, spending, history, e);
      entries := entries + [e];
      history := history + [EventOf(e)];
    }

    method ClearGraceIfPositive()
      requires Valid()
      modifies this`graceStart
      ensures Valid() && View() == Settle(old(View()))
    {
      var balance := GetBalance();
      if balance > 0.0 {
        ClearGrace();
      }
    }

    /** Records a contribution; when that makes the balance positive, grace and debt end. */
    method RecordAction(action: Action, quantity: real, offPeak: bool, now: real) returns (r: Result<real>)
      requires Valid()
      modifies this
      ensures Valid() && spending == old(spending)
      ensures quantity <= 0.0 ==> r == ValueError && View() == old(View()) && entries == old(entries)
      ensures quantity > 0.0 ==>
                && r == Ok(Earnings(action, quantity, offPeak)) && r.value > 0.0
                && View() == AfterRecord(old(View()), Earned(action, r.value, now))
                && entries == old(entries) + [EntryFor(action, quantity, offPeak, now)]
    {
      if quantity <= 0.0 {
        return ValueError;
      }
      EarningsPositive(action, quantity, offPeak);
      var earned := Earnings(action, quantity, offPeak);
      InsertEntry(EntryFor(action, quantity, offPeak, now));
      ClearGraceIfPositive();
      return Ok(earned);
    }

    /** Deducts credits; always succeeds for a positive amount, and starts the grace period when the
        balance is used up. */
    method Spend(amount: real, now: real) returns (r: Result<bool>)
      requires Valid()
      modifies this
      ensures Valid()
      ensures amount <= 0.0 ==> r == ValueError && View() == old(View()) && spending == old(spending)
      ensures amount > 0.0 ==> r == Ok(true) && View() == AfterSpend(old(View()), Spent(amount, now))
      ensures amount > 0.0 ==> spending == old(spending) + [Spending(amount, now)]
      ensures entries == old(entries)
    {
      if amount <= 0.0 {
        return ValueError;
      }
      AppendSpending(entries, spending, history, Spending(amount, now));
      spending := spending + [Spending(amount, now)];
      history := history + [Spent(amount, now)];
      var balance := GetBalance();
      if balance <= 0.0 && graceStart == None {
        graceStart := Some(now);
      }
      return Ok(true);
    }

    method GetCreditState(now: real) returns (state: CreditState)
      requires Valid()
      modifies this`graceStart
      ensures Valid() && View() == Settle(old(View()))
      ensures state == StateOf(old(View()), now)
      ensures GraceExact(old(View())) ==> View() == old(View())
    {
      var balance := GetBalance();
      if balance > 0.0 {
        ClearGrace();
        return Normal;
      }
      if graceStart == None {
        return Normal;
      }
      var elapsedHours := (now - graceStart.value) / 3600.0;
      return if elapsedHours <= GRACE_PERIOD_HOURS then Grace else Debt;
    }

    method ContributionScore() returns (score: real)
      requires Valid()
      ensures score == Score(history)
    {
      SumsAgree(entries, spending, history);
      var llm := EarnedWhere(entries, true);
      var other := EarnedWhere(entries, false);
      var total := other + llm;
      if total > 0.0 && llm / total > 0.6 {
        score := other + other * (0.6 / (1.0 - 0.6));
      } else {
        score := other + llm;
      }
    }

    /** The time left in the grace period, which is asked for twice: whether it runs at t1, how long at t2. */
    method GraceRemainingHours(t1: real, t2: real) returns (remaining: Option<real>)
      requires Valid()
      modifies this`graceStart
      ensures Valid() && View() == Settle(old(View()))
      ensures remaining.Some? <==> StateOf(old(View()), t1).Grace?
      ensures remaining.Some? ==> old(graceStart).Some? && remaining.value == HoursLeft(old(graceStart).value, t2)
    {
      var state := GetCreditState(t1);
      if state != Grace {
        return None;
      }
      var hours := GRACE_PERIOD_HOURS - (t2 - graceStart.value) / 3600.0;
      return Some(if hours < 0.0 then 0.0 else hours);
    }

    /** What a search costs: never blocked, twice the tier's price in debt. The clock is read at t1 to t3. */
    method GetSearchAllowance(t1: real, t2: real, t3: real) returns (a: SearchAllowance)
      requires Valid()
      modifies this`graceStart
      ensures Valid() && View() == Settle(old(View()))
      ensures a.state == StateOf(old(View()), t1)
      ensures a.cost == EffectiveCost(old(View()), t1)
      ensures a.graceRemainingHours.Some? <==> StateOf(old(View()), t2).Grace?
      ensures a.graceRemainingHours.Some? ==>
                old(graceStart).Some? && a.graceRemainingHours.value == HoursLeft(old(graceStart).value, t3)
      ensures a.debt >= 0.0 && (a.debt == 0.0 <==> Balance(history) >= 0.0)
      ensures a.debt > 0.0 ==> a.debt == -Balance(history)
    {
      var state := GetCreditState(t1);
      var score := ContributionScore();
      var cost := BaseCost(TierOf(score));
      if state.Debt? {
        cost := cost * DEBT_COST_MULTIPLIER;
      }
      var remaining := GraceRemainingHours(t2, t3);
      var balance := GetBalance();
      a := SearchAllowance(state, cost, remaining, if -balance > 0.0 then -balance else 0.0);
    }
  }

  /** What is left of the grace period that began at `start`. */
  function HoursLeft(start: real, now: real): real {
    var hours := GRACE_PERIOD_HOURS - (now - start) / 3600.0;
    if hours < 0.0 then 0.0 else hours
  }

  /** As the clock moves on between its readings, time is left only if the state read first is grace, and then it is
      what remains of 72 hours. */
  lemma AllowanceReadings(t: Tables, t1: real, t2: real, t3: real)
    requires t1 <= t2 <= t3 && StateOf(t, t2).Grace?
    ensures StateOf(t, t1).Grace?
    ensures t1 >= t.graceStart.value ==> 0.0 <= HoursLeft(t.graceStart.value, t3) <= 72.0
    ensures HoursLeft(t.graceStart.value, t3) > 0.0 ==>
              t.graceStart.value + 3600.0 * (72.0 - HoursLeft(t.graceStart.value, t3)) == t3
  {
    assert (t1 - t.graceStart.value) / 3600.0 <= (t2 - t.graceStart.value) / 3600.0;
  }

  lemma EarningsPositive(action: Action, quantity: real, offPeak: bool)
    requires quantity > 0.0
    ensures Earnings(action, quantity, offPeak) > 0.0
  {
    EarnedPositive(ActionWeight(action), quantity, Multiplier(action, offPeak));
  }

  lemma EarnedPositive(weight: real, quantity: real, multiplier: real)
    requires weight > 0.0 && quantity > 0.0 && multiplier > 0.0
    ensures weight * quantity * multiplier > 0.0
  {
    assert weight * quantity > 0.0;
  }
}
