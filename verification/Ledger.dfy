/** The credit ledger: what is earned and spent, when grace and debt begin, and what a search costs. */
module Ledger {
  import opened Common

  datatype Action =
    | Crawl | QueryProcess | DocHosting | NetworkUptime | LlmSummarizeOwn | LlmSummarizePeer
    | GitDocs | GitFix | GitFeature | GitMajor

  datatype CreditState = Normal | Grace | Debt

  datatype Tier = Tier1 | Tier2 | Tier3

  const GRACE_PERIOD_HOURS := 72.0
  const DEBT_COST_MULTIPLIER := 2.0
  const OFF_PEAK_MULTIPLIER := 1.5

  function ActionWeight(a: Action): real {
    match a
    case Crawl => 1.0
    case QueryProcess => 0.5
    case DocHosting => 0.1
    case NetworkUptime => 0.5
    case LlmSummarizeOwn => 1.5
    case LlmSummarizePeer => 2.0
    case GitDocs => 1000.0
    case GitFix => 10000.0
    case GitFeature => 50000.0
    case GitMajor => 100000.0
  }

  predicate IsLlm(a: Action) {
    a.LlmSummarizeOwn? || a.LlmSummarizePeer?
  }

  /** The two tables as one history, in the order of their commits. */
  datatype Event =
    | Earned(action: Action, credits: real, time: real)
    | Spent(amount: real, time: real)

  /** The stored state: what happened, and the grace_start cell. */
  datatype Tables = Tables(history: seq<Event>, graceStart: Option<real>)

  const EMPTY := Tables([], None)

  function Change(e: Event): real {
    match e
    case Earned(_, credits, _) => credits
    case Spent(amount, _) => -amount
  }

  function Balance(h: seq<Event>): real {
    if h == [] then 0.0 else Balance(h[..|h| - 1]) + Change(h[|h| - 1])
  }

  /** Only positive amounts are ever recorded. */
  predicate IsEntry(e: Event) {
    match e
    case Earned(_, credits, _) => credits > 0.0
    case Spent(amount, _) => amount > 0.0
  }

  // ---- The stored state's transitions -----------------------------------------------------------------------

  function Append(t: Tables, e: Event): Tables {
    t.(history := t.history + [e])
  }

  /** _clear_grace, when the balance is positive. */
  function Settle(t: Tables): Tables {
    if Balance(t.history) > 0.0 then t.(graceStart := None) else t
  }

  function AfterRecord(t: Tables, e: Event): Tables {
    Settle(Append(t, e))
  }

  function AfterSpend(t: Tables, e: Event): Tables {
    var t' := Append(t, e);
    if Balance(t'.history) <= 0.0 && t'.graceStart == None then t'.(graceStart := Some(e.time)) else t'
  }

  function StateOf(t: Tables, now: real): CreditState {
    if Balance(t.history) > 0.0 then Normal
    else if t.graceStart == None then Normal
    else if (now - t.graceStart.value) / 3600.0 <= GRACE_PERIOD_HOURS then Grace
    else Debt
  }

  // ---- Runs, with and without crashes -----------------------------------------------------------------------

  datatype Step =
    | Record(e: Event)
    | RecordCrash(e: Event)   // the entry is committed, the process dies before grace is cleared
    | Spend(e: Event)         // one transaction: a crash leaves either all of it or nothing
    | Query                   // credit_state

  predicate IsStep(s: Step) {
    match s
    case Record(e) => e.Earned? && IsEntry(e)
    case RecordCrash(e) => e.Earned? && IsEntry(e)
    case Spend(e) => e.Spent? && IsEntry(e)
    case Query => true
  }

  function Do(t: Tables, s: Step): Tables {
    match s
    case Record(e) => AfterRecord(t, e)
    case RecordCrash(e) => Append(t, e)
    case Spend(e) => AfterSpend(t, e)
    case Query => Settle(t)
  }

  function Run(steps: seq<Step>): Tables {
    if steps == [] then EMPTY else Do(Run(steps[..|steps| - 1]), steps[|steps| - 1])
  }

  // ---- Stretches of non-positive balance --------------------------------------------------------------------

  /** Event i began the stretch of non-positive balance that the history ends in. */
  ghost predicate BeganStretch(h: seq<Event>, i: nat) {
    && i < |h|
    && (i == 0 || Balance(h[..i]) > 0.0)
    && forall k | i < k <= |h| :: Balance(h[..k]) <= 0.0
  }

  ghost predicate InStretch(h: seq<Event>) {
    h != [] && Balance(h) <= 0.0
  }

  /** grace_start is set exactly during a stretch, and then to the time of the spend that began it. */
  ghost predicate GraceExact(t: Tables) {
    && (t.graceStart.Some? <==> InStretch(t.history))
    && (t.graceStart.Some? ==>
          exists i: nat :: BeganStretch(t.history, i) && t.history[i].Spent? && t.graceStart.value == t.history[i].time)
  }

  lemma BalanceAppend(h: seq<Event>, e: Event)
    ensures Balance(h + [e]) == Balance(h) + Change(e)
  {
    assert (h + [e])[..|h|] == h;
  }

  lemma StretchUnique(h: seq<Event>, i: nat, j: nat)
    requires BeganStretch(h, i) && BeganStretch(h, j)
    ensures i == j
  {
  }

  lemma StretchContinues(h: seq<Event>, e: Event, i: nat)
    requires BeganStretch(h, i) && Balance(h + [e]) <= 0.0
    ensures BeganStretch(h + [e], i)
  {
    var h' := h + [e];
    assert h'[..i] == h[..i];
    forall k | i < k <= |h'| ensures Balance(h'[..k]) <= 0.0 {
      if k <= |h| {
        assert h'[..k] == h[..k];
      } else {
        assert h'[..k] == h';
      }
    }
  }

  lemma StretchBegins(h: seq<Event>, e: Event)
    requires h == [] || Balance(h) > 0.0
    requires Balance(h + [e]) <= 0.0
    ensures BeganStretch(h + [e], |h|)
  {
    var h' := h + [e];
    assert h'[..|h|] == h;
    forall k | |h| < k <= |h'| ensures Balance(h'[..k]) <= 0.0 {
      assert h'[..k] == h';
    }
  }

  lemma RecordKeeps(t: Tables, e: Event)
    requires GraceExact(t) && e.Earned? && IsEntry(e)
    ensures GraceExact(AfterRecord(t, e))
  {
    BalanceAppend(t.history, e);
    if t.graceStart.Some? && Balance(t.history + [e]) <= 0.0 {
      var i: nat :| BeganStretch(t.history, i) && t.history[i].Spent? && t.graceStart.value == t.history[i].time;
      StretchContinues(t.history, e, i);
      assert (t.history + [e])[i] == t.history[i];
    }
  }

  lemma SpendKeeps(t: Tables, e: Event)
    requires GraceExact(t) && e.Spent? && IsEntry(e)
    ensures GraceExact(AfterSpend(t, e))
  {
    BalanceAppend(t.history, e);
    var h' := t.history + [e];
    if t.graceStart.Some? {
      var i: nat :| BeganStretch(t.history, i) && t.history[i].Spent? && t.graceStart.value == t.history[i].time;
      StretchContinues(t.history, e, i);
      assert h'[i] == t.history[i];
    } else if Balance(h') <= 0.0 {
      StretchBegins(t.history, e);
      assert h'[|t.history|] == e;
    }
  }

  predicate NoCrash(steps: seq<Step>) {
    forall s | s in steps :: IsStep(s) && !s.RecordCrash?
  }

  /** In every run without a crash between an entry and its clearing of grace, grace_start is exact. */
  lemma {:induction false} GraceIsExact(steps: seq<Step>)
    requires NoCrash(steps)
    ensures GraceExact(Run(steps))
  {
    if steps != [] {
      var init, last := steps[..|steps| - 1], steps[|steps| - 1];
      assert last in steps;
      GraceIsExact(init);
      match last {
        case Record(e) => RecordKeeps(Run(init), e);
        case Spend(e) => SpendKeeps(Run(init), e);
        case Query =>
      }
    }
  }

  /** So the node is in debt exactly when the current stretch has lasted more than 72 hours, in grace
      during its first 72 hours, and the clearing inside credit_state changes nothing. */
  lemma StateIsLengthOfStretch(steps: seq<Step>, now: real)
    requires NoCrash(steps)
    ensures Settle(Run(steps)) == Run(steps)
    ensures StateOf(Run(steps), now).Normal? <==> !InStretch(Run(steps).history)
    ensures forall i: nat | BeganStretch(Run(steps).history, i) ::
              StateOf(Run(steps), now).Debt? <==> now - Run(steps).history[i].time > 72.0 * 3600.0
  {
    GraceIsExact(steps);
    var t := Run(steps);
    forall i: nat | BeganStretch(t.history, i)
      ensures StateOf(t, now).Debt? <==> now - t.history[i].time > 72.0 * 3600.0
    {
      DebtAfterStretch(t, i, now);
    }
  }

  lemma DebtAfterStretch(t: Tables, i: nat, now: real)
    requires GraceExact(t) && BeganStretch(t.history, i)
    ensures StateOf(t, now).Debt? <==> now - t.history[i].time > 72.0 * 3600.0
  {
    assert t.history[..|t.history|] == t.history;
    var j: nat :| BeganStretch(t.history, j) && t.graceStart.value == t.history[j].time;
    StretchUnique(t.history, i, j);
  }

  // ---- With crashes -----------------------------------------------------------------------------------------

  /** What survives crashes: during a stretch grace_start is set, to the time of a spend at or before the
      one that began the stretch. */
  ghost predicate GraceEarly(t: Tables) {
    && (InStretch(t.history) ==> t.graceStart.Some?)
    && (t.graceStart.Some? ==> exists i :: 0 <= i < |t.history| && t.history[i].Spent?
                                         && t.graceStart.value == t.history[i].time
                                         && forall j: nat | BeganStretch(t.history, j) :: i <= j)
  }

  lemma StretchEarlier(h: seq<Event>, e: Event, j: nat)
    requires BeganStretch(h + [e], j)
    ensures j == |h| || BeganStretch(h, j)
  {
    var h' := h + [e];
    if j < |h| {
      assert h'[..j] == h[..j];
      assert forall k | j < k <= |h| :: h'[..k] == h[..k];
    }
  }

  lemma EarlyKept(t: Tables, e: Event)
    requires GraceEarly(t) && t.graceStart.Some?
    ensures Append(t, e).graceStart.Some? && GraceEarly(Append(t, e))
  {
    var h, h' := t.history, t.history + [e];
    var i :| 0 <= i < |h| && h[i].Spent? && t.graceStart.value == h[i].time
          && forall j: nat | BeganStretch(h, j) :: i <= j;
    assert h'[i] == h[i];
    forall j: nat | BeganStretch(h', j) ensures i <= j {
      StretchEarlier(h, e, j);
    }
  }

  lemma {:induction false} GraceIsEarly(steps: seq<Step>)
    requires forall s | s in steps :: IsStep(s)
    ensures GraceEarly(Run(steps))
  {
    if steps != [] {
      var init, last := steps[..|steps| - 1], steps[|steps| - 1];
      assert last in steps;
      GraceIsEarly(init);
      var t := Run(init);
      if last != Query {
        BalanceAppend(t.history, last.e);
        if t.graceStart.Some? {
          EarlyKept(t, last.e);
        } else if last.Spend? {
          var h' := t.history + [last.e];
          assert h'[|t.history|] == last.e;
          forall j: nat | BeganStretch(h', j) ensures |t.history| <= j {
            StretchEarlier(t.history, last.e, j);
            assert t.history[..|t.history|] == t.history;
          }
        }
      }
    }
  }

  /** A crash right after an entry's commit can leave grace_start at an earlier stretch, so that debt begins
      as soon as the balance is used up again. */
  lemma CrashShortensGrace(t0: real, t1: real, t2: real, now: real)
    requires t1 - t0 > 72.0 * 3600.0 && t2 >= t1
    ensures var t := Run([] + [Spend(Spent(1.0, t0))] + [RecordCrash(Earned(Crawl, 2.0, t1))]
                         + [Spend(Spent(1.0, t2))]);
            && t.graceStart == Some(t0)
            && BeganStretch(t.history, 2) && t.history[2].time == t2
            && StateOf(t, t2).Debt?
  {
    var s0, s1, s2 := Spend(Spent(1.0, t0)), RecordCrash(Earned(Crawl, 2.0, t1)), Spend(Spent(1.0, t2));
    RunAppend([], s0);
    RunAppend([] + [s0], s1);
    RunAppend([] + [s0] + [s1], s2);
    BalanceAppend([], s0.e);
    BalanceAppend([s0.e], s1.e);
    BalanceAppend([s0.e] + [s1.e], s2.e);
    assert [] + [s0.e] == [s0.e];
    StretchBegins([s0.e] + [s1.e], s2.e);
  }

  lemma RunAppend(steps: seq<Step>, s: Step)
    ensures Run(steps + [s]) == Do(Run(steps), s)
  {
    assert (steps + [s])[..|steps|] == steps;
  }

  /** The crash at step i comes between an entry that ended a stretch and the clearing of grace_start. */
  predicate CrashAtEndOfStretch(steps: seq<Step>, i: nat)
    requires i < |steps|
  {
    && steps[i].RecordCrash?
    && Run(steps[..i]).history != [] && Balance(Run(steps[..i]).history) <= 0.0
    && Balance(Run(steps[..i]).history + [steps[i].e]) > 0.0
  }

  lemma StepKeepsIff(t: Tables, s: Step)
    requires IsStep(s) && GraceExact(t)
    ensures GraceExact(Do(t, s))
       <==> !(s.RecordCrash? && InStretch(t.history) && Balance(t.history + [s.e]) > 0.0)
  {
    match s
    case Record(e) => RecordKeeps(t, e);
    case RecordCrash(e) => RecordKeeps(t, e);
    case Spend(e) => SpendKeeps(t, e);
    case Query =>
  }

  ghost predicate ExactThroughout(steps: seq<Step>) {
    forall k | 0 <= k <= |steps| :: ExactAfter()(steps[..k])
  }

  predicate NoCrashAtEndOfStretch(steps: seq<Step>) {
    forall i | 0 <= i < |steps| :: !CrashAtEndOfStretch(steps, i)
  }

  lemma PrefixesOfAppend(steps: seq<Step>, s: Step, p: seq<Step> -> bool)
    ensures (forall k | 0 <= k <= |steps| + 1 :: p((steps + [s])[..k]))
       <==> (forall k | 0 <= k <= |steps| :: p(steps[..k])) && p(steps + [s])
  {
    var all := steps + [s];
    assert all[..|all|] == all;
    forall k | 0 <= k <= |steps| ensures all[..k] == steps[..k] {
    }
  }

  ghost function ExactAfter(): seq<Step> -> bool {
    steps => GraceExact(Run(steps))
  }

  lemma ExactSoFar(steps: seq<Step>, s: Step)
    ensures ExactThroughout(steps + [s]) <==> ExactThroughout(steps) && GraceExact(Run(steps + [s]))
  {
    PrefixesOfAppend(steps, s, ExactAfter());
  }

  lemma CrashSoFar(steps: seq<Step>, s: Step)
    ensures NoCrashAtEndOfStretch(steps + [s])
       <==> NoCrashAtEndOfStretch(steps) && !CrashAtEndOfStretch(steps + [s], |steps|)
  {
    var all := steps + [s];
    forall i | 0 <= i < |steps| ensures CrashAtEndOfStretch(all, i) == CrashAtEndOfStretch(steps, i) {
      assert all[..i] == steps[..i];
    }
  }

  lemma LastStepExactIff(steps: seq<Step>, s: Step)
    requires IsStep(s) && GraceExact(Run(steps))
    ensures GraceExact(Run(steps + [s])) <==> !CrashAtEndOfStretch(steps + [s], |steps|)
  {
    RunAppend(steps, s);
    StepKeepsIff(Run(steps), s);
    assert (steps + [s])[..|steps|] == steps && (steps + [s])[|steps|] == s;
  }

  lemma ExactAtEnd(steps: seq<Step>)
    requires ExactThroughout(steps)
    ensures GraceExact(Run(steps))
  {
    assert steps[..|steps|] == steps;
    assert ExactAfter()(steps[..|steps|]);
  }

  lemma ExactIffNext(steps: seq<Step>, s: Step)
    requires IsStep(s) && (ExactThroughout(steps) <==> NoCrashAtEndOfStretch(steps))
    ensures ExactThroughout(steps + [s]) <==> NoCrashAtEndOfStretch(steps + [s])
  {
    ExactSoFar(steps, s);
    CrashSoFar(steps, s);
    if ExactThroughout(steps) {
      ExactAtEnd(steps);
      LastStepExactIff(steps, s);
    }
  }

  lemma ExactAtStart()
    ensures ExactThroughout([]) && NoCrashAtEndOfStretch([])
  {
    var none: seq<Step> := [];
    assert none[..0] == none;
  }

  lemma ExactIffLast(steps: seq<Step>, init: seq<Step>)
    requires steps != [] && init == steps[..|steps| - 1] && IsStep(steps[|steps| - 1])
    requires ExactThroughout(init) <==> NoCrashAtEndOfStretch(init)
    ensures ExactThroughout(steps) <==> NoCrashAtEndOfStretch(steps)
  {
    assert steps == init + [steps[|steps| - 1]];
    ExactIffNext(init, steps[|steps| - 1]);
  }

  /** grace_start is exact throughout a run if and only if no crash comes at the end of a stretch. */
  lemma {:induction false} ExactIffNoCrashAtEnd(steps: seq<Step>)
    requires forall s | s in steps :: IsStep(s)
    ensures ExactThroughout(steps) <==> NoCrashAtEndOfStretch(steps)
  {
    if steps == [] {
      ExactAtStart();
    } else {
      var init := steps[..|steps| - 1];
      ExactIffNoCrashAtEnd(init);
      ExactIffLast(steps, init);
    }
  }

  // ---- Contribution score and tier --------------------------------------------------------------------------

  function LlmCredits(h: seq<Event>): real {
    if h == [] then 0.0
    else LlmCredits(h[..|h| - 1]) + var e := h[|h| - 1]; if e.Earned? && IsLlm(e.action) then e.credits else 0.0
  }

  function OtherCredits(h: seq<Event>): real {
    if h == [] then 0.0
    else OtherCredits(h[..|h| - 1]) + var e := h[|h| - 1]; if e.Earned? && !IsLlm(e.action) then e.credits else 0.0
  }

  /** Credits from language-model work count for at most 60 % of the total. */
  function CappedScore(other: real, llm: real): real {
    var total := other + llm;
    other + if total > 0.0 && llm / total > 0.6 then other * (0.6 / (1.0 - 0.6)) else llm
  }

  function Score(h: seq<Event>): real {
    CappedScore(OtherCredits(h), LlmCredits(h))
  }

  function TierOf(score: real): Tier {
    if score >= 1000.0 then Tier3 else if score >= 100.0 then Tier2 else Tier1
  }

  function BaseCost(t: Tier): real {
    match t
    case Tier3 => 0.033
    case Tier2 => 0.05
    case Tier1 => 0.1
  }

  function Min(x: real, y: real): real {
    if x <= y then x else y
  }

  lemma RatioAbove(llm: real, total: real)
    requires total > 0.0
    ensures llm / total > 0.6 <==> llm > 0.6 * total
  {
    assert (llm / total) * total == llm;
    if llm / total > 0.6 {
      assert (llm / total - 0.6) * total > 0.0;
    } else {
      assert (0.6 - llm / total) * total >= 0.0;
    }
  }

  /** The branch in the code takes a minimum; so model work is never more than 60 % of the score. */
  lemma CappedScoreIsMinimum(other: real, llm: real)
    requires other >= 0.0 && llm >= 0.0
    ensures CappedScore(other, llm) == other + Min(llm, 1.5 * other)
    ensures CappedScore(other, llm) - other <= 0.6 * CappedScore(other, llm)
  {
    if other + llm > 0.0 {
      RatioAbove(llm, other + llm);
    }
  }

  predicate IsHistory(h: seq<Event>) {
    forall e | e in h :: IsEntry(e)
  }

  lemma {:induction false} CreditsNonNegative(h: seq<Event>)
    requires IsHistory(h)
    ensures LlmCredits(h) >= 0.0 && OtherCredits(h) >= 0.0
  {
    if h != [] {
      assert h[|h| - 1] in h;
      CreditsNonNegative(h[..|h| - 1]);
    }
  }

  /** However a history goes on, the score never falls, and so the base cost of a search never rises. */
  lemma {:induction false} ScoreNeverFalls(h: seq<Event>, later: seq<Event>)
    requires IsHistory(h) && IsHistory(later)
    ensures Score(h) <= Score(h + later)
    ensures BaseCost(TierOf(Score(h + later))) <= BaseCost(TierOf(Score(h)))
  {
    if later == [] {
      assert h + later == h;
    } else {
      var init, e := later[..|later| - 1], later[|later| - 1];
      assert e in later;
      ScoreNeverFalls(h, init);
      assert (h + later)[..|h + later| - 1] == h + init;
      assert IsHistory(h + init);
      CreditsNonNegative(h + init);
      CappedScoreIsMinimum(OtherCredits(h + init), LlmCredits(h + init));
      CreditsNonNegative(h + later);
      CappedScoreIsMinimum(OtherCredits(h + later), LlmCredits(h + later));
    }
  }

  // ---- The price of a search --------------------------------------------------------------------------------

  function EffectiveCost(t: Tables, now: real): real {
    var base := BaseCost(TierOf(Score(t.history)));
    if StateOf(t, now).Debt? then base * DEBT_COST_MULTIPLIER else base
  }

  /** In every run without such a crash the history alone sets the price: by the score, of which model work makes up at
      most 60 %, and doubled exactly while a stretch lasts that began more than 72 hours ago. */
  lemma PriceOfSearch(steps: seq<Step>, now: real)
    requires NoCrash(steps)
    ensures var h := Run(steps).history;
            var score := OtherCredits(h) + Min(LlmCredits(h), 1.5 * OtherCredits(h));
            var price := if score < 100.0 then 0.1 else if score < 1000.0 then 0.05 else 0.033;
            EffectiveCost(Run(steps), now)
            == if exists i: nat :: BeganStretch(h, i) && now - h[i].time > 72.0 * 3600.0 then 2.0 * price else price
  {
    var h := Run(steps).history;
    RunIsHistory(steps);
    CreditsNonNegative(h);
    CappedScoreIsMinimum(OtherCredits(h), LlmCredits(h));
    GraceIsExact(steps);
    StateIsLengthOfStretch(steps, now);
    assert h[..|h|] == h;
  }

  lemma {:induction false} RunIsHistory(steps: seq<Step>)
    requires forall s | s in steps :: IsStep(s)
    ensures IsHistory(Run(steps).history)
  {
    if steps != [] {
      assert steps[|steps| - 1] in steps;
      RunIsHistory(steps[..|steps| - 1]);
    }
  }

  /** A node that does no model work scores what it has earned. */
  lemma {:induction false} ScoreWithoutModels(h: seq<Event>)
    requires IsHistory(h)
    requires forall e | e in h :: e.Earned? && e.action != LlmSummarizeOwn && e.action != LlmSummarizePeer
    ensures Score(h) == Balance(h) == OtherCredits(h) && LlmCredits(h) == 0.0
  {
    if h != [] {
      assert h[|h| - 1] in h;
      ScoreWithoutModels(h[..|h| - 1]);
      CreditsNonNegative(h);
      CappedScoreIsMinimum(OtherCredits(h), LlmCredits(h));
    }
  }

  /** A node that does nothing else scores nothing. */
  lemma {:induction false} ScoreOfModels(h: seq<Event>)
    requires IsHistory(h)
    requires forall e | e in h :: e.Earned? && (e.action == LlmSummarizeOwn || e.action == LlmSummarizePeer)
    ensures Score(h) == OtherCredits(h) == 0.0 && LlmCredits(h) == Balance(h)
  {
    if h != [] {
      assert h[|h| - 1] in h;
      ScoreOfModels(h[..|h| - 1]);
      CreditsNonNegative(h);
      CappedScoreIsMinimum(OtherCredits(h), LlmCredits(h));
    }
  }

  /** What a node that only crawls and searches does. */
  datatype Activity = CrawlPages(pages: real, time: real) | Search(time: real)

  /** Every search is paid at the price the node is quoted at that moment. */
  function Act(t: Tables, a: Activity): Tables {
    match a
    case CrawlPages(pages, time) => AfterRecord(t, Earned(Crawl, ActionWeight(Crawl) * pages, time))
    case Search(time) => AfterSpend(t, Spent(EffectiveCost(t, time), time))
  }

  function Live(acts: seq<Activity>): Tables {
    if acts == [] then EMPTY else Act(Live(acts[..|acts| - 1]), acts[|acts| - 1])
  }

  function Pages(acts: seq<Activity>): real {
    if acts == [] then 0.0
    else Pages(acts[..|acts| - 1]) + var a := acts[|acts| - 1]; if a.CrawlPages? then a.pages else 0.0
  }

  function Searches(acts: seq<Activity>): nat {
    if acts == [] then 0 else Searches(acts[..|acts| - 1]) + if acts[|acts| - 1].Search? then 1 else 0
  }

  predicate WithinTenPerPage(acts: seq<Activity>) {
    forall k | 0 < k <= |acts| :: Searches(acts[..k]) as real < 10.0 * Pages(acts[..k])
  }

  predicate IsPositive(t: Tables) {
    t == EMPTY || Balance(t.history) > 0.0
  }

  lemma PositiveIsNormal(t: Tables, now: real)
    requires IsPositive(t)
    ensures StateOf(t, now).Normal? && 0.0 < EffectiveCost(t, now) <= 0.1
  {
  }

  lemma ActChange(t: Tables, a: Activity)
    requires IsPositive(t)
    ensures Balance(Act(t, a).history) >= Balance(t.history) + if a.CrawlPages? then a.pages else -0.1
  {
    match a
    case CrawlPages(pages, time) => BalanceAppend(t.history, Earned(Crawl, ActionWeight(Crawl) * pages, time));
    case Search(time) =>
      PositiveIsNormal(t, time);
      BalanceAppend(t.history, Spent(EffectiveCost(t, time), time));
  }

  lemma {:induction false} CrawlerBalance(acts: seq<Activity>)
    requires WithinTenPerPage(acts)
    ensures Balance(Live(acts).history) >= Pages(acts) - 0.1 * Searches(acts) as real
    ensures IsPositive(Live(acts))
  {
    if acts != [] {
      var n := |acts| - 1;
      var init := acts[..n];
      assert acts[..n + 1] == acts;
      assert forall k | 0 < k <= n :: init[..k] == acts[..k];
      CrawlerBalance(init);
      ActChange(Live(init), acts[n]);
    }
  }

  /** A node that only crawls, and never makes ten searches per page crawled, stays out of grace and debt
      and pays at most the first tier's price. */
  lemma CrawlerStaysNormal(acts: seq<Activity>, now: real)
    requires WithinTenPerPage(acts)
    ensures StateOf(Live(acts), now).Normal?
    ensures EffectiveCost(Live(acts), now) <= 0.1
  {
    CrawlerBalance(acts);
    PositiveIsNormal(Live(acts), now);
  }

  lemma {:induction false} SearchesAfterOnePage(n: nat, time: real) returns (acts: seq<Activity>)
    requires n <= 10
    ensures Pages(acts) == 1.0 && Searches(acts) == n
    ensures Balance(Live(acts).history) == 1.0 - 0.1 * n as real
    ensures OtherCredits(Live(acts).history) == 1.0 && LlmCredits(Live(acts).history) == 0.0
    ensures n < 10 ==> Live(acts).graceStart == None
    ensures n == 10 ==> Live(acts).graceStart == Some(time)
  {
    if n == 0 {
      acts := [CrawlPages(1.0, time)];
      assert acts[..0] == [];
      BalanceAppend([], Earned(Crawl, 1.0, time));
      assert [Earned(Crawl, 1.0, time)][..0] == [];
    } else {
      var init := SearchesAfterOnePage(n - 1, time);
      acts := init + [Search(time)];
      assert acts[..|init|] == init;
      var t := Live(init);
      var e := Spent(0.1, time);
      assert EffectiveCost(t, time) == 0.1;
      BalanceAppend(t.history, e);
      assert (t.history + [e])[..|t.history|] == t.history;
    }
  }

  /** The bound is sharp: after one page, the tenth search begins grace. */
  lemma TenthSearchBeginsGrace(time: real) returns (acts: seq<Activity>)
    ensures Pages(acts) == 1.0 && Searches(acts) == 10
    ensures StateOf(Live(acts), time).Grace?
  {
    acts := SearchesAfterOnePage(10, time);
  }
}
