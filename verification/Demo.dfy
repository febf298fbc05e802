/** The demo service's bounded queue and daily allowance (demo/service.py). */
module Demo {

  function Max(a: int, b: int): int {
    if a >= b then a else b
  }

  function MaxReal(a: real, b: real): real {
    if a >= b then a else b
  }

  datatype DemoConfig = DemoConfig(maximumRunUsd: real, maximumDailyUsd: real, concurrency: int, maximumQueued: int) {
    /** The semaphore's initial value. */
    function Slots(): nat {
      Max(1, concurrency)
    }
  }

  /** The allowance: a day, and what was charged on it so far. */
  datatype Spend = Spend(day: int, spentUsd: real) {
    function Rolled(today: int): Spend {
      if day != today then Spend(today, 0.0) else this
    }

    function Remaining(maximum: real): real {
      MaxReal(0.0, maximum - spentUsd)
    }

    function Recorded(today: int, usd: real): Spend {
      var s := Rolled(today);
      s.(spentUsd := s.spentUsd + MaxReal(0.0, usd))
    }
  }

  /** The counter, the semaphore's value, and how many requests stand at each of the places where
      one can be suspended: queued, woken but not yet resumed, and running. */
  datatype State = State(waiting: int, free: nat, queued: nat, woken: nat, running: nat, spend: Spend)

  /** What a run's accounting found: no key was minted, a usage figure, or none to be read. */
  datatype Outcome = NotMinted | Read(usd: real) | Unreadable

  /** One uninterrupted stretch between suspensions. A request that finds a free slot may take it
      at once or be queued; the semaphore wakes a queued one when it likes. */
  datatype Event =
    | Request(today: int, atOnce: bool)
    | Wake
    | Resume
    | CancelQueued
    | CancelWoken
    | Finish(today: int, outcome: Outcome)

  datatype Answer = BudgetSpent | QueueFull | Admitted

  function AnswerTo(c: DemoConfig, s: State, today: int): Answer {
    if s.spend.Rolled(today).Remaining(c.maximumDailyUsd) < c.maximumRunUsd then BudgetSpent
    else if s.waiting >= c.maximumQueued then QueueFull
    else Admitted
  }

  function Account(c: DemoConfig, spend: Spend, today: int, outcome: Outcome): Spend {
    match outcome
    case NotMinted => spend
    case Read(usd) => spend.Recorded(today, usd)
    case Unreadable => spend.Recorded(today, c.maximumRunUsd)
  }

  /** What a finished run adds to the day. */
  function Charge(c: DemoConfig, outcome: Outcome): real {
    match outcome
    case NotMinted => 0.0
    case Read(usd) => MaxReal(0.0, usd)
    case Unreadable => MaxReal(0.0, c.maximumRunUsd)
  }

  function Start(c: DemoConfig, today: int): State {
    State(0, c.Slots(), 0, 0, 0, Spend(today, 0.0))
  }

  /** An event that cannot happen here changes nothing. */
  function Happen(c: DemoConfig, s: State, e: Event): State {
    match e
    case Request(today, atOnce) =>
      var t := s.(spend := s.spend.Rolled(today));
      if AnswerTo(c, s, today) != Admitted then t
      else if atOnce && s.free > 0 then t.(free := s.free - 1, running := s.running + 1)
      else t.(waiting := s.waiting + 1, queued := s.queued + 1)
    case Wake =>
      if s.queued == 0 || s.free == 0 then s
      else s.(free := s.free - 1, queued := s.queued - 1, woken := s.woken + 1)
    case Resume =>
      if s.woken == 0 then s
      else s.(waiting := s.waiting - 1, woken := s.woken - 1, running := s.running + 1)
    case CancelQueued =>
      if s.queued == 0 then s
      else s.(waiting := Max(0, s.waiting - 1), queued := s.queued - 1)
    case CancelWoken =>
      if s.woken == 0 then s
      else s.(waiting := Max(0, s.waiting - 1), woken := s.woken - 1, free := s.free + 1)
    case Finish(today, outcome) =>
      if s.running == 0 then s
      else s.(waiting := Max(0, s.waiting + 1 - 1), running := s.running - 1, free := s.free + 1,
              spend := Account(c, s.spend, today, outcome))
  }

  function After(c: DemoConfig, s: State, events: seq<Event>): State {
    if events == [] then s
    else Happen(c, After(c, s, events[..|events| - 1]), events[|events| - 1])
  }

  // ---------------------------------------------------------------- the queue

  /** The counter is the number suspended before running, within the queue's bound, and every slot
      is free, promised or in use. */
  ghost predicate Counted(c: DemoConfig, s: State) {
    && s.waiting == s.queued + s.woken <= Max(0, c.maximumQueued)
    && s.free + s.woken + s.running == c.Slots()
  }

  lemma HappenKeepsCounted(c: DemoConfig, s: State, e: Event)
    requires Counted(c, s)
    ensures Counted(c, Happen(c, s, e))
  {
  }

  lemma {:induction false} AlwaysCounted(c: DemoConfig, today: int, events: seq<Event>)
    ensures var s := After(c, Start(c, today), events);
            Counted(c, s) && s.running <= c.Slots() && s.queued + s.woken + s.running <= Most(c)
  {
    if events != [] {
      AlwaysCounted(c, today, events[..|events| - 1]);
      HappenKeepsCounted(c, After(c, Start(c, today), events[..|events| - 1]), events[|events| - 1]);
    }
  }

  /** The clamp at zero on the way out never changes the counter: whoever leaves is counted. */
  lemma ClampNeverFires(c: DemoConfig, today: int, events: seq<Event>)
    ensures var s := After(c, Start(c, today), events);
            && (s.queued > 0 || s.woken > 0 ==> Max(0, s.waiting - 1) == s.waiting - 1)
            && Max(0, s.waiting + 1 - 1) == s.waiting
  {
    AlwaysCounted(c, today, events);
  }

  // ---------------------------------------------------------------- the allowance

  function InFlight(s: State): nat {
    s.queued + s.woken + s.running
  }

  /** The most that can be in flight together. */
  function Most(c: DemoConfig): nat {
    c.Slots() + Max(0, c.maximumQueued)
  }

  /** What `n` runs come to at `r` each. */
  function AllRuns(n: nat, r: real): real {
    if n == 0 then 0.0 else AllRuns(n - 1, r) + r
  }

  lemma {:induction false} AllRunsIsProduct(n: nat, r: real)
    ensures AllRuns(n, r) == n as real * r
  {
    if n > 0 {
      AllRunsIsProduct(n - 1, r);
      assert n as real * r == (n - 1) as real * r + r;
    }
  }

  lemma {:induction false} FewerCostLess(a: nat, b: nat, r: real)
    requires a <= b && r >= 0.0
    ensures 0.0 <= AllRuns(a, r) <= AllRuns(b, r)
    decreases b
  {
    if a < b {
      FewerCostLess(a, b - 1, r);
    } else if b > 0 {
      FewerCostLess(a - 1, b - 1, r);
    }
  }

  /** What a day's charges can come to when no run costs more than `r`. */
  function DayBound(c: DemoConfig, r: real): real {
    c.maximumDailyUsd - c.maximumRunUsd + AllRuns(Most(c), r)
  }

  predicate CostsAtMost(c: DemoConfig, e: Event, r: real) {
    e.Finish? ==> Charge(c, e.outcome) <= r
  }

  predicate AllCostAtMost(c: DemoConfig, events: seq<Event>, r: real) {
    forall i :: 0 <= i < |events| ==> CostsAtMost(c, events[i], r)
  }

  /** Either nothing was ever admitted, or the day's charges and all that is in flight fit. */
  ghost predicate Covered(c: DemoConfig, s: State, r: real) {
    && Counted(c, s) && s.spend.spentUsd >= 0.0
    && (if c.maximumDailyUsd < c.maximumRunUsd then InFlight(s) == 0 && s.spend.spentUsd == 0.0
        else s.spend.spentUsd + AllRuns(InFlight(s), r) <= DayBound(c, r))
  }

  lemma HappenKeepsCovered(c: DemoConfig, s: State, e: Event, r: real)
    requires c.maximumRunUsd > 0.0 && r >= 0.0 && CostsAtMost(c, e, r)
    requires Covered(c, s, r)
    ensures Covered(c, Happen(c, s, e), r)
  {
    var t := Happen(c, s, e);
    HappenKeepsCounted(c, s, e);
    FewerCostLess(InFlight(t), Most(c), r);
    if InFlight(t) <= InFlight(s) {
      FewerCostLess(InFlight(t), InFlight(s), r);
    }
    if e.Finish? && s.running > 0 {
      FewerCostLess(InFlight(s), Most(c), r);
    }
  }

  /** In every run the day's charges stay within the allowance, less one run's cap, plus what the
      slots and the queue can hold. The whole queue is admitted against one balance. */
  lemma {:induction false} AlwaysCovered(c: DemoConfig, today: int, events: seq<Event>, r: real)
    requires c.maximumRunUsd > 0.0 && r >= 0.0 && AllCostAtMost(c, events, r)
    ensures Covered(c, After(c, Start(c, today), events), r)
  {
    if events != [] {
      var before := events[..|events| - 1];
      AlwaysCovered(c, today, before, r);
      HappenKeepsCovered(c, After(c, Start(c, today), before), events[|events| - 1], r);
    } else {
      FewerCostLess(0, Most(c), r);
    }
  }

  /** What was charged on one calendar day, over the whole run. */
  function ChargedOn(c: DemoConfig, start: State, events: seq<Event>, day: int): real {
    if events == [] then 0.0
    else
      var before := events[..|events| - 1];
      var e := events[|events| - 1];
      ChargedOn(c, start, before, day) +
      (if e.Finish? && e.today == day && After(c, start, before).running > 0 then Charge(c, e.outcome) else 0.0)
  }

  function DayOf(e: Event, otherwise: int): int {
    if e.Request? || e.Finish? then e.today else otherwise
  }

  /** The last day any event looked at the clock. */
  function Latest(today: int, events: seq<Event>): int {
    if events == [] then today else DayOf(events[|events| - 1], Latest(today, events[..|events| - 1]))
  }

  /** The clock does not go back to an earlier day. */
  predicate Forward(today: int, events: seq<Event>) {
    events == [] ||
    (Forward(today, events[..|events| - 1]) && Latest(today, events[..|events| - 1]) <= Latest(today, events))
  }

  lemma {:induction false} NothingChargedAhead(c: DemoConfig, today: int, events: seq<Event>, day: int)
    requires Forward(today, events) && Latest(today, events) < day
    ensures ChargedOn(c, Start(c, today), events, day) == 0.0
  {
    if events != [] {
      NothingChargedAhead(c, today, events[..|events| - 1], day);
    }
  }

  /** The total held for the current day is what was charged on it, unless a free finish has moved
      the clock past it, and then nothing was charged on the newer day yet. */
  lemma {:induction false} SpentIsTheDaysCharges(c: DemoConfig, today: int, events: seq<Event>)
    requires Forward(today, events)
    ensures var spend := After(c, Start(c, today), events).spend;
            && spend.day <= Latest(today, events)
            && spend.spentUsd == ChargedOn(c, Start(c, today), events, spend.day)
            && forall day :: spend.day < day ==> ChargedOn(c, Start(c, today), events, day) == 0.0
  {
    if events != [] {
      var before, e := events[..|events| - 1], events[|events| - 1];
      var was := After(c, Start(c, today), before).spend;
      SpentIsTheDaysCharges(c, today, before);
      var now := After(c, Start(c, today), events).spend;
      if now.day != was.day {
        assert now.day == e.today && was.day < now.day;
      }
    }
  }

  ghost predicate WithinDay(c: DemoConfig, r: real, charged: real) {
    if c.maximumDailyUsd < c.maximumRunUsd then charged == 0.0 else charged <= DayBound(c, r)
  }

  lemma CoveredIsWithin(c: DemoConfig, s: State, r: real)
    requires Covered(c, s, r) && r >= 0.0
    ensures WithinDay(c, r, s.spend.spentUsd)
  {
    FewerCostLess(0, InFlight(s), r);
  }

  /** Day by day, whatever is admitted, cancelled or finished when: no day's charges exceed the
      allowance, less one run's cap, by more than every run that can be in flight. */
  lemma {:induction false} EveryDayIsBounded(c: DemoConfig, today: int, events: seq<Event>, r: real, day: int)
    requires c.maximumRunUsd > 0.0 && r >= 0.0 && AllCostAtMost(c, events, r) && Forward(today, events)
    ensures WithinDay(c, r, ChargedOn(c, Start(c, today), events, day))
  {
    FewerCostLess(0, Most(c), r);
    if events != [] {
      var now := After(c, Start(c, today), events);
      SpentIsTheDaysCharges(c, today, events);
      if day == now.spend.day {
        AlwaysCovered(c, today, events, r);
        CoveredIsWithin(c, now, r);
      } else {
        EveryDayIsBounded(c, today, events[..|events| - 1], r, day);
      }
    }
  }

  /** When no run costs more than its cap, the overshoot is at most all but one of those runs. */
  lemma OvershootIsAllButOne(c: DemoConfig, today: int, events: seq<Event>, r: real, day: int)
    requires 0.0 <= r <= c.maximumRunUsd <= c.maximumDailyUsd && c.maximumRunUsd > 0.0
    requires AllCostAtMost(c, events, r) && Forward(today, events)
    ensures ChargedOn(c, Start(c, today), events, day) <= c.maximumDailyUsd + AllRuns(Most(c) - 1, r)
  {
    EveryDayIsBounded(c, today, events, r, day);
  }

  // ---------------------------------------------------------------- the bound is reached

  function Times(e: Event, n: nat): seq<Event> {
    if n == 0 then [] else Times(e, n - 1) + [e]
  }

  lemma TimesAfter(c: DemoConfig, s: State, e: Event, n: nat)
    requires n > 0
    ensures After(c, s, Times(e, n)) == Happen(c, After(c, s, Times(e, n - 1)), e)
  {
    var all := Times(e, n);
    assert all[..|all| - 1] == Times(e, n - 1);
  }

  /** Nothing in flight, and so much charged to the day. */
  function Idle(c: DemoConfig, today: int, spent: real): State {
    State(0, c.Slots(), 0, 0, 0, Spend(today, spent))
  }

  /** What can be charged before a request is refused. */
  predicate Affordable(c: DemoConfig, spent: real) {
    c.maximumQueued >= 1 && spent <= c.maximumDailyUsd - c.maximumRunUsd
  }

  /** The state when `n` have been admitted and none has finished. */
  function Filled(c: DemoConfig, today: int, spent: real, n: nat): State {
    var running := if n <= c.Slots() then n else c.Slots();
    State(n - running, c.Slots() - running, n - running, 0, running, Spend(today, spent))
  }

  lemma OneMoreFilled(c: DemoConfig, today: int, spent: real, n: nat)
    requires Affordable(c, spent) && 0 < n <= Most(c)
    ensures Happen(c, Filled(c, today, spent, n - 1), Request(today, true)) == Filled(c, today, spent, n)
  {
  }

  /** `n` requests on one day, each taking a slot if one is free. */
  lemma {:induction false} Filling(c: DemoConfig, today: int, spent: real, n: nat)
    requires Affordable(c, spent) && n <= Most(c)
    ensures After(c, Idle(c, today, spent), Times(Request(today, true), n)) == Filled(c, today, spent, n)
  {
    if n > 0 {
      var e := Request(today, true);
      Filling(c, today, spent, n - 1);
      TimesAfter(c, Idle(c, today, spent), e, n);
      OneMoreFilled(c, today, spent, n);
    }
  }

  /** Everything admitted, then `served` finished one at a time, each making room for one queued. */
  function Serving(c: DemoConfig, today: int, r: real, served: nat): seq<Event> {
    if served == 0 then Times(Request(today, true), Most(c))
    else Serving(c, today, r, served - 1) + [Finish(today, Read(r)), Wake, Resume]
  }

  lemma ThreeMore(c: DemoConfig, s: State, events: seq<Event>, x: Event, y: Event, z: Event)
    ensures After(c, s, events + [x, y, z]) == Happen(c, Happen(c, Happen(c, After(c, s, events), x), y), z)
  {
    var three, two, one := events + [x, y, z], events + [x, y], events + [x];
    assert one[..|one| - 1] == events && After(c, s, one) == Happen(c, After(c, s, events), x);
    assert two[..|two| - 1] == one && After(c, s, two) == Happen(c, After(c, s, one), y);
    assert three[..|three| - 1] == two && After(c, s, three) == Happen(c, After(c, s, two), z);
  }

  /** One finishes, and one that was queued takes its slot. */
  lemma ServeOne(c: DemoConfig, start: State, events: seq<Event>, today: int, spent: real, r: real, left: nat)
    requires r >= 0.0 && After(c, start, events) == State(left + 1, 0, left + 1, 0, c.Slots(), Spend(today, spent))
    ensures After(c, start, events + [Finish(today, Read(r)), Wake, Resume])
            == State(left, 0, left, 0, c.Slots(), Spend(today, spent + r))
  {
    var full := After(c, start, events);
    ThreeMore(c, start, events, Finish(today, Read(r)), Wake, Resume);
    var finished := Happen(c, full, Finish(today, Read(r)));
    assert finished == State(left + 1, 1, left + 1, 0, c.Slots() - 1, Spend(today, spent + r));
    assert Happen(c, finished, Wake) == State(left + 1, 0, left, 1, c.Slots() - 1, Spend(today, spent + r));
  }

  lemma {:induction false} ServingState(c: DemoConfig, today: int, spent: real, r: real, served: nat)
    requires Affordable(c, spent) && r >= 0.0 && served <= c.maximumQueued
    ensures var left := c.maximumQueued - served;
            After(c, Idle(c, today, spent), Serving(c, today, r, served))
            == State(left, 0, left, 0, c.Slots(), Spend(today, spent + AllRuns(served, r)))
  {
    if served == 0 {
      Filling(c, today, spent, Most(c));
    } else {
      ServingState(c, today, spent, r, served - 1);
      ServeOne(c, Idle(c, today, spent), Serving(c, today, r, served - 1), today, spent + AllRuns(served - 1, r), r,
               c.maximumQueued - served);
    }
  }

  function Draining(c: DemoConfig, today: int, r: real, drained: nat): seq<Event>
    requires c.maximumQueued >= 1
  {
    if drained == 0 then Serving(c, today, r, c.maximumQueued)
    else Draining(c, today, r, drained - 1) + [Finish(today, Read(r))]
  }

  lemma {:induction false} DrainingState(c: DemoConfig, today: int, spent: real, r: real, drained: nat)
    requires Affordable(c, spent) && r >= 0.0 && drained <= c.Slots()
    ensures After(c, Idle(c, today, spent), Draining(c, today, r, drained))
            == State(0, drained, 0, 0, c.Slots() - drained, Spend(today, spent + AllRuns(c.maximumQueued + drained, r)))
  {
    if drained == 0 {
      ServingState(c, today, spent, r, c.maximumQueued);
    } else {
      DrainingState(c, today, spent, r, drained - 1);
      var all := Draining(c, today, r, drained);
      assert all[..|all| - 1] == Draining(c, today, r, drained - 1);
    }
  }

  /** Every run in that scenario costs the same. */
  lemma {:induction false} TimesCost(c: DemoConfig, e: Event, n: nat, r: real)
    requires CostsAtMost(c, e, r)
    ensures AllCostAtMost(c, Times(e, n), r)
  {
    if n > 0 {
      TimesCost(c, e, n - 1, r);
    }
  }

  lemma {:induction false} ServingCost(c: DemoConfig, today: int, r: real, served: nat)
    requires r >= 0.0
    ensures AllCostAtMost(c, Serving(c, today, r, served), r)
  {
    if served == 0 {
      TimesCost(c, Request(today, true), Most(c), r);
    } else {
      ServingCost(c, today, r, served - 1);
    }
  }

  lemma {:induction false} DrainingCost(c: DemoConfig, today: int, r: real, drained: nat)
    requires c.maximumQueued >= 1 && r >= 0.0
    ensures AllCostAtMost(c, Draining(c, today, r, drained), r)
  {
    if drained == 0 {
      ServingCost(c, today, r, c.maximumQueued);
    } else {
      DrainingCost(c, today, r, drained - 1);
    }
  }

  /** One request that runs alone and costs so much. */
  function Alone(today: int, cost: real): seq<Event> {
    [Request(today, true), Finish(today, Read(cost))]
  }

  lemma {:induction false} AfterBoth(c: DemoConfig, s: State, a: seq<Event>, b: seq<Event>)
    ensures After(c, s, a + b) == After(c, After(c, s, a), b)
    decreases |b|
  {
    if b == [] {
      assert a + b == a;
    } else {
      assert (a + b)[..|a + b| - 1] == a + b[..|b| - 1];
      AfterBoth(c, s, a, b[..|b| - 1]);
    }
  }

  lemma AloneCosts(c: DemoConfig, today: int, spent: real, cost: real)
    requires Affordable(c, spent) && cost >= 0.0
    ensures After(c, Idle(c, today, spent), Alone(today, cost)) == Idle(c, today, spent + cost)
  {
    var events := Alone(today, cost);
    assert events[..1] == [events[0]] && events[..1][..0] == [];
    assert After(c, Idle(c, today, spent), events[..1]) == Happen(c, Idle(c, today, spent), events[0]);
  }

  /** `n` such runs, one after the other. */
  function OneByOne(today: int, r: real, n: nat): seq<Event> {
    if n == 0 then [] else OneByOne(today, r, n - 1) + Alone(today, r)
  }

  lemma {:induction false} OneByOneCosts(c: DemoConfig, today: int, r: real, n: nat)
    requires r >= 0.0 && Affordable(c, AllRuns(n, r))
    ensures After(c, Start(c, today), OneByOne(today, r, n)) == Idle(c, today, AllRuns(n, r))
  {
    if n > 0 {
      OneByOneCosts(c, today, r, n - 1);
      AfterBoth(c, Start(c, today), OneByOne(today, r, n - 1), Alone(today, r));
      AloneCosts(c, today, AllRuns(n - 1, r), r);
    }
  }

  lemma {:induction false} OneByOneCost(c: DemoConfig, today: int, r: real, n: nat)
    requires r >= 0.0
    ensures AllCostAtMost(c, OneByOne(today, r, n), r)
  {
    if n > 0 {
      OneByOneCost(c, today, r, n - 1);
      CostBoth(c, OneByOne(today, r, n - 1), Alone(today, r), r);
    }
  }

  /** Any amount is so many runs at `r` and one at less. */
  lemma WholeRuns(amount: real, r: real) returns (n: nat, last: real)
    requires amount >= 0.0 && r > 0.0
    ensures 0.0 <= last <= r && AllRuns(n, r) + last == amount
  {
    var q := amount / r;
    QuotientTimes(amount, r, q);
    var enough: nat := q.Floor + 1;
    EnoughRuns(enough, q, r);
    n, last := WholeRunsWithin(enough, amount, r);
  }

  lemma WholeRunsWithin(enough: nat, amount: real, r: real) returns (n: nat, last: real)
    requires 0.0 <= amount <= AllRuns(enough, r) && r > 0.0
    ensures 0.0 <= last <= r && AllRuns(n, r) + last == amount
  {
    if enough == 0 {
      n, last := 0, 0.0;
    } else if amount >= AllRuns(enough - 1, r) {
      n, last := enough - 1, amount - AllRuns(enough - 1, r);
    } else {
      n, last := WholeRunsWithin(enough - 1, amount, r);
    }
  }

  lemma {:induction false} EnoughRuns(n: nat, q: real, r: real)
    requires r >= 0.0 && q <= n as real
    ensures q * r <= AllRuns(n, r)
  {
    if n == 0 {
      NotPositive(q, r);
    } else {
      EnoughRuns(n - 1, q - 1.0, r);
      OneRunLess(q, r);
    }
  }

  lemma NotPositive(q: real, r: real)
    requires r >= 0.0 && q <= 0.0
    ensures q * r <= 0.0
  {
  }

  lemma OneRunLess(q: real, r: real)
    ensures (q - 1.0) * r == q * r - r
  {
  }

  lemma QuotientTimes(amount: real, r: real, q: real)
    requires amount >= 0.0 && r > 0.0 && q == amount / r
    ensures q * r == amount && q >= 0.0
  {
  }

  lemma CostBoth(c: DemoConfig, a: seq<Event>, b: seq<Event>, r: real)
    requires AllCostAtMost(c, a, r) && AllCostAtMost(c, b, r)
    ensures AllCostAtMost(c, a + b, r)
  {
  }

  /** The allowance is spent down to one run's cap. */
  lemma SpareIsSpent(c: DemoConfig, today: int, r: real) returns (events: seq<Event>)
    requires c.maximumQueued >= 1 && c.maximumRunUsd <= c.maximumDailyUsd && r > 0.0
    ensures AllCostAtMost(c, events, r)
    ensures After(c, Start(c, today), events) == Idle(c, today, c.maximumDailyUsd - c.maximumRunUsd)
  {
    var n, last := WholeRuns(c.maximumDailyUsd - c.maximumRunUsd, r);
    var first := OneByOne(today, r, n);
    events := first + Alone(today, last);
    OneByOneCosts(c, today, r, n);
    OneByOneCost(c, today, r, n);
    AloneCosts(c, today, AllRuns(n, r), last);
    AfterBoth(c, Start(c, today), first, Alone(today, last));
    CostBoth(c, first, Alone(today, last), r);
  }

  /** The bound cannot be lowered: the allowance is first spent down to one run's cap, and then all
      that fits is admitted against that balance and charged to the one day. */
  lemma BoundIsReached(c: DemoConfig, today: int, r: real)
    requires c.maximumQueued >= 1 && c.maximumRunUsd <= c.maximumDailyUsd && r > 0.0
    ensures exists events ::
              AllCostAtMost(c, events, r) && After(c, Start(c, today), events).spend.spentUsd == DayBound(c, r)
  {
    var lead := SpareIsSpent(c, today, r);
    var full := Draining(c, today, r, c.Slots());
    DrainingState(c, today, c.maximumDailyUsd - c.maximumRunUsd, r, c.Slots());
    DrainingCost(c, today, r, c.Slots());
    AfterBoth(c, Start(c, today), lead, full);
    CostBoth(c, lead, full, r);
    assert Most(c) == c.maximumQueued + c.Slots();
  }

  /** A run cap of zero is never refused on budget, whatever was spent. */
  lemma NoCapNoBudget(c: DemoConfig, s: State, today: int)
    ensures (forall spend :: AnswerTo(c, s.(spend := spend), today) != BudgetSpent) <==> c.maximumRunUsd <= 0.0
  {
    if c.maximumRunUsd > 0.0 {
      assert AnswerTo(c, s.(spend := Spend(today, c.maximumDailyUsd)), today) == BudgetSpent;
    }
  }

  // ---------------------------------------------------------------- the service

  /** The service between suspensions. The last three counters are where the requests are, which
      the program keeps in its suspended tasks. */
  class DemoService {
    const config: DemoConfig
    var waiting: int
    var free: nat
    var queued: nat
    var woken: nat
    var running: nat
    var day: int
    var spentUsd: real

    ghost function Now(): State
      reads this
    {
      State(waiting, free, queued, woken, running, Spend(day, spentUsd))
    }

    constructor (config: DemoConfig, today: int)
      ensures this.config == config && Now() == Start(config, today)
    {
      this.config := config;
      waiting, free, queued, woken, running := 0, Max(1, config.concurrency), 0, 0, 0;
      day, spentUsd := today, 0.0;
    }

    method Remaining(today: int) returns (left: real)
      modifies this`day, this`spentUsd
      ensures Now() == old(Now()).(spend := old(Now()).spend.Rolled(today))
      ensures left == Now().spend.Remaining(config.maximumDailyUsd)
    {
      if day != today {
        day, spentUsd := today, 0.0;
      }
      left := MaxReal(0.0, config.maximumDailyUsd - spentUsd);
    }

    method RecordSpend(today: int, usd: real)
      modifies this`day, this`spentUsd
      ensures Now() == old(Now()).(spend := old(Now()).spend.Recorded(today, usd))
    {
      var left := Remaining(today);
      spentUsd := spentUsd + MaxReal(0.0, usd);
    }

    /** Up to the first suspension: refused, running, or queued for a slot. */
    method Enter(today: int, atOnce: bool) returns (answer: Answer)
      requires Counted(config, Now())
      modifies this
      ensures answer == AnswerTo(config, old(Now()), today)
      ensures Now() == Happen(config, old(Now()), Request(today, atOnce)) && Counted(config, Now())
    {
      var left := Remaining(today);
      if left < config.maximumRunUsd {
        return BudgetSpent;
      }
      if waiting >= config.maximumQueued {
        return QueueFull;
      }
      waiting := waiting + 1;
      if atOnce && free > 0 {
        free := free - 1;
        waiting := waiting - 1;
        running := running + 1;
      } else {
        queued := queued + 1;
      }
      return Admitted;
    }

    /** A queued request is given a slot; its task has not run yet. */
    method WakeOne()
      requires queued > 0 && free > 0
      modifies this`free, this`queued, this`woken
      ensures Now() == Happen(config, old(Now()), Wake)
    {
      free, queued, woken := free - 1, queued - 1, woken + 1;
    }

    method EnterSlot()
      requires woken > 0
      modifies this`waiting, this`woken, this`running
      ensures Now() == Happen(config, old(Now()), Resume)
    {
      waiting := waiting - 1;
      woken, running := woken - 1, running + 1;
    }

    /** Cancelled before it ran, with or without a slot already given to it. */
    method CancelWaiting(hadSlot: bool)
      requires Counted(config, Now()) && (if hadSlot then woken > 0 else queued > 0)
      modifies this
      ensures Now() == Happen(config, old(Now()), if hadSlot then CancelWoken else CancelQueued)
      ensures waiting == old(waiting) - 1 && Counted(config, Now())
    {
      if hadSlot {
        woken, free := woken - 1, free + 1;
      } else {
        queued := queued - 1;
      }
      waiting := Max(0, waiting - 1);
    }

    /** A run ends, by returning, by an exception or by cancellation: charged, counted out, slot
        given back. */
    method Leave(today: int, outcome: Outcome)
      requires Counted(config, Now()) && running > 0
      modifies this
      ensures Now() == Happen(config, old(Now()), Finish(today, outcome))
      ensures waiting == old(waiting) && Counted(config, Now())
    {
      match outcome {
        case NotMinted =>
        case Read(usd) => RecordSpend(today, usd);
        case Unreadable => RecordSpend(today, config.maximumRunUsd);
      }
      waiting := waiting + 1;
      running, free := running - 1, free + 1;
      waiting := Max(0, waiting - 1);
    }
  }
}
