/** The reserve-then-settle budget ledger and its prices (gateway/metering.py). */
module Metering {
  import opened Wrappers
  import opened Sums

  datatype Kind = Llm | Search | Embedding | UnknownKind

  datatype BudgetError =
    | NotAdmitted
    | TooManyRequests
    | TooManySearches
    | OverBudget
    | AlreadySettled
    | NegativeTokens
    | NoPrice
    | NoOutputBound

  // ---------------------------------------------------------------- prices

  datatype PriceTable = PriceTable(rccPer1kIn: nat, rccPer1kOut: nat, rccPerSearch: nat)

  /** A thousandth of `x`, rounded up. */
  function CeilPerThousand(x: int): int {
    -(-x / 1_000)
  }

  function RccForTokens(p: PriceTable, tokensIn: int, tokensOut: int): Result<int, BudgetError> {
    if tokensIn < 0 || tokensOut < 0 then Failure(NegativeTokens)
    else Success(CeilPerThousand(tokensIn * p.rccPer1kIn) + CeilPerThousand(tokensOut * p.rccPer1kOut))
  }

  function EstimateRcc(p: PriceTable, kind: Kind, promptTokens: int, maxTokens: int): Result<int, BudgetError> {
    match kind
    case Search => Success(p.rccPerSearch)
    case Embedding => RccForTokens(p, promptTokens, 0)
    case UnknownKind => Failure(NoPrice)
    case Llm => if maxTokens <= 0 then Failure(NoOutputBound) else RccForTokens(p, promptTokens, maxTokens)
  }

  /** Usage within what was reserved never costs more than the reservation. */
  lemma UsageWithinEstimate(p: PriceTable, tokensIn: int, tokensOut: int, promptTokens: int, maxTokens: int)
    requires 0 <= tokensIn <= promptTokens && 0 <= tokensOut <= maxTokens && 0 < maxTokens
    ensures var cost := RccForTokens(p, tokensIn, tokensOut);
            var estimate := EstimateRcc(p, Llm, promptTokens, maxTokens);
            cost.Success? && estimate.Success? && 0 <= cost.value <= estimate.value
  {
    MulMonotone(tokensIn, promptTokens, p.rccPer1kIn);
    MulMonotone(tokensOut, maxTokens, p.rccPer1kOut);
    MulMonotone(0, tokensIn, p.rccPer1kIn);
    MulMonotone(0, tokensOut, p.rccPer1kOut);
  }

  /** Splitting a call in two never makes it cheaper, and no call that used anything is free. */
  lemma NoDiscountForSplitting(p: PriceTable, in1: nat, out1: nat, in2: nat, out2: nat)
    ensures RccForTokens(p, in1 + in2, out1 + out2).value
            <= RccForTokens(p, in1, out1).value + RccForTokens(p, in2, out2).value
    ensures in1 * p.rccPer1kIn + out1 * p.rccPer1kOut <= 1_000 * RccForTokens(p, in1, out1).value
    ensures in1 * p.rccPer1kIn + out1 * p.rccPer1kOut > 0 ==> RccForTokens(p, in1, out1).value > 0
  {
    SplitCost(in1, in2, p.rccPer1kIn);
    SplitCost(out1, out2, p.rccPer1kOut);
  }

  lemma SplitCost(a: nat, b: nat, price: nat)
    ensures CeilPerThousand((a + b) * price) <= CeilPerThousand(a * price) + CeilPerThousand(b * price)
    ensures 0 <= a * price <= 1_000 * CeilPerThousand(a * price)
  {
    CeilSplits(a * price, b * price, (a + b) * price);
    MulMonotone(0, a, price);
  }

  lemma CeilSplits(x: int, y: int, both: int)
    requires both == x + y
    ensures CeilPerThousand(both) <= CeilPerThousand(x) + CeilPerThousand(y)
    ensures x <= 1_000 * CeilPerThousand(x)
  {
  }

  // ---------------------------------------------------------------- the ledger as a value

  datatype Reservation = Reservation(run: string, id: nat, rcc: int, kind: Kind)

  datatype Limits = Limits(rcc: int, requests: int, searchCalls: int)

  datatype Counts = Counts(requests: nat, searchCalls: nat)

  datatype Totals = Totals(rcc: int, counts: Counts)

  /** One run's open account. */
  datatype Account = Account(settled: int, held: map<nat, int>, limits: Limits, counts: Counts)
  {
    /** Settled plus outstanding. */
    ghost function Spent(): int {
      settled + Sum(held)
    }
  }

  datatype Books = Books(accounts: map<string, Account>, nextId: nat)

  const NOTHING_OPEN := Books(map[], 0)

  function AdmitBooks(b: Books, run: string, limits: Limits): Books {
    if run in b.accounts then b
    else b.(accounts := b.accounts[run := Account(0, map[], limits, Counts(0, 0))])
  }

  ghost function CloseTotals(b: Books, run: string): Totals {
    if run in b.accounts then Totals(b.accounts[run].Spent(), b.accounts[run].counts)
    else Totals(0, Counts(0, 0))
  }

  function CloseBooks(b: Books, run: string): Books {
    b.(accounts := b.accounts - {run})
  }

  ghost function ReserveCheck(b: Books, run: string, estimate: int, kind: Kind): Option<BudgetError> {
    if run !in b.accounts then Some(NotAdmitted)
    else
      var a := b.accounts[run];
      if a.counts.requests >= a.limits.requests then Some(TooManyRequests)
      else if kind.Search? && a.counts.searchCalls >= a.limits.searchCalls then Some(TooManySearches)
      else if a.Spent() + estimate > a.limits.rcc then Some(OverBudget)
      else None
  }

  ghost function ReserveBooks(b: Books, run: string, estimate: int, kind: Kind): Books {
    if ReserveCheck(b, run, estimate, kind).Some? then b
    else
      var a := b.accounts[run];
      var id := b.nextId + 1;
      Books(
        b.accounts[run := a.(
          held := Hold(a.held, id, estimate),
          counts := Counts(a.counts.requests + 1, a.counts.searchCalls + (if kind.Search? then 1 else 0)))],
        id)
  }

  function Hold(held: map<nat, int>, id: nat, rcc: int): map<nat, int> {
    held[id := rcc]
  }

  predicate IsHeld(b: Books, run: string, id: nat) {
    run in b.accounts && id in b.accounts[run].held
  }

  function Unhold(b: Books, run: string, id: nat, charge: int): Books {
    if !IsHeld(b, run, id) then b
    else
      var a := b.accounts[run];
      b.(accounts := b.accounts[run := a.(settled := a.settled + charge, held := a.held - {id})])
  }

  // ---------------------------------------------------------------- runs of the ledger

  /** One locked operation. Threads and coroutines interleave at this granularity. */
  datatype Op =
    | Admit(run: string, limits: Limits)
    | Reserve(run: string, estimate: int, kind: Kind)
    | Settle(run: string, id: nat, actual: int)
    | Release(run: string, id: nat)
    | Close(run: string)

  ghost function Apply(b: Books, op: Op): Books {
    match op
    case Admit(run, limits) => AdmitBooks(b, run, limits)
    case Reserve(run, estimate, kind) => ReserveBooks(b, run, estimate, kind)
    case Settle(run, id, actual) => Unhold(b, run, id, actual)
    case Release(run, id) => Unhold(b, run, id, 0)
    case Close(run) => CloseBooks(b, run)
  }

  ghost function After(b: Books, ops: seq<Op>): Books
    decreases |ops|
  {
    if ops == [] then b else After(Apply(b, ops[0]), ops[1..])
  }

  /** What the callers of one operation do: ceilings and estimates are not negative, and a settled
      call costs at most `m` times what it reserved. */
  predicate Reasonable(b: Books, op: Op, m: nat) {
    match op
    case Admit(_, limits) => limits.rcc >= 0 && limits.requests >= 0 && limits.searchCalls >= 0
    case Reserve(_, estimate, _) => estimate >= 0
    case Settle(run, id, actual) => IsHeld(b, run, id) ==> 0 <= actual <= m * b.accounts[run].held[id]
    case Release(_, _) => true
    case Close(_) => true
  }

  ghost predicate AllReasonable(b: Books, ops: seq<Op>, m: nat)
    decreases |ops|
  {
    ops == [] || (Reasonable(b, ops[0], m) && AllReasonable(Apply(b, ops[0]), ops[1..], m))
  }

  ghost predicate WithinBudget(a: Account, m: nat) {
    && a.settled >= 0
    && (forall id :: id in a.held ==> a.held[id] >= 0)
    && a.settled + m * Sum(a.held) <= m * a.limits.rcc
    && a.counts.requests <= a.limits.requests
    && a.counts.searchCalls <= a.limits.searchCalls
  }

  ghost predicate AllWithinBudget(b: Books, m: nat) {
    forall run :: run in b.accounts ==> WithinBudget(b.accounts[run], m)
  }

  lemma StepWithinBudget(b: Books, op: Op, m: nat)
    requires m >= 1 && AllWithinBudget(b, m) && Reasonable(b, op, m)
    ensures AllWithinBudget(Apply(b, op), m)
  {
    match op
    case Admit(run, limits) =>
      MulMonotone(0, limits.rcc, m);
    case Reserve(run, estimate, kind) =>
      if ReserveCheck(b, run, estimate, kind).None? {
        HoldWithinBudget(b.accounts[run], b.nextId + 1, estimate, m);
      }
    case Settle(run, id, actual) =>
      if IsHeld(b, run, id) {
        UnholdWithinBudget(b.accounts[run], id, actual, m);
      }
    case Release(run, id) =>
      if IsHeld(b, run, id) {
        MulMonotone(0, b.accounts[run].held[id], m);
        UnholdWithinBudget(b.accounts[run], id, 0, m);
      }
    case Close(run) =>
  }

  lemma HoldWithinBudget(a: Account, id: nat, estimate: int, m: nat)
    requires m >= 1 && WithinBudget(a, m) && estimate >= 0 && a.Spent() + estimate <= a.limits.rcc
    ensures var held := a.held[id := estimate];
            a.settled + m * Sum(held) <= m * a.limits.rcc
  {
    SumUpdate(a.held, id, estimate);
    OutstandingFits(a.settled, Sum(a.held[id := estimate]), a.limits.rcc, m);
  }

  lemma OutstandingFits(settled: int, outstanding: int, limit: int, m: nat)
    requires m >= 1 && settled >= 0 && settled + outstanding <= limit
    ensures settled + m * outstanding <= m * limit
  {
    MulMonotone(1, m, settled);
    MulMonotone(settled + outstanding, limit, m);
    assert (settled + outstanding) * m == m * settled + m * outstanding;
  }

  lemma UnholdWithinBudget(a: Account, id: nat, charge: int, m: nat)
    requires WithinBudget(a, m) && id in a.held && 0 <= charge <= m * a.held[id]
    ensures WithinBudget(a.(settled := a.settled + charge, held := a.held - {id}), m)
  {
    SumWithout(a.held, id);
    assert m * Sum(a.held) == m * a.held[id] + m * Sum(a.held - {id});
  }

  /** In every interleaving, if no call costs more than `m` times its reservation then no run's
      settled and outstanding spend passes `m` times its ceiling, at close either, and its request
      and search counts never pass theirs. With `m == 1` the ceilings are exact. */
  lemma {:induction false} SpendNeverPassesTheCeiling(b: Books, ops: seq<Op>, m: nat)
    requires m >= 1 && AllWithinBudget(b, m) && AllReasonable(b, ops, m)
    ensures var end := After(b, ops);
            forall run :: run in end.accounts ==>
              var a := end.accounts[run];
              && 0 <= CloseTotals(end, run).rcc <= m * a.limits.rcc
              && a.counts.requests <= a.limits.requests
              && a.counts.searchCalls <= a.limits.searchCalls
    decreases |ops|
  {
    if ops == [] {
      forall run | run in b.accounts ensures 0 <= CloseTotals(b, run).rcc <= m * b.accounts[run].limits.rcc {
        var a := b.accounts[run];
        SumNonNegative(a.held);
        MulMonotone(1, m, Sum(a.held));
      }
    } else {
      StepWithinBudget(b, ops[0], m);
      assert After(b, ops) == After(Apply(b, ops[0]), ops[1..]);
      SpendNeverPassesTheCeiling(Apply(b, ops[0]), ops[1..], m);
    }
  }

  /** The factor cannot be lowered: one call reserving the whole ceiling may use all of it. */
  lemma CeilingIsReached(run: string, ceiling: nat, m: nat)
    requires m >= 1
    ensures var ops := [Admit(run, Limits(ceiling, 1, 0)), Reserve(run, ceiling, Llm), Settle(run, 1, m * ceiling)];
            && AllReasonable(NOTHING_OPEN, ops, m)
            && CloseTotals(After(NOTHING_OPEN, ops), run).rcc == m * ceiling
  {
    var ops := [Admit(run, Limits(ceiling, 1, 0)), Reserve(run, ceiling, Llm), Settle(run, 1, m * ceiling)];
    var b1 := Apply(NOTHING_OPEN, ops[0]);
    assert Sum<nat>(map[]) == 0;
    var b2 := Apply(b1, ops[1]);
    assert b2.accounts[run].held == map[1 := ceiling];
    var b3 := Apply(b2, ops[2]);
    assert b3.accounts[run].held == map[];
    assert ops[1..][0] == ops[1] && ops[1..][1..] == [ops[2]];
    assert After(b2, [ops[2]]) == b3;
    assert After(b1, ops[1..]) == b3;
    assert AllReasonable(b2, [ops[2]], m);
    assert AllReasonable(b1, ops[1..], m);
  }

  /** Once a run has spent past its ceiling nothing more is reserved for it, so the only calls
      that can add to the breach are the ones already holding a reservation. */
  lemma BreachStopsReserving(b: Books, run: string, estimate: int, kind: Kind)
    requires run in b.accounts && estimate >= 0
    ensures b.accounts[run].Spent() > b.accounts[run].limits.rcc ==> ReserveBooks(b, run, estimate, kind) == b
  {
  }

  // ---------------------------------------------------------------- how far past the ceiling

  /** What the calls in flight may turn out to cost, whatever was reserved for them. */
  ghost predicate ChargesFor(a: Account, charges: map<nat, int>) {
    charges.Keys == a.held.Keys && forall id: nat :: id in charges ==> charges[id] >= 0
  }

  /** An account that reservations alone have kept within its ceiling. */
  ghost predicate WithinCeiling(a: Account) {
    a.Spent() <= a.limits.rcc && forall id: nat :: id in a.held ==> a.held[id] >= 0
  }

  /** Once every call in flight is settled, the account is past its ceiling by no more than what one
      of those calls cost beyond its own reservation. */
  ghost predicate OneCallsBreach(a: Account, charges: map<nat, int>)
    requires ChargesFor(a, charges)
  {
    var excess := a.settled + Sum(charges) - a.limits.rcc;
    excess <= 0 || exists id: nat :: id in a.held && excess <= charges[id] - a.held[id]
  }

  ghost predicate AlwaysOneCallsBreach(a: Account) {
    forall charges | ChargesFor(a, charges) :: OneCallsBreach(a, charges)
  }

  lemma FewInFlight(a: Account, charges: map<nat, int>)
    requires WithinCeiling(a) && ChargesFor(a, charges) && |a.held| <= 1
    ensures OneCallsBreach(a, charges)
  {
    assert |charges| == |charges.Keys| == |a.held.Keys| == |a.held|;
    if a.held != map[] {
      var id := SomeKey(a.held);
      SumWithout(a.held, id);
      SumWithout(charges, id);
      assert |a.held - {id}| == 0 && |charges - {id}| == 0;
    } else {
      assert charges == map[];
    }
  }

  /** The calls `i` and `j` each overshoot by `x`, and the others not at all. */
  lemma TwoOvershoot(a: Account, i: nat, j: nat)
    requires WithinCeiling(a) && i in a.held && j in a.held && i != j
    ensures !AlwaysOneCallsBreach(a)
  {
    var x := a.limits.rcc - a.Spent() + 1;
    var first: map<nat, int> := a.held[i := a.held[i] + x];
    var charges: map<nat, int> := first[j := a.held[j] + x];
    SumUpdate(a.held, i, a.held[i] + x);
    SumUpdate(first, j, a.held[j] + x);
    assert first[j] == a.held[j];
    assert Sum(first) == Sum(a.held) + x && Sum(charges) == Sum(first) + x;
    assert ChargesFor(a, charges);
    assert a.settled + Sum(charges) - a.limits.rcc == x + 1;
    assert forall id: nat :: id in a.held ==> charges[id] - a.held[id] <= x;
    assert !OneCallsBreach(a, charges);
  }

  lemma TwoKeys(held: map<nat, int>) returns (i: nat, j: nat)
    requires |held| >= 2
    ensures i in held && j in held && i != j
  {
    i := SomeKey(held);
    assert |held - {i}| == |held| - 1;
    j := SomeKey(held - {i});
  }

  /** A breach is bounded to a single call exactly when at most one call is in flight. */
  lemma BreachIsOneCallsExactly(a: Account)
    requires WithinCeiling(a)
    ensures AlwaysOneCallsBreach(a) <==> |a.held| <= 1
  {
    if |a.held| <= 1 {
      forall charges | ChargesFor(a, charges) ensures OneCallsBreach(a, charges) {
        FewInFlight(a, charges);
      }
    } else {
      var i, j := TwoKeys(a.held);
      TwoOvershoot(a, i, j);
    }
  }

  /** Two calls that the ledger lets be in flight together, both past their reservations. */
  lemma TwoCallsOvershoot(run: string)
    ensures var open := AdmitBooks(NOTHING_OPEN, run, Limits(100, 9, 9));
            var first := ReserveBooks(open, run, 50, Llm);
            var second := ReserveBooks(first, run, 50, Llm);
            && IsHeld(second, run, 1) && IsHeld(second, run, 2)
            && CloseTotals(Unhold(Unhold(second, run, 1, 130), run, 2, 130), run).rcc == 260
  {
    assert Sum<nat>(map[]) == 0;
    SumUpdate(map[], 1 as nat, 50);
    assert map[][1 as nat := 50] == map[1 := 50];
    assert map[1 as nat := 50, 2 := 50] - {1} == map[2 := 50] && map[2 as nat := 50] - {2} == map[];
  }

  /** The settlements of the calls in flight, in the order in which they come back. */
  function Settlements(run: string, order: seq<nat>, charges: map<nat, int>): seq<Op>
    requires forall i :: 0 <= i < |order| ==> order[i] in charges
  {
    if order == [] then [] else [Settle(run, order[0], charges[order[0]])] + Settlements(run, order[1..], charges)
  }

  /** In whatever order they come back, closing the run then returns what was settled before and all
      the charges: the amount that the excess is measured on. */
  lemma {:induction false} SettlingAll(b: Books, run: string, order: seq<nat>, charges: map<nat, int>)
    requires run in b.accounts && b.accounts[run].held.Keys == charges.Keys
    requires (forall i :: 0 <= i < |order| ==> order[i] in charges) && (forall id: nat :: id in charges ==> id in order)
    requires forall i, j :: 0 <= i < j < |order| ==> order[i] != order[j]
    ensures CloseTotals(After(b, Settlements(run, order, charges)), run).rcc == b.accounts[run].settled + Sum(charges)
    decreases |order|
  {
    if order == [] {
      assert charges == map[] && b.accounts[run].held == map[];
    } else {
      var id := order[0];
      var rest := charges - {id};
      SumWithout(charges, id);
      RestOfOrder(order, charges);
      SameSettlements(run, order[1..], charges, rest);
      SettlingAll(Unhold(b, run, id, charges[id]), run, order[1..], rest);
      SettledFirst(b, run, id, charges[id], Settlements(run, order[1..], rest));
    }
  }

  lemma SettledFirst(b: Books, run: string, id: nat, charge: int, later: seq<Op>)
    requires run in b.accounts && id in b.accounts[run].held
    ensures After(b, [Settle(run, id, charge)] + later) == After(Unhold(b, run, id, charge), later)
    ensures Unhold(b, run, id, charge).accounts[run].settled == b.accounts[run].settled + charge
  {
    assert ([Settle(run, id, charge)] + later)[1..] == later;
  }

  lemma RestOfOrder(order: seq<nat>, charges: map<nat, int>)
    requires order != [] && (forall i :: 0 <= i < |order| ==> order[i] in charges)
    requires (forall id: nat :: id in charges ==> id in order)
    requires forall i, j :: 0 <= i < j < |order| ==> order[i] != order[j]
    ensures var rest := charges - {order[0]};
            && (forall i :: 0 <= i < |order[1..]| ==> order[1..][i] in rest)
            && (forall id: nat :: id in rest ==> id in order[1..])
  {
    forall i | 0 <= i < |order[1..]| ensures order[1..][i] in charges - {order[0]} {
      assert order[1..][i] == order[i + 1];
    }
  }

  lemma {:induction false} SameSettlements(run: string, order: seq<nat>, a: map<nat, int>, b: map<nat, int>)
    requires forall i :: 0 <= i < |order| ==> order[i] in a && order[i] in b && a[order[i]] == b[order[i]]
    ensures Settlements(run, order, a) == Settlements(run, order, b)
    decreases |order|
  {
    if order != [] {
      SameSettlements(run, order[1..], a, b);
    }
  }

  // ---------------------------------------------------------------- no reservation twice

  /** Every id on hold anywhere has been handed out. */
  predicate IdsIssued(b: Books) {
    forall run, id :: run in b.accounts && id in b.accounts[run].held ==> id <= b.nextId
  }

  lemma {:induction false} IdsStayIssued(b: Books, ops: seq<Op>)
    requires IdsIssued(b)
    ensures IdsIssued(After(b, ops)) && b.nextId <= After(b, ops).nextId
    decreases |ops|
  {
    if ops != [] {
      IdsStayIssued(Apply(b, ops[0]), ops[1..]);
    }
  }

  /** An issued id that is no longer on hold never is again, whatever is closed or re-admitted. */
  lemma {:induction false} NeverHeldAgain(b: Books, ops: seq<Op>, run: string, id: nat)
    requires IdsIssued(b) && id <= b.nextId && !IsHeld(b, run, id)
    ensures !IsHeld(After(b, ops), run, id)
    decreases |ops|
  {
    if ops != [] {
      IdsStayIssued(b, [ops[0]]);
      assert After(b, [ops[0]]) == Apply(b, ops[0]) by { assert [ops[0]][1..] == []; }
      NeverHeldAgain(Apply(b, ops[0]), ops[1..], run, id);
    }
  }

  /** In every interleaving, an operation that finds a reservation on hold and takes it off hold is
      the last that does: settling or releasing it a second time finds nothing, even when the run
      was closed and admitted again in between. */
  lemma NoReservationTwice(before: seq<Op>, between: seq<Op>, run: string, id: nat, charge: int)
    requires IsHeld(After(NOTHING_OPEN, before), run, id)
    ensures var taken := Unhold(After(NOTHING_OPEN, before), run, id, charge);
            !IsHeld(After(taken, between), run, id)
  {
    IdsStayIssued(NOTHING_OPEN, before);
    var b := After(NOTHING_OPEN, before);
    NeverHeldAgain(Unhold(b, run, id, charge), between, run, id);
  }

  /** A new reservation's id is one that no run holds. */
  lemma NewIdIsUnused(ops: seq<Op>, run: string)
    ensures var b := After(NOTHING_OPEN, ops); !IsHeld(b, run, b.nextId + 1)
  {
    IdsStayIssued(NOTHING_OPEN, ops);
  }

  // ---------------------------------------------------------------- the ledger

  /** The accounts that four dictionaries keyed by run describe. */
  ghost function Combine(settled: map<string, int>, held: map<string, map<nat, int>>,
                         limits: map<string, Limits>, counts: map<string, Counts>): map<string, Account>
    requires settled.Keys == held.Keys == limits.Keys == counts.Keys
  {
    map run | run in limits :: Account(settled[run], held[run], limits[run], counts[run])
  }

  lemma CombineUpdate(settled: map<string, int>, held: map<string, map<nat, int>>,
                      limits: map<string, Limits>, counts: map<string, Counts>, run: string, a: Account)
    requires settled.Keys == held.Keys == limits.Keys == counts.Keys
    ensures Combine(settled[run := a.settled], held[run := a.held], limits[run := a.limits], counts[run := a.counts])
            == Combine(settled, held, limits, counts)[run := a]
  {
  }

  lemma CombineRemove(settled: map<string, int>, held: map<string, map<nat, int>>,
                      limits: map<string, Limits>, counts: map<string, Counts>, run: string)
    requires settled.Keys == held.Keys == limits.Keys == counts.Keys
    ensures Combine(settled - {run}, held - {run}, limits - {run}, counts - {run})
            == Combine(settled, held, limits, counts) - {run}
  {
  }

  /** What a granted reservation writes in two of the four dictionaries. */
  lemma CombineReserve(settled: map<string, int>, held: map<string, map<nat, int>>, limits: map<string, Limits>,
                       counts: map<string, Counts>, id: nat, run: string, estimate: int, kind: Kind)
    requires settled.Keys == held.Keys == limits.Keys == counts.Keys && id > 0
    requires ReserveCheck(Books(Combine(settled, held, limits, counts), id - 1), run, estimate, kind).None?
    ensures var counted := Counts(counts[run].requests + 1, counts[run].searchCalls + (if kind.Search? then 1 else 0));
            ReserveBooks(Books(Combine(settled, held, limits, counts), id - 1), run, estimate, kind) ==
            Books(Combine(settled, held[run := Hold(held[run], id, estimate)], limits, counts[run := counted]), id)
  {
    var counted := Counts(counts[run].requests + 1, counts[run].searchCalls + (if kind.Search? then 1 else 0));
    var open := Hold(held[run], id, estimate);
    CombineUpdate(settled, held, limits, counts, run, Account(settled[run], open, limits[run], counted));
    assert settled == settled[run := settled[run]] && limits == limits[run := limits[run]];
  }

  /** The ledger object: four dictionaries keyed by run, and a counter. */
  class Ledger {
    var settled: map<string, int>
    var held: map<string, map<nat, int>>
    var limits: map<string, Limits>
    var counts: map<string, Counts>
    var nextId: nat

    /** The four dictionaries list the same runs. */
    ghost predicate Valid()
      reads this
    {
      settled.Keys == held.Keys == limits.Keys == counts.Keys
    }

    ghost function Value(): Books
      requires Valid()
      reads this
    {
      Books(Combine(settled, held, limits, counts), nextId)
    }

    constructor ()
      ensures Valid() && Value() == NOTHING_OPEN
    {
      settled, held, limits, counts := map[], map[], map[], map[];
      nextId := 0;
    }

    method Admit(run: string, ceilings: Limits)
      requires Valid()
      modifies this
      ensures Valid() && Value() == AdmitBooks(old(Value()), run, ceilings)
    {
      if run in limits {
        return;
      }
      CombineUpdate(settled, held, limits, counts, run, Account(0, map[], ceilings, Counts(0, 0)));
      limits := limits[run := ceilings];
      settled := settled[run := 0];
      held := held[run := map[]];
      counts := counts[run := Counts(0, 0)];
    }

    method Close(run: string) returns (totals: Totals)
      requires Valid()
      modifies this
      ensures Valid() && Value() == CloseBooks(old(Value()), run)
      ensures totals == CloseTotals(old(Value()), run)
    {
      CombineRemove(settled, held, limits, counts, run);
      var outstanding: map<nat, int> := if run in held then held[run] else map[];
      held := held - {run};
      var closing := if run in settled then settled[run] else 0;
      if outstanding != map[] {
        var leaked := Total(outstanding);
        closing := closing + leaked;
      }
      totals := Totals(closing, if run in counts then counts[run] else Counts(0, 0));
      settled := settled - {run};
      counts := counts - {run};
      limits := limits - {run};
    }

    method Spent(run: string) returns (spent: int)
      requires Valid()
      ensures spent == CloseTotals(Value(), run).rcc
    {
      if run !in settled {
        return 0;
      }
      var outstanding := Total(held[run]);
      spent := settled[run] + outstanding;
    }

    method Remaining(run: string) returns (rcc: int)
      requires Valid()
      ensures rcc >= 0
      ensures run !in limits ==> rcc == 0
      ensures forall estimate, kind :: estimate > rcc ==> ReserveCheck(Value(), run, estimate, kind).Some?
      ensures run in limits && limits[run].rcc >= Value().accounts[run].Spent() ==>
                rcc + Value().accounts[run].Spent() == limits[run].rcc
    {
      if run !in limits {
        return 0;
      }
      var spent := Spent(run);
      rcc := if limits[run].rcc - spent > 0 then limits[run].rcc - spent else 0;
    }

    /** Why a reservation would be refused; read under the same lock as the write after it. */
    method Refusal(run: string, estimate: int, kind: Kind) returns (error: Option<BudgetError>)
      requires Valid()
      ensures error == ReserveCheck(Value(), run, estimate, kind)
    {
      if run !in limits {
        return Some(NotAdmitted);
      }
      var limit, count := limits[run], counts[run];
      if count.requests >= limit.requests {
        return Some(TooManyRequests);
      }
      if kind.Search? && count.searchCalls >= limit.searchCalls {
        return Some(TooManySearches);
      }
      var spent := Spent(run);
      error := if spent + estimate > limit.rcc then Some(OverBudget) else None;
    }

    method Reserve(run: string, estimate: int, kind: Kind) returns (r: Result<Reservation, BudgetError>)
      requires Valid()
      modifies this
      ensures Valid() && Value() == ReserveBooks(old(Value()), run, estimate, kind)
      ensures match ReserveCheck(old(Value()), run, estimate, kind)
              case Some(error) => r == Failure(error)
              case None => r == Success(Reservation(run, old(nextId) + 1, estimate, kind))
    {
      var refusal := Refusal(run, estimate, kind);
      if refusal.Some? {
        return Failure(refusal.value);
      }
      var reservation := Take(run, estimate, kind);
      r := Success(reservation);
    }

    method Take(run: string, estimate: int, kind: Kind) returns (reservation: Reservation)
      requires Valid() && ReserveCheck(Value(), run, estimate, kind).None?
      modifies this
      ensures Valid() && Value() == ReserveBooks(old(Value()), run, estimate, kind)
      ensures reservation == Reservation(run, old(nextId) + 1, estimate, kind)
    {
      nextId := nextId + 1;
      CombineReserve(settled, held, limits, counts, nextId, run, estimate, kind);
      held := held[run := Hold(held[run], nextId, estimate)];
      counts := counts[run := Counts(counts[run].requests + 1,
                                     counts[run].searchCalls + (if kind.Search? then 1 else 0))];
      reservation := Reservation(run, nextId, estimate, kind);
    }

    method Settle(reservation: Reservation, actual: int) returns (r: Result<int, BudgetError>)
      requires Valid()
      modifies this
      ensures Valid() && Value() == Unhold(old(Value()), reservation.run, reservation.id, actual)
      ensures r == if IsHeld(old(Value()), reservation.run, reservation.id) then Success(actual)
                   else Failure(AlreadySettled)
    {
      var run := reservation.run;
      if run !in held || reservation.id !in held[run] {
        return Failure(AlreadySettled);
      }
      var open := held[run] - {reservation.id};
      CombineUpdate(settled, held, limits, counts, run, Account(settled[run] + actual, open, limits[run], counts[run]));
      assert limits == limits[run := limits[run]] && counts == counts[run := counts[run]];
      held := held[run := open];
      settled := settled[run := settled[run] + actual];
      r := Success(actual);
    }

    method Release(reservation: Reservation)
      requires Valid()
      modifies this
      ensures Valid() && Value() == Unhold(old(Value()), reservation.run, reservation.id, 0)
    {
      var run := reservation.run;
      if run in held {
        var open := held[run] - {reservation.id};
        CombineUpdate(settled, held, limits, counts, run, Account(settled[run], open, limits[run], counts[run]));
        assert limits == limits[run := limits[run]] && counts == counts[run := counts[run]];
        assert settled == settled[run := settled[run]];
        assert reservation.id !in held[run] ==> open == held[run];
        assert Value().accounts[run := Value().accounts[run]] == Value().accounts;
        held := held[run := open];
      }
    }
  }
}
