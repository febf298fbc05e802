/** Issuing, metering and recording provider calls (gateway/adapters/openrouter.py). */
module Adapter {
  import opened Wrappers
  import opened Sums
  import opened Metering
  import opened Receipts

  // ---------------------------------------------------------------- one call

  const UNMEASURED_IN := 100_000
  const UNMEASURED_OUT := 8_192

  /** The usage block of a response; a count that is not an integer reads as `None`. */
  datatype Usage = NoUsage | Reported(prompt: Option<int>, completion: Option<int>)

  /** What one attempt comes back with. */
  datatype Reply =
    | NotSent
    | RefusedByProvider
    | FailedAtProvider
    | Interrupted
    | Answered(usage: Usage, hasMessage: bool, hasText: bool)

  datatype Tokens = Tokens(tokensIn: nat, tokensOut: nat)

  /** What cannot be measured is charged conservatively. */
  function Measured(usage: Usage): Tokens {
    match usage
    case NoUsage => Tokens(UNMEASURED_IN, 0)
    case Reported(prompt, completion) =>
      Tokens(if prompt.Some? && prompt.value >= 0 then prompt.value else UNMEASURED_IN,
             if completion.Some? && completion.value >= 0 then completion.value else UNMEASURED_OUT)
  }

  /** How a call ended, after how many attempts. */
  datatype Ending = Ended(last: Reply, attempts: nat) | Exhausted(attempts: nat)

  /** How the attempts from `made` on end; `script(k)` is what attempt `k` meets. */
  function EndingOf(script: nat -> Reply, made: nat, maxAttempts: nat): Ending
    decreases maxAttempts - made
  {
    if made >= maxAttempts then Exhausted(made)
    else if !script(made).FailedAtProvider? then Ended(script(made), made + 1)
    else EndingOf(script, made + 1, maxAttempts)
  }

  /** Attempts are made until one ends the call or none is left. */
  method Attempt(script: nat -> Reply, maxAttempts: nat) returns (ending: Ending)
    ensures ending == EndingOf(script, 0, maxAttempts)
    ensures ending.attempts <= maxAttempts
    ensures match ending
            case Ended(last, n) => n >= 1 && last == script(n - 1) && !last.FailedAtProvider?
                                   && forall k: nat :: k < n - 1 ==> script(k).FailedAtProvider?
            case Exhausted(n) => n == maxAttempts && forall k: nat :: k < n ==> script(k).FailedAtProvider?
  {
    var attempts: nat := 0;
    while attempts < maxAttempts
      invariant attempts <= maxAttempts
      invariant forall k: nat :: k < attempts ==> script(k).FailedAtProvider?
      invariant EndingOf(script, 0, maxAttempts) == EndingOf(script, attempts, maxAttempts)
    {
      var reply := script(attempts);
      attempts := attempts + 1;
      if !reply.FailedAtProvider? {
        return Ended(reply, attempts);
      }
    }
    ending := Exhausted(attempts);
  }

  datatype Request = Completion(promptTokens: nat, maxTokens: int) | WebSearchCall

  function KindOf(request: Request): Kind {
    if request.Completion? then Llm else Search
  }

  function EstimateOf(p: PriceTable, request: Request): Result<int, BudgetError> {
    match request
    case Completion(promptTokens, maxTokens) => EstimateRcc(p, Llm, promptTokens, maxTokens)
    case WebSearchCall => Success(p.rccPerSearch)
  }

  /** What an ended call does to its reservation and to the receipt. */
  datatype Effect =
    | LeaveHeld                                   // interrupted: nobody settles
    | GiveBack                                    // nothing reached the provider
    | Charge(rcc: int, recorded: bool)            // settled, and put on the receipt or not

  function EffectOf(p: PriceTable, request: Request, estimate: int, ending: Ending): Effect {
    match request
    case Completion(_, _) =>
      (match ending
       case Exhausted(n) => Charge(estimate * n, n >= 1)
       case Ended(NotSent, _) => GiveBack
       case Ended(RefusedByProvider, _) => Charge(0, true)
       case Ended(Interrupted, _) => LeaveHeld
       case Ended(Answered(usage, hasMessage, _), _) =>
         var t := Measured(usage);
         Charge(RccForTokens(p, t.tokensIn, t.tokensOut).value, hasMessage)
       case Ended(FailedAtProvider, n) => LeaveHeld)  // an attempt loop never ends so
    case WebSearchCall =>
      (match ending
       case Ended(Interrupted, _) => LeaveHeld
       case Ended(Answered(_, hasMessage, _), _) => Charge(p.rccPerSearch, hasMessage)
       case _ => Charge(p.rccPerSearch, true))
  }

  /** The reply carries what the caller asked for: a message, and for a completion some text. */
  predicate Answers(request: Request, ending: Ending) {
    && ending.Ended? && ending.last.Answered? && ending.last.hasMessage
    && (request.Completion? ==> ending.last.hasText)
  }

  /** Reported usage stays within what the call reserved. */
  predicate UsageWithin(request: Request, ending: Ending) {
    request.Completion? && ending.Ended? && ending.last.Answered? ==>
      var t := Measured(ending.last.usage);
      t.tokensIn <= request.promptTokens && t.tokensOut <= request.maxTokens
  }

  /** With usage within the reservation a call is charged at most once per attempt allowed. */
  lemma ChargeWithinAttempts(p: PriceTable, request: Request, ending: Ending, maxAttempts: nat)
    requires maxAttempts >= 1 && ending.attempts <= maxAttempts
    requires EstimateOf(p, request).Success? && UsageWithin(request, ending)
    ensures var estimate := EstimateOf(p, request).value;
            var effect := EffectOf(p, request, estimate, ending);
            estimate >= 0 && (effect.Charge? ==> 0 <= effect.rcc <= maxAttempts * estimate)
  {
    var estimate := EstimateOf(p, request).value;
    if request.Completion? {
      UsageWithinEstimate(p, 0, 0, request.promptTokens, request.maxTokens);
      if ending.Ended? && ending.last.Answered? {
        var t := Measured(ending.last.usage);
        UsageWithinEstimate(p, t.tokensIn, t.tokensOut, request.promptTokens, request.maxTokens);
      }
    }
    MulMonotone(1, maxAttempts, estimate);
    MulMonotone(0, ending.attempts, estimate);
    MulMonotone(ending.attempts, maxAttempts, estimate);
  }

  /** Whatever usage is reported, what is charged is not negative. */
  lemma ChargeNotNegative(p: PriceTable, request: Request, ending: Ending)
    requires EstimateOf(p, request).Success?
    ensures var estimate := EstimateOf(p, request).value;
            var effect := EffectOf(p, request, estimate, ending);
            estimate >= 0 && (effect.Charge? ==> 0 <= effect.rcc)
  {
    var estimate := EstimateOf(p, request).value;
    if request.Completion? {
      UsageWithinEstimate(p, 0, 0, request.promptTokens, request.maxTokens);
      if ending.Ended? && ending.last.Answered? {
        var t := Measured(ending.last.usage);
        UsageWithinEstimate(p, t.tokensIn, t.tokensOut, t.tokensIn, t.tokensOut + 1);
      }
    }
    MulMonotone(0, ending.attempts, estimate);
  }

  // ---------------------------------------------------------------- all the calls of a run

  /** One run's calls over the shared ledger: the requests in flight by reservation id, what its
      receipt records, and what was charged to it without being recorded. */
  datatype Desk = Desk(books: Books, inFlight: map<nat, Request>, recorded: int, unrecorded: int)

  /** One uninterrupted stretch of code: up to the send, or from the reply on. */
  datatype Event =
    | Begin(request: Request)
    | End(id: nat, ending: Ending)
    | Elsewhere(op: Op)

  function RunOf(op: Op): string {
    op.run
  }

  ghost function Happen(p: PriceTable, run: string, d: Desk, e: Event): Desk {
    match e
    case Begin(request) =>
      var estimate := EstimateOf(p, request);
      if estimate.Failure? || ReserveCheck(d.books, run, estimate.value, KindOf(request)).Some? then d
      else d.(books := ReserveBooks(d.books, run, estimate.value, KindOf(request)),
              inFlight := d.inFlight[d.books.nextId + 1 := request])
    case End(id, ending) =>
      if id !in d.inFlight then d
      else Finish(p, run, d, id, ending)
    case Elsewhere(op) => d.(books := Apply(d.books, op))
  }

  /** Settling a reservation that is gone raises, and then nothing is recorded. */
  ghost function Finish(p: PriceTable, run: string, d: Desk, id: nat, ending: Ending): Desk
    requires id in d.inFlight
  {
    var request := d.inFlight[id];
    var estimate := EstimateOf(p, request);
    if estimate.Failure? then d.(inFlight := d.inFlight - {id})
    else Finished(run, d, id, EffectOf(p, request, estimate.value, ending))
  }

  ghost function Finished(run: string, d: Desk, id: nat, effect: Effect): Desk {
    var done := d.(inFlight := d.inFlight - {id});
    if !IsHeld(d.books, run, id) then done
    else
      match effect
      case LeaveHeld => done
      case GiveBack => done.(books := Unhold(d.books, run, id, 0))
      case Charge(rcc, isRecorded) =>
        done.(books := Unhold(d.books, run, id, rcc),
              recorded := d.recorded + (if isRecorded then rcc else 0),
              unrecorded := d.unrecorded + (if isRecorded then 0 else rcc))
  }

  /** One call from its reservation to its end, with nothing in between. */
  ghost function WholeCall(p: PriceTable, run: string, d: Desk, request: Request, ending: Ending): Desk {
    var begun := Happen(p, run, d, Begin(request));
    if begun == d then d else Happen(p, run, begun, End(d.books.nextId + 1, ending))
  }

  ghost function Afterwards(p: PriceTable, run: string, d: Desk, events: seq<Event>): Desk
    decreases |events|
  {
    if events == [] then d else Afterwards(p, run, Happen(p, run, d, events[0]), events[1..])
  }

  /** The requests of this run are made through this desk; everyone else has other runs. */
  predicate OthersElsewhere(run: string, events: seq<Event>) {
    forall e :: e in events && e.Elsewhere? ==> RunOf(e.op) != run
  }

  /** The run's account and its receipt agree, but for what was charged and not recorded. */
  ghost predicate Agrees(p: PriceTable, run: string, d: Desk) {
    && run in d.books.accounts
    && IdsIssued(d.books)
    && (forall id :: id in d.inFlight ==> id <= d.books.nextId && EstimateOf(p, d.inFlight[id]).Success?)
    && (forall id :: id in d.inFlight && IsHeld(d.books, run, id) ==>
          d.books.accounts[run].held[id] == EstimateOf(p, d.inFlight[id]).value)
    && (forall id :: id in d.books.accounts[run].held ==> d.books.accounts[run].held[id] >= 0)
    && d.books.accounts[run].settled == d.recorded + d.unrecorded
    && d.unrecorded >= 0
  }

  lemma HappenAgrees(p: PriceTable, run: string, d: Desk, e: Event)
    requires Agrees(p, run, d) && (e.Elsewhere? ==> RunOf(e.op) != run)
    ensures Agrees(p, run, Happen(p, run, d, e))
  {
    match e
    case Begin(request) =>
      var estimate := EstimateOf(p, request);
      if estimate.Success? {
        ChargeNotNegative(p, request, Exhausted(0));
        var b := ReserveBooks(d.books, run, estimate.value, KindOf(request));
        assert b == Apply(d.books, Reserve(run, estimate.value, KindOf(request)));
      }
    case End(id, ending) =>
      if id in d.inFlight {
        ChargeNotNegative(p, d.inFlight[id], ending);
      }
    case Elsewhere(op) =>
      var b := Apply(d.books, op);
      IdsStayIssued(d.books, [op]);
      assert After(d.books, [op]) == b by { assert [op][1..] == []; }
      assert b.accounts[run] == d.books.accounts[run];
  }

  lemma {:induction false} AlwaysAgrees(p: PriceTable, run: string, d: Desk, events: seq<Event>)
    requires Agrees(p, run, d) && OthersElsewhere(run, events)
    ensures Agrees(p, run, Afterwards(p, run, d, events))
    decreases |events|
  {
    if events != [] {
      HappenAgrees(p, run, d, events[0]);
      AlwaysAgrees(p, run, Happen(p, run, d, events[0]), events[1..]);
    }
  }

  /** Along every interleaving of a run's calls, with other runs' as well, closing the run returns
      what its receipt records, plus what was charged unrecorded, plus what is still on hold. So
      the receipt never exceeds the total, and equals it exactly when nothing was charged without
      being recorded and no reservation of a positive amount leaked. */
  lemma ReceiptAgainstTotal(p: PriceTable, run: string, d: Desk, events: seq<Event>)
    requires Agrees(p, run, d) && OthersElsewhere(run, events)
    ensures var end := Afterwards(p, run, d, events);
            && run in end.books.accounts
            && CloseTotals(end.books, run).rcc
               == end.recorded + end.unrecorded + Sum(end.books.accounts[run].held)
            && end.recorded <= CloseTotals(end.books, run).rcc
            && (end.recorded == CloseTotals(end.books, run).rcc <==>
                  end.unrecorded == 0 && forall id :: id in end.books.accounts[run].held ==>
                                                     end.books.accounts[run].held[id] == 0)
  {
    AlwaysAgrees(p, run, d, events);
    var held := Afterwards(p, run, d, events).books.accounts[run].held;
    SumNonNegative(held);
    if forall id :: id in held ==> held[id] == 0 {
      SumOfZeros(held);
    }
  }

  lemma {:induction false} SumOfZeros(m: map<nat, int>)
    requires forall k :: k in m ==> m[k] == 0
    ensures Sum(m) == 0
    decreases |m|
  {
    if m != map[] {
      var k :| k in m;
      SumWithout(m, k);
      SumOfZeros(m - {k});
    }
  }

  /** A run just admitted, with an empty receipt, agrees. */
  lemma AdmittedAgrees(p: PriceTable, run: string, b: Books, limits: Limits)
    requires IdsIssued(b) && run !in b.accounts
    ensures Agrees(p, run, Desk(AdmitBooks(b, run, limits), map[], 0, 0))
  {
  }

  /** A call that ends after its run was closed changes neither the ledger nor the receipt. */
  lemma LateEndChangesNothing(p: PriceTable, run: string, d: Desk, id: nat, ending: Ending)
    requires run !in d.books.accounts
    ensures var after := Happen(p, run, d, End(id, ending));
            after.books == d.books && after.recorded == d.recorded && after.unrecorded == d.unrecorded
  {
  }

  // ---------------------------------------------------------------- the ceiling

  /** Replies report usage within the reservation and take no more attempts than are allowed. */
  predicate Measurable(d: Desk, e: Event, maxAttempts: nat) {
    match e
    case Begin(_) => true
    case End(id, ending) => id in d.inFlight ==> UsageWithin(d.inFlight[id], ending) && ending.attempts <= maxAttempts
    case Elsewhere(_) => true
  }

  ghost predicate AllMeasurable(p: PriceTable, run: string, d: Desk, events: seq<Event>, maxAttempts: nat)
    decreases |events|
  {
    events == [] ||
    (Measurable(d, events[0], maxAttempts) &&
     AllMeasurable(p, run, Happen(p, run, d, events[0]), events[1..], maxAttempts))
  }

  lemma HappenWithinBudget(p: PriceTable, run: string, d: Desk, e: Event, maxAttempts: nat)
    requires maxAttempts >= 1 && Agrees(p, run, d) && WithinBudget(d.books.accounts[run], maxAttempts)
    requires (e.Elsewhere? ==> RunOf(e.op) != run) && Measurable(d, e, maxAttempts)
    ensures var after := Happen(p, run, d, e);
            run in after.books.accounts && WithinBudget(after.books.accounts[run], maxAttempts)
  {
    match e
    case Begin(request) =>
      var estimate := EstimateOf(p, request);
      if estimate.Success? && ReserveCheck(d.books, run, estimate.value, KindOf(request)).None? {
        ChargeNotNegative(p, request, Exhausted(0));
        HoldWithinBudget(d.books.accounts[run], d.books.nextId + 1, estimate.value, maxAttempts);
      }
    case End(id, ending) =>
      if id in d.inFlight && IsHeld(d.books, run, id) {
        ChargeWithinAttempts(p, d.inFlight[id], ending, maxAttempts);
        var effect := EffectOf(p, d.inFlight[id], EstimateOf(p, d.inFlight[id]).value, ending);
        MulMonotone(0, maxAttempts, d.books.accounts[run].held[id]);
        UnholdWithinBudget(d.books.accounts[run], id, if effect.Charge? then effect.rcc else 0, maxAttempts);
      }
    case Elsewhere(op) =>
      assert Apply(d.books, op).accounts[run] == d.books.accounts[run];
  }

  /** Through the adapter a run whose replies report usage within their reservations never spends
      more than `maxAttempts` times its ceiling: retries are what the factor pays for. */
  lemma {:induction false} AttemptsTimesTheCeiling(p: PriceTable, run: string, d: Desk, events: seq<Event>,
                                                   maxAttempts: nat)
    requires maxAttempts >= 1 && Agrees(p, run, d) && WithinBudget(d.books.accounts[run], maxAttempts)
    requires OthersElsewhere(run, events) && AllMeasurable(p, run, d, events, maxAttempts)
    ensures var end := Afterwards(p, run, d, events);
            && run in end.books.accounts
            && end.books.accounts[run].limits == d.books.accounts[run].limits
            && CloseTotals(end.books, run).rcc <= maxAttempts * d.books.accounts[run].limits.rcc
    decreases |events|
  {
    if events == [] {
      var a := d.books.accounts[run];
      SumNonNegative(a.held);
      MulMonotone(1, maxAttempts, Sum(a.held));
    } else {
      var next := Happen(p, run, d, events[0]);
      HappenAgrees(p, run, d, events[0]);
      HappenWithinBudget(p, run, d, events[0], maxAttempts);
      assert next.books.accounts[run].limits == d.books.accounts[run].limits;
      AttemptsTimesTheCeiling(p, run, next, events[1..], maxAttempts);
    }
  }

  // ---------------------------------------------------------------- the adapter

  datatype CallError =
    | CannotFund
    | UndeclaredModel
    | Budget(error: BudgetError)
    | AdapterFailure

  /** One run's adapter: the shared ledger, the run's receipt, and one payer. What is in flight and
      what went unrecorded are kept for the proofs alone. */
  class OpenRouterAdapter {
    const prices: PriceTable
    const run: string
    const owner: Owner
    const maxAttempts: nat
    const ledger: Ledger
    const receipt: Receipt
    ghost var inFlight: map<nat, Request>
    ghost var unrecorded: int

    constructor (prices: PriceTable, run: string, owner: Owner, maxAttempts: nat, ledger: Ledger, receipt: Receipt)
      ensures this.prices == prices && this.run == run && this.owner == owner && this.maxAttempts == maxAttempts
      ensures this.ledger == ledger && this.receipt == receipt && inFlight == map[] && unrecorded == 0
    {
      this.prices, this.run, this.owner, this.maxAttempts := prices, run, owner, maxAttempts;
      this.ledger, this.receipt := ledger, receipt;
      inFlight, unrecorded := map[], 0;
    }

    ghost predicate Valid()
      reads this, ledger, receipt
    {
      ledger.Valid() && Verified(receipt.h, receipt.calls)
    }

    ghost function Value(): Desk
      requires Valid()
      reads this, ledger, receipt
    {
      Desk(ledger.Value(), inFlight, RccOf(receipt.calls), unrecorded)
    }

    /** Reserves for a request, before anything is sent. */
    method BeginCall(request: Request) returns (r: Result<Reservation, BudgetError>)
      requires Valid()
      modifies this, ledger
      ensures Valid() && Value() == Happen(prices, run, old(Value()), Begin(request))
      ensures r.Success? ==> r.value.run == run && r.value.id in inFlight && inFlight[r.value.id] == request
      ensures r.Success? ==> EstimateOf(prices, request) == Success(r.value.rcc)
      ensures r.Success? ==> r.value.id == old(Value()).books.nextId + 1 && Value() != old(Value())
      ensures r.Failure? ==> Value() == old(Value())
    {
      var estimate := EstimateOf(prices, request);
      if estimate.Failure? {
        return Failure(estimate.error);
      }
      r := ledger.Reserve(run, estimate.value, KindOf(request));
      if r.Success? {
        inFlight := inFlight[r.value.id := request];
      }
    }

    /** Settles, then records if the response can be read and an attempt was made. What is settled
        and not recorded is counted as unrecorded. */
    method SettleAndRecord(reservation: Reservation, rcc: int, readable: bool, tool: Tool, purpose: Purpose,
                           slug: string, snapshot: string, requestHash: string, responseHash: string,
                           tokens: Tokens, attempts: nat)
      returns (r: Result<bool, BudgetError>)
      requires Valid() && owner == PurposeOwner(purpose) && reservation.run == run && rcc >= 0
      modifies this`unrecorded, ledger, receipt
      ensures Valid() && ledger.Value() == Unhold(old(ledger.Value()), run, reservation.id, rcc)
      ensures r.Success? <==> IsHeld(old(ledger.Value()), run, reservation.id)
      ensures r.Failure? ==> receipt.calls == old(receipt.calls) && unrecorded == old(unrecorded)
      ensures r.Success? ==> r.value == (readable && attempts >= 1)
      ensures r.Success? && r.value ==> unrecorded == old(unrecorded) && |receipt.calls| == |old(receipt.calls)| + 1
                                        && RccOf(receipt.calls) == RccOf(old(receipt.calls)) + rcc
      ensures r.Success? && !r.value ==> unrecorded == old(unrecorded) + rcc && receipt.calls == old(receipt.calls)
    {
      var settled := ledger.Settle(reservation, rcc);
      if settled.Failure? {
        return Failure(settled.error);
      }
      if !readable {
        unrecorded := unrecorded + rcc;
        return Success(false);
      }
      var noted := receipt.Record(tool, "openrouter", requestHash, responseHash, rcc, purpose, owner, slug, snapshot,
                                  tokens.tokensIn, tokens.tokensOut, attempts);
      if noted.Failure? {
        unrecorded := unrecorded + rcc;
      }
      r := Success(noted.Success?);
    }

    /** Takes a call's reservation out of flight and applies its effect. */
    method ApplyEffect(reservation: Reservation, effect: Effect, readable: bool, tool: Tool, purpose: Purpose,
                       slug: string, snapshot: string, requestHash: string, responseHash: string,
                       tokens: Tokens, attempts: nat)
      returns (r: Result<bool, BudgetError>)
      requires Valid() && owner == PurposeOwner(purpose) && reservation.run == run
      requires effect.Charge? ==> effect.rcc >= 0 && (effect.recorded <==> readable && attempts >= 1)
      modifies this, ledger, receipt
      ensures Valid() && Value() == Finished(run, old(Value()), reservation.id, effect)
      ensures effect.Charge? ==> (r.Success? <==> IsHeld(old(ledger.Value()), run, reservation.id))
      ensures effect.Charge? && r.Success? && effect.recorded ==>
                unrecorded == old(unrecorded) && |receipt.calls| == |old(receipt.calls)| + 1
                && RccOf(receipt.calls) == RccOf(old(receipt.calls)) + effect.rcc
    {
      inFlight := inFlight - {reservation.id};
      if effect.LeaveHeld? {
        return Success(false);
      }
      if effect.GiveBack? {
        ledger.Release(reservation);
        return Success(false);
      }
      r := SettleAndRecord(reservation, effect.rcc, readable, tool, purpose, slug, snapshot, requestHash, responseHash,
                           tokens, attempts);
    }

    /** From the reply on: settle or release, then record. Nothing else runs in between. */
    method EndCall(reservation: Reservation, request: Request, ending: Ending, purpose: Purpose,
                   slug: string, snapshot: string, requestHash: string, responseHash: string)
      returns (r: Result<int, CallError>)
      requires Valid() && owner == PurposeOwner(purpose)
      requires reservation.run == run && reservation.id in inFlight && inFlight[reservation.id] == request
      requires EstimateOf(prices, request) == Success(reservation.rcc)
      requires ending.Ended? ==> ending.attempts >= 1
      modifies this, ledger, receipt
      ensures Valid() && Value() == Happen(prices, run, old(Value()), End(reservation.id, ending))
      ensures r.Failure? ==> r.error == AdapterFailure || r.error.Budget?
      ensures r.Success? <==> IsHeld(old(ledger.Value()), run, reservation.id) && Answers(request, ending)
      ensures r.Success? ==> EffectOf(prices, request, reservation.rcc, ending) == Charge(r.value, true)
      ensures r.Success? ==> RccOf(receipt.calls) == RccOf(old(receipt.calls)) + r.value
                             && unrecorded == old(unrecorded) && |receipt.calls| == |old(receipt.calls)| + 1
    {
      ChargeNotNegative(prices, request, ending);
      var effect := EffectOf(prices, request, reservation.rcc, ending);
      var answered := ending.Ended? && ending.last.Answered?;
      var tokens := if answered then Measured(ending.last.usage) else Tokens(0, 0);
      var noted := ApplyEffect(
        reservation, effect, answered ==> ending.last.hasMessage,
        if request.Completion? then LlmTool else SearchTool, purpose, slug, snapshot, requestHash, responseHash,
        tokens, if request.WebSearchCall? then 1 else ending.attempts);
      if noted.Failure? {
        return Failure(Budget(noted.error));
      }
      if !Answers(request, ending) {
        return Failure(AdapterFailure);
      }
      r := Success(effect.rcc);
    }

    /** Reserve, attempt, settle and record, with nothing of the run's in between. */
    method MakeCall(purpose: Purpose, slug: string, snapshot: string, request: Request, script: nat -> Reply,
                    attemptsAllowed: nat, requestHash: string, responseHash: string)
      returns (r: Result<int, CallError>)
      requires Valid() && owner == PurposeOwner(purpose)
      modifies this, ledger, receipt
      ensures Valid() && Value() == WholeCall(prices, run, old(Value()), request, EndingOf(script, 0, attemptsAllowed))
      ensures r.Success? ==>
                var ending, estimate := EndingOf(script, 0, attemptsAllowed), EstimateOf(prices, request);
                estimate.Success? && Answers(request, ending) &&
                  EffectOf(prices, request, estimate.value, ending) == Charge(r.value, true)
      ensures r.Failure? ==> r.error == AdapterFailure || r.error.Budget?
      ensures r.Success? ==> RccOf(receipt.calls) == RccOf(old(receipt.calls)) + r.value
                             && unrecorded == old(unrecorded) && |receipt.calls| == |old(receipt.calls)| + 1
    {
      ghost var d := Value();
      var reservation := BeginCall(request);
      if reservation.Failure? {
        return Failure(Budget(reservation.error));
      }
      var ending := Attempt(script, attemptsAllowed);
      ghost var begun := Value();
      r := EndCall(reservation.value, request, ending, purpose, slug, snapshot, requestHash, responseHash);
      assert Value() == Happen(prices, run, begun, End(d.books.nextId + 1, ending));
    }

    /** One completion that nothing else interrupts, from the allowlist to the receipt. */
    method Complete(purpose: Purpose, slug: string, snapshot: string, allowed: Option<set<string>>,
                    permitted: set<string>, promptTokens: nat, maxTokens: int, script: nat -> Reply,
                    requestHash: string, responseHash: string)
      returns (r: Result<int, CallError>)
      requires Valid()
      modifies this, ledger, receipt
      ensures Valid()
      ensures r == Failure(CannotFund) <==> owner != PurposeOwner(purpose)
      ensures r == Failure(UndeclaredModel) <==>
              owner == PurposeOwner(purpose) &&
              ((allowed.Some? && slug !in allowed.value) || (permitted != {} && slug !in permitted))
      ensures Value() == if r == Failure(CannotFund) || r == Failure(UndeclaredModel) then old(Value())
                         else WholeCall(prices, run, old(Value()), Completion(promptTokens, maxTokens),
                                        EndingOf(script, 0, maxAttempts))
      ensures r.Success? ==> RccOf(receipt.calls) == RccOf(old(receipt.calls)) + r.value
                             && unrecorded == old(unrecorded) && |receipt.calls| == |old(receipt.calls)| + 1
    {
      if owner != PurposeOwner(purpose) {
        return Failure(CannotFund);
      }
      if (allowed.Some? && slug !in allowed.value) || (permitted != {} && slug !in permitted) {
        return Failure(UndeclaredModel);
      }
      r := MakeCall(purpose, slug, snapshot, Completion(promptTokens, maxTokens), script, maxAttempts, requestHash,
                    responseHash);
    }

    /** One search: a single attempt at a flat price, charged whether or not it comes back. */
    method SearchWeb(purpose: Purpose, slug: string, snapshot: string, reply: Reply, requestHash: string,
                     responseHash: string)
      returns (r: Result<int, CallError>)
      requires Valid()
      modifies this, ledger, receipt
      ensures Valid()
      ensures r == Failure(CannotFund) <==> owner != PurposeOwner(purpose)
      ensures Value() == if owner != PurposeOwner(purpose) then old(Value())
                         else WholeCall(prices, run, old(Value()), WebSearchCall, EndingOf(k => reply, 0, 1))
      ensures r.Success? ==> r.value == prices.rccPerSearch && reply.Answered? && reply.hasMessage
                             && RccOf(receipt.calls) == RccOf(old(receipt.calls)) + prices.rccPerSearch
    {
      if owner != PurposeOwner(purpose) {
        return Failure(CannotFund);
      }
      r := MakeCall(purpose, slug, snapshot, WebSearchCall, k => reply, 1, requestHash, responseHash);
    }
  }
}
