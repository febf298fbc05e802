/** The hash-chained receipt of a run's external calls (protocol/receipts.py). */
module Receipts {
  import opened Wrappers

  datatype Tool = LlmTool | SearchTool | SimTool | EmbeddingTool | CodeTool

  datatype Owner = Miner | Validator

  datatype Purpose = Research | WebSearch | Simulation | ChallengeGeneration | Critique | Judging | PriorArt

  datatype ReceiptError = NoAttempts | NegativeRcc | WrongOwner | SequenceGap(at: nat) | BrokenLink(at: nat)

  const GENESIS := "genesis"

  /** Which account each purpose must be billed to. */
  function PurposeOwner(purpose: Purpose): Owner {
    match purpose
    case Research => Miner
    case WebSearch => Miner
    case Simulation => Miner
    case ChallengeGeneration => Validator
    case Critique => Validator
    case Judging => Validator
    case PriorArt => Validator
  }

  datatype Call = Call(
    seqNo: int,
    tool: Tool,
    provider: string,
    requestHash: string,
    responseHash: string,
    rcc: int,
    purpose: Purpose,
    owner: Owner,
    previous: string,
    model: string,
    revision: string,
    tokensIn: int,
    tokensOut: int,
    attempts: int)
  {
    /** The refusals of construction. */
    function Refusal(): Option<ReceiptError> {
      if attempts < 1 then Some(NoAttempts)
      else if rcc < 0 then Some(NegativeRcc)
      else if owner != PurposeOwner(purpose) then Some(WrongOwner)
      else None
    }
  }

  /** The names under which a link body lists its values. */
  datatype Field =
    | SeqF | ToolF | ProviderF | ModelF | RevisionF | RequestHashF | ResponseHashF
    | RccF | TokensInF | TokensOutF | AttemptsF | PurposeF | OwnerF | PreviousF

  datatype FieldValue = Num(n: int) | Text(s: string) | OfTool(t: Tool) | OfPurpose(p: Purpose) | OfOwner(o: Owner)

  type Body = map<Field, FieldValue>

  /** What a link is the digest of: every field of the call, under its name. */
  function LinkBody(c: Call): Body {
    map[
      SeqF := Num(c.seqNo),
      ToolF := OfTool(c.tool),
      ProviderF := Text(c.provider),
      ModelF := Text(c.model),
      RevisionF := Text(c.revision),
      RequestHashF := Text(c.requestHash),
      ResponseHashF := Text(c.responseHash),
      RccF := Num(c.rcc),
      TokensInF := Num(c.tokensIn),
      TokensOutF := Num(c.tokensOut),
      AttemptsF := Num(c.attempts),
      PurposeF := OfPurpose(c.purpose),
      OwnerF := OfOwner(c.owner),
      PreviousF := Text(c.previous)
    ]
  }

  /** No field of a call is left out of its link body. */
  lemma LinkBodyLosesNothing(a: Call, b: Call)
    requires LinkBody(a) == LinkBody(b)
    ensures a == b
  {
    var x, y := LinkBody(a), LinkBody(b);
    assert x[SeqF] == y[SeqF] && x[ToolF] == y[ToolF] && x[ProviderF] == y[ProviderF] && x[ModelF] == y[ModelF];
    assert x[RevisionF] == y[RevisionF] && x[RequestHashF] == y[RequestHashF] && x[ResponseHashF] == y[ResponseHashF];
    assert x[RccF] == y[RccF] && x[TokensInF] == y[TokensInF] && x[TokensOutF] == y[TokensOutF];
    assert x[AttemptsF] == y[AttemptsF] && x[PurposeF] == y[PurposeF] && x[OwnerF] == y[OwnerF];
    assert x[PreviousF] == y[PreviousF];
  }

  /** The head link, given the digest `h` of link bodies. */
  function ChainHead(h: Body -> string, calls: seq<Call>): string {
    if calls == [] then GENESIS else h(LinkBody(calls[|calls| - 1]))
  }

  /** Every call has its place for a number and names the link before it. */
  ghost predicate Verified(h: Body -> string, calls: seq<Call>) {
    calls == [] ||
    (var rest, last := calls[..|calls| - 1], calls[|calls| - 1];
     Verified(h, rest) && last.seqNo == |rest| && last.previous == ChainHead(h, rest))
  }

  lemma {:induction false} VerifiedPrefixes(h: Body -> string, calls: seq<Call>, k: nat)
    requires Verified(h, calls) && k <= |calls|
    ensures Verified(h, calls[..k])
  {
    if k < |calls| {
      VerifiedPrefixes(h, calls[..|calls| - 1], k);
      assert calls[..|calls| - 1][..k] == calls[..k];
    } else {
      assert calls[..k] == calls;
    }
  }

  /** The chain verifies up to the place the error names, and breaks there in the way it says. */
  ghost predicate IsFirstBreak(h: Body -> string, calls: seq<Call>, error: ReceiptError) {
    match error
    case SequenceGap(at) => at < |calls| && Verified(h, calls[..at]) && calls[at].seqNo != at
    case BrokenLink(at) => at < |calls| && Verified(h, calls[..at]) && calls[at].seqNo == at
                           && calls[at].previous != ChainHead(h, calls[..at])
    case _ => false
  }

  /** The first break, or none exactly when the chain verifies. */
  method VerifyChain(h: Body -> string, calls: seq<Call>) returns (error: Option<ReceiptError>)
    ensures error.None? <==> Verified(h, calls)
    ensures error.Some? ==> IsFirstBreak(h, calls, error.value)
  {
    var expectedPrevious := GENESIS;
    for index := 0 to |calls|
      invariant Verified(h, calls[..index])
      invariant expectedPrevious == ChainHead(h, calls[..index])
    {
      var call := calls[index];
      ghost var through := calls[..index + 1];
      assert through[..index] == calls[..index];
      if call.seqNo != index || call.previous != expectedPrevious {
        if Verified(h, calls) {
          VerifiedPrefixes(h, calls, index + 1);
          assert false;
        }
        return Some(if call.seqNo != index then SequenceGap(index) else BrokenLink(index));
      }
      expectedPrevious := h(LinkBody(call));
    }
    assert calls[..|calls|] == calls;
    return None;
  }

  /** Two different bodies under one link. */
  predicate SameLink(h: Body -> string, x: Call, y: Call) {
    LinkBody(x) != LinkBody(y) && h(LinkBody(x)) == h(LinkBody(y))
  }

  /** The digest fails on the links of these very calls: two different bodies have one digest, or one
      has the chain's start for its digest. */
  ghost predicate Collide(h: Body -> string, a: seq<Call>, b: seq<Call>) {
    || (exists i, j :: 0 <= i < |a| && 0 <= j < |b| && SameLink(h, a[i], b[j]))
    || (exists i :: 0 <= i < |a| && h(LinkBody(a[i])) == GENESIS)
    || (exists j :: 0 <= j < |b| && h(LinkBody(b[j])) == GENESIS)
  }

  lemma CollideLonger(h: Body -> string, a: seq<Call>, b: seq<Call>, x: Call, y: Call)
    requires Collide(h, a, b)
    ensures Collide(h, a + [x], b + [y])
  {
    if i, j :| 0 <= i < |a| && 0 <= j < |b| && SameLink(h, a[i], b[j]) {
      assert (a + [x])[i] == a[i] && (b + [y])[j] == b[j];
    } else if i :| 0 <= i < |a| && h(LinkBody(a[i])) == GENESIS {
      assert (a + [x])[i] == a[i];
    } else {
      var j :| 0 <= j < |b| && h(LinkBody(b[j])) == GENESIS;
      assert (b + [y])[j] == b[j];
    }
  }

  /** Two verified chains with one head are the same chain call for call, unless the digest fails on
      them. So no call can be dropped, reordered or altered under an unchanged head. */
  lemma {:induction false} SameHeadSameChain(h: Body -> string, a: seq<Call>, b: seq<Call>)
    requires Verified(h, a) && Verified(h, b) && ChainHead(h, a) == ChainHead(h, b)
    ensures a == b || Collide(h, a, b)
    decreases |a|
  {
    if a != [] && b != [] {
      var before, x := a[..|a| - 1], a[|a| - 1];
      var prior, y := b[..|b| - 1], b[|b| - 1];
      assert a == before + [x] && b == prior + [y];
      if x == y {
        SameHeadSameChain(h, before, prior);
        if before != prior {
          CollideLonger(h, before, prior, x, y);
        }
      } else {
        if LinkBody(x) == LinkBody(y) {
          LinkBodyLosesNothing(x, y);
        }
        assert SameLink(h, a[|a| - 1], b[|b| - 1]);
      }
    } else if a != [] {
      assert h(LinkBody(a[|a| - 1])) == GENESIS;
    } else if b != [] {
      assert h(LinkBody(b[|b| - 1])) == GENESIS;
    }
  }

  lemma VerifiedAppend(h: Body -> string, calls: seq<Call>, call: Call)
    requires Verified(h, calls) && call.seqNo == |calls| && call.previous == ChainHead(h, calls)
    ensures Verified(h, calls + [call])
  {
    assert (calls + [call])[..|calls|] == calls;
  }

  // ---------------------------------------------------------------- totals

  function RccOf(calls: seq<Call>): int {
    if calls == [] then 0 else RccOf(calls[..|calls| - 1]) + calls[|calls| - 1].rcc
  }

  function RccBilledTo(calls: seq<Call>, owner: Owner): int {
    if calls == [] then 0
    else
      var last := calls[|calls| - 1];
      RccBilledTo(calls[..|calls| - 1], owner) + (if last.owner == owner then last.rcc else 0)
  }

  /** The accounts' shares add up to the measured total: no call is billed twice or to nobody. */
  lemma {:induction false} SharesAddUp(calls: seq<Call>)
    ensures RccBilledTo(calls, Miner) + RccBilledTo(calls, Validator) == RccOf(calls)
  {
    if calls != [] {
      SharesAddUp(calls[..|calls| - 1]);
    }
  }

  /** One run's evidence, built as calls happen. */
  class Receipt {
    const h: Body -> string
    var calls: seq<Call>

    constructor (h: Body -> string)
      ensures calls == [] && this.h == h && Verified(h, calls)
    {
      this.h := h;
      calls := [];
    }

    /** Appends one call under the next number and the current head, or refuses it. `requestHash`
        and `responseHash` are the digests of the bodies sent and received. */
    method Record(tool: Tool, provider: string, requestHash: string, responseHash: string, rcc: int,
                  purpose: Purpose, owner: Owner, model: string, revision: string,
                  tokensIn: int, tokensOut: int, attempts: int)
      returns (r: Result<Call, ReceiptError>)
      requires Verified(h, calls)
      modifies this
      ensures Verified(h, calls)
      ensures r.Success? <==> attempts >= 1 && rcc >= 0 && owner == PurposeOwner(purpose)
      ensures r.Success? ==> calls == old(calls) + [r.value] && r.value.rcc == rcc && r.value.tool == tool
                             && r.value.attempts == attempts && r.value.owner == owner
      ensures r.Failure? ==> calls == old(calls)
      ensures RccOf(calls) == RccOf(old(calls)) + (if r.Success? then rcc else 0)
    {
      var head := if calls == [] then GENESIS else h(LinkBody(calls[|calls| - 1]));
      var call := Call(|calls|, tool, provider, requestHash, responseHash, rcc, purpose, owner, head,
                       model, revision, tokensIn, tokensOut, attempts);
      var refusal := call.Refusal();
      if refusal.Some? {
        return Failure(refusal.value);
      }
      VerifiedAppend(h, calls, call);
      calls := calls + [call];
      assert calls[..|calls| - 1] == old(calls);
      r := Success(call);
    }
  }
}
