/** What holds over whole runs of the round loop: any tick heights, any failures, any deaths of the
    process between a step's writes and the store's, any restarts. */
module DriverRuns {
  import opened Wrappers
  import opened Cycle
  import opened Scheduler
  import opened Rounds
  import opened Driver
  import Chain
  import Commitments

  // ---------------------------------------------------------------- a round's record

  /** The heights, one per recorded step, are each inside that step's own window of the round. */
  ghost predicate InWindows(c: CycleConfig, index: int, decided: seq<int>) {
    |decided| <= 5 && forall k :: 0 <= k < |decided| ==> Windows(c)[k].Contains(c.OffsetIn(index, decided[k]))
  }

  function PhaseAfter(c: CycleConfig, index: int, decided: seq<int>): string {
    if decided == [] then "BEFORE_SUBMISSION_CLOSE"
    else PhaseName(c.PhaseOf(c.OffsetIn(index, decided[|decided| - 1])))
  }

  /** A round's state against the heights at which its recorded steps were decided. */
  ghost predicate Recorded(su: Setup, index: int, s: RoundState, decided: seq<int>)
    requires su.cycle.Valid()
  {
    && InWindows(su.cycle, index, decided)
    && s.date == su.Name(index)
    && s.stepsDone == NAMES[..|decided|]
    && s.phase == PhaseAfter(su.cycle, index, decided)
    && (|decided| < 2 ==> s.challenges == [])
  }

  ghost predicate RoundOk(su: Setup, w: World, index: int)
    requires su.cycle.Valid()
  {
    var date := su.Name(index);
    if date in w.rounds then Recorded(su, index, w.rounds[date], Of(w.decided, date)) else Of(w.decided, date) == []
  }

  ghost predicate AllOk(su: Setup, w: World)
    requires su.cycle.Valid()
  {
    && (forall index: int :: RoundOk(su, w, index))
    && (forall date :: date in w.rounds ==> exists index: int :: date == su.Name(index))
  }

  lemma LoadedOk(su: Setup, w: World, index: int, block: int)
    requires su.cycle.Valid() && RoundOk(su, w, index)
    ensures Recorded(su, index, Load(su, w, su.Name(index), block), Of(w.decided, su.Name(index)))
  {
    assert NAMES[..0] == [];
  }

  // ---------------------------------------------------------------- one move

  /** A step keeps the round's date, its recorded steps, its phase and that it is not abandoned;
      only generation brings a pack in, and only the first step a salt. */
  ghost predicate Carries(s: RoundState, p: RoundState, step: Step) {
    && p.date == s.date && p.stepsDone == s.stepsDone && p.phase == s.phase && p.abandoned == s.abandoned
    && (step != Generate ==>
          p.challenges == s.challenges && p.packHash == s.packHash && p.challengeCount == s.challengeCount)
    && (step != CommitSalt ==> p.saltHex == s.saltHex && p.saltCommitment == s.saltCommitment)
  }

  lemma StepsKeep(su: Setup, chain: Chain.ChainState, s: RoundState, step: Step, block: int, work: Work)
    requires su.cycle.Valid() && Effect(su, chain, s, step, block, work).Some?
    ensures Carries(s, Effect(su, chain, s, step, block, work).value.1, step)
  {
  }

  lemma ProducedIsEffect(chain: Chain.ChainState, fate: Fate, effect: Option<(Chain.ChainState, RoundState)>)
    ensures Ending(chain, fate, effect).1.Produced? ==>
              effect == Some((Ending(chain, fate, effect).0, Ending(chain, fate, effect).1.state))
  {
  }

  lemma PerformKeeps(su: Setup, chain: Chain.ChainState, s: RoundState, step: Step, block: int, work: Work)
    requires su.cycle.Valid()
    ensures var (_, ran) := Perform(su, chain, s, step, block, work);
            ran.Produced? ==>
              && Effect(su, chain, s, step, block, work).Some?
              && Effect(su, chain, s, step, block, work).value.1 == ran.state
    ensures var (_, ran) := Perform(su, chain, s, step, block, work);
            ran.Produced? ==> Carries(s, ran.state, step)
  {
    var effect := Effect(su, chain, s, step, block, work);
    ProducedIsEffect(chain, work.fate, effect);
    if effect.Some? {
      StepsKeep(su, chain, s, step, block, work);
    }
  }

  /** What a move may be for a round with so many steps recorded. */
  ghost predicate Fits(su: Setup, index: int, s: RoundState, count: nat, block: int, move: Move) {
    match move
    case Stays => true
    case Halts => false
    case Late(step) => s.abandoned == "" && count < 5 && step == ORDER[count]
    case Failed(step) => s.abandoned == "" && IsNext(su, index, count, block, step)
    case Lost(step) => s.abandoned == "" && IsNext(su, index, count, block, step)
    case Finished(step, p) => s.abandoned == "" && IsNext(su, index, count, block, step) && Carries(s, p, step)
  }

  /** The step is the next of the order and the height is in its window. */
  ghost predicate IsNext(su: Setup, index: int, count: nat, block: int, step: Step) {
    count < 5 && step == ORDER[count] && Windows(su.cycle)[count].Contains(su.cycle.OffsetIn(index, block))
  }

  lemma ChosenFits(su: Setup, chain: Chain.ChainState, index: int, s: RoundState, decided: seq<int>, block: int,
                   work: Work)
    requires su.cycle.Valid() && Recorded(su, index, s, decided)
    ensures var (after, move) := Choose(su, chain, s, su.cycle.OffsetIn(index, block), block, work);
            && Fits(su, index, s, |decided|, block, move)
            && (move.Stays? || move.Late? ==> after == chain)
            && (move.Failed? || move.Lost? || move.Finished? ==>
                  Perform(su, chain, s, move.step, block, work).0 == after)
            && (move.Finished? ==> Perform(su, chain, s, move.step, block, work).1 == Produced(move.state))
  {
    if s.abandoned == "" {
      var offset := su.cycle.OffsetIn(index, block);
      DonePrefix(|decided|);
      DecidePrefix(su.cycle, offset, |decided|);
      var decision := Decide(su.cycle, offset, Prefix(|decided|));
      if decision.Run? {
        PerformKeeps(su, chain, s, decision.step, block, work);
      }
    }
  }

  // ---------------------------------------------------------------- one advance

  lemma OneMoreRecorded(su: Setup, index: int, s: RoundState, decided: seq<int>, block: int, step: Step, p: RoundState)
    requires su.cycle.Valid() && Recorded(su, index, s, decided)
    requires IsNext(su, index, |decided|, block, step) && Carries(s, p, step)
    ensures Recorded(su, index,
                     p.(stepsDone := p.stepsDone + [StepName(step)], block := block, updatedAtBlock := block,
                        phase := PhaseName(su.cycle.PhaseOf(su.cycle.OffsetIn(index, block)))),
                     decided + [block])
  {
    var k := |decided|;
    assert StepName(ORDER[k]) == NAMES[k];
    assert NAMES[..k + 1] == NAMES[..k] + [NAMES[k]];
  }

  /** Nothing about a round changes. */
  ghost predicate SameRound(w: World, v: World, date: string) {
    && (date in w.rounds <==> date in v.rounds)
    && (date in w.rounds ==> w.rounds[date] == v.rounds[date])
    && Of(w.decided, date) == Of(v.decided, date)
    && Of(w.attempts, date) == Of(v.attempts, date)
  }

  lemma ApplyLeavesOthers(su: Setup, w: World, s: RoundState, move: Move, offset: int, block: int, date: string)
    requires date != s.date && (move.Finished? ==> move.state.date == s.date)
    ensures SameRound(w, Apply(su, w, s, move, offset, block), date)
  {
    match move
    case Late(step) =>
      SaveLeavesOthers(w, s.(abandoned := LateReason(step), block := block, updatedAtBlock := block), date);
    case Failed(step) =>
      SaveLeavesOthers(Attempts(w, s.date, step, false),
                       s.(abandoned := FailureReason(step), block := block, updatedAtBlock := block), date);
    case _ =>
  }

  lemma SaveLeavesOthers(w: World, s: RoundState, date: string)
    requires date != s.date
    ensures SameRound(w, Save(w, s), date)
  {
  }

  lemma ApplyKeepsRound(su: Setup, w: World, index: int, s: RoundState, move: Move, block: int)
    requires su.cycle.Valid() && RoundOk(su, w, index)
    requires s.date == su.Name(index) && Recorded(su, index, s, Of(w.decided, s.date))
    requires Fits(su, index, s, |Of(w.decided, s.date)|, block, move)
    ensures RoundOk(su, Apply(su, w, s, move, su.cycle.OffsetIn(index, block), block), index)
  {
    if move.Finished? {
      OneMoreRecorded(su, index, s, Of(w.decided, s.date), block, move.step, move.state);
    }
  }

  /** Advancing one round leaves the record, the heights and the attempts of every other alone. */
  lemma AdvanceLeavesOthers(su: Setup, w: World, index: int, block: int, work: Work, date: string)
    requires su.cycle.Valid() && RoundOk(su, w, index) && date != su.Name(index)
    ensures SameRound(w, Advance(su, w, index, block, work).0, date)
  {
    var s, offset := Load(su, w, su.Name(index), block), su.cycle.OffsetIn(index, block);
    LoadedOk(su, w, index, block);
    ChosenFits(su, w.chain, index, s, Of(w.decided, s.date), block, work);
    var (chain, move) := Choose(su, w.chain, s, offset, block, work);
    ApplyLeavesOthers(su, w.(chain := chain), s, move, offset, block, date);
  }

  lemma AdvanceKeepsRound(su: Setup, w: World, index: int, block: int, work: Work)
    requires su.cycle.Valid() && RoundOk(su, w, index)
    ensures RoundOk(su, Advance(su, w, index, block, work).0, index)
  {
    var s, offset := Load(su, w, su.Name(index), block), su.cycle.OffsetIn(index, block);
    LoadedOk(su, w, index, block);
    ChosenFits(su, w.chain, index, s, Of(w.decided, s.date), block, work);
    var (chain, move) := Choose(su, w.chain, s, offset, block, work);
    ApplyKeepsRound(su, w.(chain := chain), index, s, move, block);
  }

  lemma ChosenOutside(su: Setup, chain: Chain.ChainState, s: RoundState, count: nat, offset: int, block: int,
                      work: Work)
    requires su.cycle.Valid() && count <= 5 && s.stepsDone == NAMES[..count]
    ensures s.abandoned != "" || count == 5 || offset < Windows(su.cycle)[count].opens ==>
              Choose(su, chain, s, offset, block, work) == (chain, Stays)
    ensures s.abandoned == "" && count < 5 && offset >= Windows(su.cycle)[count].closes ==>
              Choose(su, chain, s, offset, block, work) == (chain, Late(ORDER[count]))
  {
    DonePrefix(count);
    DecidePrefix(su.cycle, offset, count);
  }

  /** A round is abandoned as late only once its next step's window has closed. */
  lemma AdvanceOutside(su: Setup, w: World, index: int, block: int, work: Work)
    requires su.cycle.Valid() && RoundOk(su, w, index)
    ensures var s, count := Load(su, w, su.Name(index), block), |Of(w.decided, su.Name(index))|;
            var offset, v := su.cycle.OffsetIn(index, block), Advance(su, w, index, block, work).0;
            && (s.abandoned != "" || count == 5 || offset < Windows(su.cycle)[count].opens ==> v == w)
            && (s.abandoned == "" && count < 5 && offset >= Windows(su.cycle)[count].closes ==>
                  v == GiveUp(w, s, block, LateReason(ORDER[count])))
  {
    var s, offset := Load(su, w, su.Name(index), block), su.cycle.OffsetIn(index, block);
    var count := |Of(w.decided, su.Name(index))|;
    LoadedOk(su, w, index, block);
    ChosenOutside(su, w.chain, s, count, offset, block, work);
  }

  /** The round is not given up and its next step's window is open. */
  ghost predicate IsDue(su: Setup, w: World, index: int, block: int)
    requires su.cycle.Valid()
  {
    && RoundOk(su, w, index) && Load(su, w, su.Name(index), block).abandoned == ""
    && |Of(w.decided, su.Name(index))| < 5
    && Windows(su.cycle)[|Of(w.decided, su.Name(index))|].Contains(su.cycle.OffsetIn(index, block))
  }

  /** Then the next step is attempted, and what it comes to is what the advance leaves. */
  lemma DueIsAttempted(su: Setup, w: World, index: int, block: int, work: Work)
    requires su.cycle.Valid() && IsDue(su, w, index, block)
    ensures var s, step := Load(su, w, su.Name(index), block), ORDER[|Of(w.decided, su.Name(index))|];
            var (chain, ran) := Perform(su, w.chain, s, step, block, work);
            Advance(su, w, index, block, work) ==
            (Apply(su, w.(chain := chain), s, Attempted(step, ran), su.cycle.OffsetIn(index, block), block), !ran.Died?)
  {
    var count := |Of(w.decided, su.Name(index))|;
    LoadedOk(su, w, index, block);
    DonePrefix(count);
    DecidePrefix(su.cycle, su.cycle.OffsetIn(index, block), count);
  }

  /** One more step of the round is recorded, at this height, and the round is not given up. */
  ghost predicate OneMoreDone(su: Setup, w: World, v: World, index: int, block: int)
    requires su.cycle.Valid()
  {
    var date, decided := su.Name(index), Of(w.decided, su.Name(index));
    && |decided| < 5 && date in v.rounds && v.rounds[date].abandoned == ""
    && v.rounds[date].stepsDone == NAMES[..|decided| + 1] && Of(v.decided, date) == decided + [block]
  }

  lemma FinishedIsDone(su: Setup, w: World, index: int, s: RoundState, step: Step, p: RoundState, block: int)
    requires su.cycle.Valid() && Recorded(su, index, s, Of(w.decided, su.Name(index))) && s.abandoned == ""
    requires IsNext(su, index, |Of(w.decided, su.Name(index))|, block, step) && Carries(s, p, step)
    ensures var v := Apply(su, w, s, Finished(step, p), su.cycle.OffsetIn(index, block), block);
            v.chain == w.chain && OneMoreDone(su, w, v, index, block)
  {
    OneMoreRecorded(su, index, s, Of(w.decided, su.Name(index)), block, step, p);
  }

  lemma ReturningPerforms(su: Setup, chain: Chain.ChainState, s: RoundState, step: Step, block: int, work: Work,
                          after: Chain.ChainState, p: RoundState)
    requires su.cycle.Valid() && work.fate == Returns && Effect(su, chain, s, step, block, work) == Some((after, p))
    ensures Perform(su, chain, s, step, block, work) == (after, Produced(p)) && Carries(s, p, step)
  {
    StepsKeep(su, chain, s, step, block, work);
    ReturnedIsProduced(chain, after, p);
  }

  lemma ReturnedIsProduced(chain: Chain.ChainState, after: Chain.ChainState, p: RoundState)
    ensures Ending(chain, Returns, Some((after, p))) == (after, Produced(p))
  {
  }

  /** A step that is due and returns is recorded, with its writes on the chain. */
  lemma ReturnedIsRecorded(su: Setup, w: World, index: int, block: int, work: Work, after: Chain.ChainState,
                           p: RoundState)
    requires su.cycle.Valid() && IsDue(su, w, index, block) && work.fate == Returns
    requires var s, step := Load(su, w, su.Name(index), block), ORDER[|Of(w.decided, su.Name(index))|];
             Effect(su, w.chain, s, step, block, work) == Some((after, p))
    ensures var (v, alive) := Advance(su, w, index, block, work);
            alive && v.chain == after && OneMoreDone(su, w, v, index, block)
  {
    var s, step := Load(su, w, su.Name(index), block), ORDER[|Of(w.decided, su.Name(index))|];
    LoadedOk(su, w, index, block);
    ReturningPerforms(su, w.chain, s, step, block, work, after, p);
    DueIsAttempted(su, w, index, block, work);
    FinishedIsDone(su, w.(chain := after), index, s, step, p, block);
  }

  /** A step that is due and refuses or raises ends the round, by name; the process goes on. */
  lemma RaisedEndsTheRound(su: Setup, w: World, index: int, block: int, work: Work)
    requires su.cycle.Valid() && IsDue(su, w, index, block)
    requires var s, step := Load(su, w, su.Name(index), block), ORDER[|Of(w.decided, su.Name(index))|];
             Perform(su, w.chain, s, step, block, work).1.Raised?
    ensures var date, decided := su.Name(index), Of(w.decided, su.Name(index));
            var (v, alive) := Advance(su, w, index, block, work);
            && alive && date in v.rounds && v.rounds[date].abandoned == FailureReason(ORDER[|decided|])
            && Of(v.decided, date) == decided
  {
    LoadedOk(su, w, index, block);
    DueIsAttempted(su, w, index, block, work);
  }

  // ---------------------------------------------------------------- every run

  lemma AdvanceKeepsAll(su: Setup, w: World, index: int, block: int, work: Work)
    requires su.Valid() && AllOk(su, w)
    ensures AllOk(su, Advance(su, w, index, block, work).0)
  {
    var v := Advance(su, w, index, block, work).0;
    AdvanceKeepsRound(su, w, index, block, work);
    forall other: int ensures RoundOk(su, v, other) {
      NamesDistinct(su, index, other);
      if other != index {
        assert RoundOk(su, w, other);
        AdvanceLeavesOthers(su, w, index, block, work, su.Name(other));
      }
    }
    forall date | date in v.rounds ensures exists other: int :: date == su.Name(other) {
      if date != su.Name(index) {
        AdvanceLeavesOthers(su, w, index, block, work, date);
      }
    }
  }

  lemma HappenKeepsAll(su: Setup, w: World, e: Event)
    requires su.Valid() && AllOk(su, w)
    ensures AllOk(su, Happen(su, w, e))
  {
    match e
    case Ticked(block, first, second) =>
      var live := su.cycle.LiveRounds(block);
      LiveRoundsShape(su.cycle, block);
      AdvanceKeepsAll(su, w, live[0], block, first);
      if |live| == 2 {
        AdvanceKeepsAll(su, Advance(su, w, live[0], block, first).0, live[1], block, second);
      }
    case _ =>
      var v := Happen(su, w, e);
      forall index: int ensures RoundOk(su, v, index) {
        assert RoundOk(su, w, index);
      }
  }

  /** In every run, whatever the tick heights and however steps end, each round's recorded steps
      are the first few of the order, each decided inside its own window of that round. */
  lemma {:induction false} AlwaysOk(su: Setup, block: nat, events: seq<Event>)
    requires su.Valid()
    ensures AllOk(su, After(su, Start(block), events))
  {
    if events == [] {
      forall index: int ensures RoundOk(su, Start(block), index) {
      }
    } else {
      AlwaysOk(su, block, events[..|events| - 1]);
      HappenKeepsAll(su, After(su, Start(block), events[..|events| - 1]), events[|events| - 1]);
    }
  }

  /** The round was looked at whenever one of its recorded steps was decided. */
  ghost predicate WasLive(su: Setup, w: World, index: int)
    requires su.cycle.Valid()
  {
    var decided := Of(w.decided, su.Name(index));
    forall k :: 0 <= k < |decided| ==> index in su.cycle.LiveRounds(decided[k])
  }

  ghost predicate AllLive(su: Setup, w: World)
    requires su.cycle.Valid()
  {
    forall index: int :: WasLive(su, w, index)
  }

  lemma AdvanceDecides(su: Setup, w: World, index: int, block: int, work: Work)
    requires su.cycle.Valid() && RoundOk(su, w, index)
    ensures var date, v := su.Name(index), Advance(su, w, index, block, work).0;
            Of(v.decided, date) == Of(w.decided, date) || Of(v.decided, date) == Of(w.decided, date) + [block]
  {
    var s, offset := Load(su, w, su.Name(index), block), su.cycle.OffsetIn(index, block);
    LoadedOk(su, w, index, block);
    ChosenFits(su, w.chain, index, s, Of(w.decided, s.date), block, work);
  }

  lemma AdvanceKeepsLive(su: Setup, w: World, index: int, block: int, work: Work)
    requires su.Valid() && RoundOk(su, w, index) && AllLive(su, w) && index in su.cycle.LiveRounds(block)
    ensures AllLive(su, Advance(su, w, index, block, work).0)
  {
    var v := Advance(su, w, index, block, work).0;
    AdvanceDecides(su, w, index, block, work);
    forall other: int ensures WasLive(su, v, other) {
      NamesDistinct(su, index, other);
      assert WasLive(su, w, other);
      if other != index {
        AdvanceLeavesOthers(su, w, index, block, work, su.Name(other));
      }
    }
  }

  lemma HappenKeepsLive(su: Setup, w: World, e: Event)
    requires su.Valid() && AllOk(su, w) && AllLive(su, w)
    ensures AllLive(su, Happen(su, w, e))
  {
    match e
    case Ticked(block, first, second) =>
      var live := su.cycle.LiveRounds(block);
      LiveRoundsShape(su.cycle, block);
      assert RoundOk(su, w, live[0]);
      AdvanceKeepsLive(su, w, live[0], block, first);
      AdvanceKeepsAll(su, w, live[0], block, first);
      if |live| == 2 {
        var v := Advance(su, w, live[0], block, first).0;
        assert RoundOk(su, v, live[1]);
        AdvanceKeepsLive(su, v, live[1], block, second);
      }
    case _ =>
      forall index: int ensures WasLive(su, Happen(su, w, e), index) {
        assert WasLive(su, w, index);
      }
  }

  /** In every run the steps of a round are decided only at heights at which the round is live. */
  lemma {:induction false} AlwaysLive(su: Setup, block: nat, events: seq<Event>)
    requires su.Valid()
    ensures AllLive(su, After(su, Start(block), events))
  {
    if events != [] {
      var before := events[..|events| - 1];
      AlwaysOk(su, block, before);
      AlwaysLive(su, block, before);
      HappenKeepsLive(su, After(su, Start(block), before), events[|events| - 1]);
    }
  }

  lemma WindowsInOrder(c: CycleConfig, j: nat, k: nat, x: int, y: int)
    requires c.Valid() && j < k < 5 && Windows(c)[j].Contains(x) && Windows(c)[k].Contains(y)
    ensures x < y
  {
  }

  /** Windows follow one another, so the heights of a round's recorded steps strictly increase,
      even when the ticks did not. */
  lemma DecisionsIncrease(su: Setup, block: nat, events: seq<Event>, index: int, j: nat, k: nat)
    requires su.Valid()
    requires j < k < |Of(After(su, Start(block), events).decided, su.Name(index))|
    ensures var decided := Of(After(su, Start(block), events).decided, su.Name(index)); decided[j] < decided[k]
  {
    AlwaysOk(su, block, events);
    var w := After(su, Start(block), events);
    assert RoundOk(su, w, index);
    var decided := Of(w.decided, su.Name(index));
    assert InWindows(su.cycle, index, decided);
    WindowsInOrder(su.cycle, j, k, su.cycle.OffsetIn(index, decided[j]), su.cycle.OffsetIn(index, decided[k]));
  }

  /** No step is recorded twice. */
  lemma StepsDoneDistinct(su: Setup, block: nat, events: seq<Event>, date: string)
    requires su.Valid() && date in After(su, Start(block), events).rounds
    ensures var done := After(su, Start(block), events).rounds[date].stepsDone;
            && done <= NAMES
            && forall j, k :: 0 <= j < k < |done| ==> done[j] != done[k]
  {
    AlwaysOk(su, block, events);
    var w := After(su, Start(block), events);
    var index: int :| date == su.Name(index);
    assert RoundOk(su, w, index);
    var count := |Of(w.decided, date)|;
    assert w.rounds[date].stepsDone == NAMES[..count] && count <= 5;
    NamesApart(count);
  }

  lemma NamesApart(count: nat)
    requires count <= 5
    ensures NAMES[..count] <= NAMES && forall j, k :: 0 <= j < k < count ==> NAMES[..count][j] != NAMES[..count][k]
  {
    assert |NAMES[0]| == 11 && |NAMES[1]| == 8 && |NAMES[2]| == 7 && |NAMES[3]| == 5 && |NAMES[4]| == 14;
  }

  // ---------------------------------------------------------------- rounds given up

  /** A round that is given up is never touched again. */
  lemma AdvanceLeavesGivenUp(su: Setup, w: World, index: int, block: int, work: Work, date: string)
    requires su.cycle.Valid() && RoundOk(su, w, index) && date in w.rounds && w.rounds[date].abandoned != ""
    ensures SameRound(w, Advance(su, w, index, block, work).0, date)
  {
    if date != su.Name(index) {
      AdvanceLeavesOthers(su, w, index, block, work, date);
    }
  }

  lemma HappenLeavesGivenUp(su: Setup, w: World, e: Event, date: string)
    requires su.Valid() && AllOk(su, w) && date in w.rounds && w.rounds[date].abandoned != ""
    ensures SameRound(w, Happen(su, w, e), date)
  {
    if e.Ticked? {
      var live := su.cycle.LiveRounds(e.block);
      LiveRoundsShape(su.cycle, e.block);
      assert RoundOk(su, w, live[0]);
      AdvanceLeavesGivenUp(su, w, live[0], e.block, e.first, date);
      AdvanceKeepsAll(su, w, live[0], e.block, e.first);
      if |live| == 2 {
        var v := Advance(su, w, live[0], e.block, e.first).0;
        assert RoundOk(su, v, live[1]);
        AdvanceLeavesGivenUp(su, v, live[1], e.block, e.second, date);
      }
    }
  }

  /** From any reachable point on: what is given up stays exactly as it was, whatever follows. */
  lemma {:induction false} GivenUpForEver(su: Setup, w: World, events: seq<Event>, date: string)
    requires su.Valid() && AllOk(su, w) && date in w.rounds && w.rounds[date].abandoned != ""
    ensures AllOk(su, After(su, w, events)) && SameRound(w, After(su, w, events), date)
  {
    if events != [] {
      var before := events[..|events| - 1];
      GivenUpForEver(su, w, before, date);
      HappenKeepsAll(su, After(su, w, before), events[|events| - 1]);
      HappenLeavesGivenUp(su, After(su, w, before), events[|events| - 1], date);
    }
  }

  // ---------------------------------------------------------------- disclosure

  /** The phase a round is saved in shows its problems exactly when scoring is recorded. */
  lemma DisclosedWhenScored(su: Setup, index: int, s: RoundState, decided: seq<int>)
    requires su.cycle.Valid() && Recorded(su, index, s, decided)
    ensures Disclosed(s) == Some(|decided| >= 4)
    ensures |decided| >= 4 ==>
              decided[3] >= su.cycle.EpochStartOf(index) + su.cycle.executionCloseAt - su.cycle.revealAt
  {
    var c := su.cycle;
    var p := if decided == [] then BeforeSubmissionClose else c.PhaseOf(c.OffsetIn(index, decided[|decided| - 1]));
    PhaseOfName(s.phase, p);
    if decided != [] {
      var last := |decided| - 1;
      assert Windows(c)[last].Contains(c.OffsetIn(index, decided[last]));
    }
    if |decided| >= 4 {
      assert Windows(c)[3].Contains(c.OffsetIn(index, decided[3]));
    }
  }

  /** In every reachable store each round has a public document, which carries the problems exactly
      when scoring is recorded; and scoring was then decided no earlier than the round's execution
      closed. A round given up is no exception. */
  lemma DisclosureIsLate(su: Setup, block: nat, events: seq<Event>, index: int)
    requires su.Valid()
    ensures var w := After(su, Start(block), events); var date := su.Name(index);
            date in w.rounds ==>
              && PublicView(w.rounds[date]).Some?
              && (PublicView(w.rounds[date]).value.challenges.Some? <==> "SCORE" in w.rounds[date].stepsDone)
              && ("SCORE" in w.rounds[date].stepsDone ==>
                    |Of(w.decided, date)| >= 4 &&
                    Of(w.decided, date)[3] >=
                    su.cycle.EpochStartOf(index) + su.cycle.executionCloseAt - su.cycle.revealAt)
  {
    AlwaysOk(su, block, events);
    var w := After(su, Start(block), events);
    var date := su.Name(index);
    assert RoundOk(su, w, index);
    if date in w.rounds {
      var decided := Of(w.decided, date);
      DisclosedWhenScored(su, index, w.rounds[date], decided);
      ScoreIsFourth(|decided|);
    }
  }

  lemma ScoreIsFourth(count: nat)
    requires count <= 5
    ensures "SCORE" in NAMES[..count] <==> count >= 4
  {
    assert |NAMES[0]| == 11 && |NAMES[1]| == 8 && |NAMES[2]| == 7 && |NAMES[3]| == 5 && |NAMES[4]| == 14;
    if count >= 4 {
      assert NAMES[..count][3] == "SCORE";
    }
  }

  // ---------------------------------------------------------------- attempts

  /** The steps of the attempts that the process outlived. */
  function Survivors(tries: seq<Try>): seq<Step> {
    if tries == [] then []
    else
      var before, last := Survivors(tries[..|tries| - 1]), tries[|tries| - 1];
      if last.died then before else before + [last.step]
  }

  /** Each attempt is at the step that comes after the ones outlived so far. */
  ghost predicate Regular(tries: seq<Try>) {
    tries == [] ||
    (var before, last := tries[..|tries| - 1], tries[|tries| - 1];
     Regular(before) && |Survivors(before)| < 5 && last.step == ORDER[|Survivors(before)|])
  }

  function Tries(tries: seq<Try>, step: Step): nat {
    if tries == [] then 0
    else Tries(tries[..|tries| - 1], step) + (if tries[|tries| - 1].step == step then 1 else 0)
  }

  function Deaths(tries: seq<Try>, step: Step): nat {
    if tries == [] then 0
    else Deaths(tries[..|tries| - 1], step) + (if tries[|tries| - 1] == Try(step, true) then 1 else 0)
  }

  lemma OneMoreTry(tries: seq<Try>, last: Try)
    ensures Survivors(tries + [last]) == if last.died then Survivors(tries) else Survivors(tries) + [last.step]
    ensures Regular(tries + [last]) <==>
            Regular(tries) && |Survivors(tries)| < 5 && last.step == ORDER[|Survivors(tries)|]
  {
    assert (tries + [last])[..|tries|] == tries;
  }

  /** In a regular log the outlived attempts are the first steps of the order, and each step was
      attempted once for every death in it and, if it is one of those, once more. */
  lemma {:induction false} RegularCounts(tries: seq<Try>, k: nat)
    requires Regular(tries) && k < 5
    ensures |Survivors(tries)| <= 5 && Survivors(tries) == ORDER[..|Survivors(tries)|]
    ensures Tries(tries, ORDER[k]) == Deaths(tries, ORDER[k]) + (if k < |Survivors(tries)| then 1 else 0)
  {
    if tries != [] {
      var before, last := tries[..|tries| - 1], tries[|tries| - 1];
      var n := |Survivors(before)|;
      RegularCounts(before, k);
      assert ORDER[..n + 1] == ORDER[..n] + [ORDER[n]];
      OrderDistinct(n, k);
    }
  }

  lemma OrderDistinct(j: nat, k: nat)
    requires j < 5 && k < 5
    ensures ORDER[j] == ORDER[k] <==> j == k
  {
  }

  /** Step `k` of a round is done with: it is recorded, or it ended the round by failing. */
  ghost predicate DoneWith(w: World, date: string, k: nat)
    requires k < 5
  {
    || k < |Of(w.decided, date)|
    || (k == |Of(w.decided, date)| && date in w.rounds && w.rounds[date].abandoned == FailureReason(ORDER[k]))
  }

  function ReasonOf(w: World, date: string): string {
    if date in w.rounds then w.rounds[date].abandoned else ""
  }

  /** How many steps a round is done with, from the steps recorded and why it was given up. */
  function HowManyDone(count: nat, reason: string): nat {
    if count < 5 && reason == FailureReason(ORDER[count]) then count + 1 else count
  }

  /** The attempts are regular and the outlived ones are the steps done with; in a calm run there
      are no others. */
  ghost predicate TriesMatch(tries: seq<Try>, count: nat, reason: string, calm: bool) {
    && Regular(tries) && |Survivors(tries)| == HowManyDone(count, reason)
    && (calm ==> |Survivors(tries)| == |tries|)
  }

  ghost predicate AttemptsMatch(su: Setup, w: World, index: int, calm: bool)
    requires su.cycle.Valid()
  {
    var date := su.Name(index);
    TriesMatch(Of(w.attempts, date), |Of(w.decided, date)|, ReasonOf(w, date), calm)
  }

  predicate Survives(work: Work) {
    work.fate != DiesBefore && work.fate != DiesAfter
  }

  predicate NoDeaths(events: seq<Event>) {
    forall i :: 0 <= i < |events| && events[i].Ticked? ==> Survives(events[i].first) && Survives(events[i].second)
  }

  lemma SurvivorsAreNotLost(su: Setup, chain: Chain.ChainState, s: RoundState, offset: int, block: int, work: Work)
    requires su.cycle.Valid() && Survives(work)
    ensures !Choose(su, chain, s, offset, block, work).1.Lost?
  {
  }

  lemma ReasonsApart(step: Step)
    ensures LateReason(step) != FailureReason(step) && FailureReason(step) != "" && LateReason(step) != ""
  {
    assert |LateReason(step)| > |FailureReason(step)|;
  }

  /** Nothing is done with yet at the next step of a round that goes on. */
  lemma NoReasonYet(count: nat)
    ensures HowManyDone(count, "") == count
    ensures count < 5 ==> HowManyDone(count, LateReason(ORDER[count])) == count
  {
    if count < 5 {
      ReasonsApart(ORDER[count]);
    }
  }

  lemma LostKeepsMatch(tries: seq<Try>, count: nat, step: Step)
    requires count < 5 && step == ORDER[count] && TriesMatch(tries, count, "", false)
    ensures TriesMatch(tries + [Try(step, true)], count, "", false)
  {
    NoReasonYet(count);
    OneMoreTry(tries, Try(step, true));
  }

  lemma OutlivedKeepsMatch(tries: seq<Try>, count: nat, step: Step, calm: bool)
    requires count < 5 && step == ORDER[count] && TriesMatch(tries, count, "", calm)
    ensures TriesMatch(tries + [Try(step, false)], count, FailureReason(step), calm)
    ensures TriesMatch(tries + [Try(step, false)], count + 1, "", calm)
  {
    NoReasonYet(count);
    NoReasonYet(count + 1);
    OneMoreTry(tries, Try(step, false));
  }

  /** What a move leaves of a round's attempts, of its recorded steps and of why it was given up. */
  lemma ApplyShows(su: Setup, w: World, s: RoundState, move: Move, offset: int, block: int)
    requires move.Finished? ==> move.state.date == s.date
    ensures var v, date := Apply(su, w, s, move, offset, block), s.date;
            match move
            case Lost(step) =>
              && Of(v.attempts, date) == Of(w.attempts, date) + [Try(step, true)]
              && |Of(v.decided, date)| == |Of(w.decided, date)| && ReasonOf(v, date) == ReasonOf(w, date)
            case Failed(step) =>
              && Of(v.attempts, date) == Of(w.attempts, date) + [Try(step, false)]
              && |Of(v.decided, date)| == |Of(w.decided, date)| && ReasonOf(v, date) == FailureReason(step)
            case Finished(step, p) =>
              && Of(v.attempts, date) == Of(w.attempts, date) + [Try(step, false)]
              && |Of(v.decided, date)| == |Of(w.decided, date)| + 1 && ReasonOf(v, date) == p.abandoned
            case Late(step) =>
              && Of(v.attempts, date) == Of(w.attempts, date)
              && |Of(v.decided, date)| == |Of(w.decided, date)| && ReasonOf(v, date) == LateReason(step)
            case _ => v == w
  {
  }

  lemma ApplyKeepsAttempts(su: Setup, w: World, index: int, s: RoundState, move: Move, block: int, calm: bool)
    requires su.cycle.Valid() && AttemptsMatch(su, w, index, calm)
    requires s.date == su.Name(index) && (calm ==> !move.Lost?)
    requires s.abandoned == ReasonOf(w, s.date)
    requires Fits(su, index, s, |Of(w.decided, s.date)|, block, move)
    ensures AttemptsMatch(su, Apply(su, w, s, move, su.cycle.OffsetIn(index, block), block), index, calm)
  {
    var count, tries := |Of(w.decided, s.date)|, Of(w.attempts, s.date);
    ApplyShows(su, w, s, move, su.cycle.OffsetIn(index, block), block);
    match move
    case Stays =>
    case Late(_) => NoReasonYet(count);
    case Lost(step) => LostKeepsMatch(tries, count, step);
    case Failed(step) => OutlivedKeepsMatch(tries, count, step, calm);
    case Finished(step, _) => OutlivedKeepsMatch(tries, count, step, calm);
  }

  lemma AdvanceKeepsAttempts(su: Setup, w: World, index: int, block: int, work: Work, other: int, calm: bool)
    requires su.Valid() && RoundOk(su, w, index) && (calm ==> Survives(work))
    requires AttemptsMatch(su, w, index, calm) && AttemptsMatch(su, w, other, calm)
    ensures AttemptsMatch(su, Advance(su, w, index, block, work).0, other, calm)
  {
    NamesDistinct(su, index, other);
    if other != index {
      AdvanceLeavesOthers(su, w, index, block, work, su.Name(other));
    } else {
      var s, offset := Load(su, w, su.Name(index), block), su.cycle.OffsetIn(index, block);
      LoadedOk(su, w, index, block);
      ChosenFits(su, w.chain, index, s, Of(w.decided, s.date), block, work);
      if calm {
        SurvivorsAreNotLost(su, w.chain, s, offset, block, work);
      }
      var (chain, move) := Choose(su, w.chain, s, offset, block, work);
      ApplyKeepsAttempts(su, w.(chain := chain), index, s, move, block, calm);
    }
  }

  ghost predicate AllAttemptsMatch(su: Setup, w: World, calm: bool)
    requires su.cycle.Valid()
  {
    forall index: int :: AttemptsMatch(su, w, index, calm)
  }

  lemma AdvanceKeepsAllAttempts(su: Setup, w: World, index: int, block: int, work: Work, calm: bool)
    requires su.Valid() && AllOk(su, w) && AllAttemptsMatch(su, w, calm) && (calm ==> Survives(work))
    ensures AllAttemptsMatch(su, Advance(su, w, index, block, work).0, calm)
  {
    forall other: int ensures AttemptsMatch(su, Advance(su, w, index, block, work).0, other, calm) {
      assert RoundOk(su, w, index) && AttemptsMatch(su, w, index, calm) && AttemptsMatch(su, w, other, calm);
      AdvanceKeepsAttempts(su, w, index, block, work, other, calm);
    }
  }

  lemma HappenKeepsAttempts(su: Setup, w: World, e: Event, calm: bool)
    requires su.Valid() && AllOk(su, w) && AllAttemptsMatch(su, w, calm)
    requires calm && e.Ticked? ==> Survives(e.first) && Survives(e.second)
    ensures AllAttemptsMatch(su, Happen(su, w, e), calm)
  {
    match e
    case Ticked(block, first, second) =>
      var live := su.cycle.LiveRounds(block);
      LiveRoundsShape(su.cycle, block);
      AdvanceKeepsAll(su, w, live[0], block, first);
      AdvanceKeepsAllAttempts(su, w, live[0], block, first, calm);
      if |live| == 2 {
        AdvanceKeepsAllAttempts(su, Advance(su, w, live[0], block, first).0, live[1], block, second, calm);
      }
    case _ =>
      forall index: int ensures AttemptsMatch(su, Happen(su, w, e), index, calm) {
        assert AttemptsMatch(su, w, index, calm);
      }
  }

  lemma {:induction false} AlwaysAttemptsMatch(su: Setup, block: nat, events: seq<Event>, calm: bool)
    requires su.Valid() && (calm ==> NoDeaths(events))
    ensures AllAttemptsMatch(su, After(su, Start(block), events), calm)
  {
    if events == [] {
      forall index: int ensures AttemptsMatch(su, Start(block), index, calm) {
        NoReasonYet(0);
      }
    } else {
      var before, e := events[..|events| - 1], events[|events| - 1];
      AlwaysOk(su, block, before);
      AlwaysAttemptsMatch(su, block, before, calm);
      HappenKeepsAttempts(su, After(su, Start(block), before), e, calm);
    }
  }

  /** In every run a step of a round has been attempted once for every death in it, and once more if
      the round is done with it. So it is attempted more than once exactly when it was attempted
      again after a death. */
  lemma AttemptsAreDeathsAndOne(su: Setup, block: nat, events: seq<Event>, index: int, k: nat)
    requires su.Valid() && k < 5
    ensures var w, date, step := After(su, Start(block), events), su.Name(index), ORDER[k];
            var tries := Of(w.attempts, date);
            && Regular(tries)
            && Tries(tries, step) == Deaths(tries, step) + (if DoneWith(w, date, k) then 1 else 0)
            && (Tries(tries, step) <= 1 <==>
                  Deaths(tries, step) == 0 || (Deaths(tries, step) == 1 && !DoneWith(w, date, k)))
  {
    var w := After(su, Start(block), events);
    AlwaysOk(su, block, events);
    AlwaysAttemptsMatch(su, block, events, false);
    assert RoundOk(su, w, index) && AttemptsMatch(su, w, index, false);
    RegularCounts(Of(w.attempts, su.Name(index)), k);
  }

  lemma {:induction false} OutlivedHaveNoDeaths(tries: seq<Try>, step: Step)
    ensures |Survivors(tries)| <= |tries|
    ensures |Survivors(tries)| == |tries| ==> Deaths(tries, step) == 0
  {
    if tries != [] {
      OutlivedHaveNoDeaths(tries[..|tries| - 1], step);
    }
  }

  /** As long as the process does not die inside a step, no step of any round is attempted twice,
      whatever fails and however often the loop is started again. */
  lemma AttemptedOnce(su: Setup, block: nat, events: seq<Event>, index: int, k: nat)
    requires su.Valid() && k < 5 && NoDeaths(events)
    ensures var w, date := After(su, Start(block), events), su.Name(index);
            Tries(Of(w.attempts, date), ORDER[k]) == if DoneWith(w, date, k) then 1 else 0
  {
    var w := After(su, Start(block), events);
    AlwaysAttemptsMatch(su, block, events, true);
    assert AttemptsMatch(su, w, index, true);
    OutlivedHaveNoDeaths(Of(w.attempts, su.Name(index)), ORDER[k]);
    AttemptsAreDeathsAndOne(su, block, events, index, k);
  }

  // ---------------------------------------------------------------- after a death

  /** A death inside a step leaves the store and the record of decisions as they were. */
  lemma DeathLeavesTheStore(su: Setup, w: World, index: int, block: int, work: Work)
    requires su.cycle.Valid() && IsDue(su, w, index, block)
    requires var s, step := Load(su, w, su.Name(index), block), ORDER[|Of(w.decided, su.Name(index))|];
             Perform(su, w.chain, s, step, block, work).1.Died?
    ensures var (v, alive) := Advance(su, w, index, block, work);
            && !alive && v.rounds == w.rounds && v.decided == w.decided
            && Of(v.attempts, su.Name(index)) ==
               Of(w.attempts, su.Name(index)) + [Try(ORDER[|Of(w.decided, su.Name(index))|], true)]
  {
    LoadedOk(su, w, index, block);
    DueIsAttempted(su, w, index, block, work);
  }

  /** So the step that was lost is attempted again by an advance at a height if and only if the
      height is inside its window, whatever has happened to the chain in between. */
  lemma LostIsTriedAgainExactly(su: Setup, w: World, index: int, block: int, lost: Work, v: World, again: int,
                                work: Work)
    requires su.cycle.Valid() && IsDue(su, w, index, block)
    requires v == Advance(su, w, index, block, lost).0.(chain := v.chain)
    requires var s, step := Load(su, w, su.Name(index), block), ORDER[|Of(w.decided, su.Name(index))|];
             Perform(su, w.chain, s, step, block, lost).1.Died?
    ensures var date, k := su.Name(index), |Of(w.decided, su.Name(index))|;
            var tries, next := Of(v.attempts, date), Of(Advance(su, v, index, again, work).0.attempts, date);
            if Windows(su.cycle)[k].Contains(su.cycle.OffsetIn(index, again)) then OneMoreTried(tries, next, ORDER[k])
            else next == tries
  {
    DeathLeavesTheStore(su, w, index, block, lost);
    StillOk(su, w, v, index);
    AttemptIsInside(su, v, index, again, work);
  }

  /** Nothing more was attempted, or the step was once more. */
  predicate OneMoreTried(before: seq<Try>, after: seq<Try>, step: Step) {
    after == before + [Try(step, true)] || after == before + [Try(step, false)]
  }

  lemma AttemptGrows(su: Setup, w: World, s: RoundState, step: Step, ran: Ran, offset: int, block: int)
    ensures OneMoreTried(Of(w.attempts, s.date),
                         Of(Apply(su, w, s, Attempted(step, ran), offset, block).attempts, s.date), step)
  {
  }

  lemma DueIsTried(su: Setup, w: World, index: int, block: int, work: Work)
    requires su.cycle.Valid() && IsDue(su, w, index, block)
    ensures OneMoreTried(Of(w.attempts, su.Name(index)),
                         Of(Advance(su, w, index, block, work).0.attempts, su.Name(index)),
                         ORDER[|Of(w.decided, su.Name(index))|])
  {
    var s, step := Load(su, w, su.Name(index), block), ORDER[|Of(w.decided, su.Name(index))|];
    LoadedOk(su, w, index, block);
    DueIsAttempted(su, w, index, block, work);
    var (chain, ran) := Perform(su, w.chain, s, step, block, work);
    AttemptGrows(su, w.(chain := chain), s, step, ran, su.cycle.OffsetIn(index, block), block);
  }

  lemma NotDueIsNotTried(su: Setup, w: World, index: int, block: int, work: Work)
    requires su.cycle.Valid() && RoundOk(su, w, index) && !IsDue(su, w, index, block)
    ensures Of(Advance(su, w, index, block, work).0.attempts, su.Name(index)) == Of(w.attempts, su.Name(index))
  {
    LoadedOk(su, w, index, block);
    AdvanceOutside(su, w, index, block, work);
  }

  /** A round that is not given up attempts its next step exactly inside the step's window. */
  lemma AttemptIsInside(su: Setup, w: World, index: int, block: int, work: Work)
    requires su.cycle.Valid() && RoundOk(su, w, index)
    requires |Of(w.decided, su.Name(index))| < 5 && Load(su, w, su.Name(index), block).abandoned == ""
    ensures var date, k := su.Name(index), |Of(w.decided, su.Name(index))|;
            var tries, next := Of(w.attempts, date), Of(Advance(su, w, index, block, work).0.attempts, date);
            if Windows(su.cycle)[k].Contains(su.cycle.OffsetIn(index, block)) then OneMoreTried(tries, next, ORDER[k])
            else next == tries
  {
    if IsDue(su, w, index, block) {
      DueIsTried(su, w, index, block, work);
    } else {
      NotDueIsNotTried(su, w, index, block, work);
    }
  }

  function SaltText(su: Setup, index: int, work: Work): Option<string>
    requires su.cycle.Valid()
  {
    Published(Commitments.Salt(su.Name(index), su.commit(work.salt)))
  }

  /** An attempt at the first step, from a store that shows nothing of the round. */
  lemma SaltAttempt(su: Setup, w: World, index: int, block: int, work: Work, text: string)
    requires su.cycle.Valid() && RoundOk(su, w, index) && su.Name(index) !in w.rounds
    requires Windows(su.cycle)[0].Contains(su.cycle.OffsetIn(index, block))
    requires (work.fate == DiesAfter || work.fate == Returns) && !w.chain.failReads
    requires SaltText(su, index, work) == Some(text)
    ensures var date := su.Name(index);
            var (v, alive) := Advance(su, w, index, block, work);
            && v.chain == w.chain.Publish(su.hotkey, text)
            && (work.fate == DiesAfter ==> !alive && v.rounds == w.rounds && v.decided == w.decided)
            && (work.fate == Returns ==> date in v.rounds && v.rounds[date].saltCommitment == su.commit(work.salt))
  {
    var s, offset := Load(su, w, su.Name(index), block), su.cycle.OffsetIn(index, block);
    LoadedOk(su, w, index, block);
    DonePrefix(0);
    DecidePrefix(su.cycle, offset, 0);
    assert NAMES[..0] == [];
    assert Choose(su, w.chain, s, offset, block, work).1 ==
           Attempted(CommitSalt, Perform(su, w.chain, s, CommitSalt, block, work).1);
  }

  /** When it does die between publishing a salt and saving the round, the next tick publishes a
      second salt for the same round: the store shows nothing of the first. */
  lemma DeathRepeatsTheStep(su: Setup, w: World, index: int, first: Work, one: string, later: World, second: Work,
                            two: string)
    requires su.cycle.Valid() && RoundOk(su, w, index) && su.Name(index) !in w.rounds && !w.chain.failReads
    requires Windows(su.cycle)[0].Contains(su.cycle.OffsetIn(index, w.chain.block))
    requires first.fate == DiesAfter && SaltText(su, index, first) == Some(one)
    requires second.fate == Returns && SaltText(su, index, second) == Some(two)
    requires later == Advance(su, w, index, w.chain.block, first).0.(chain := later.chain) && !later.chain.failReads
    requires Windows(su.cycle)[0].Contains(su.cycle.OffsetIn(index, later.chain.block))
    ensures Advance(su, w, index, w.chain.block, first).0.chain == w.chain.Publish(su.hotkey, one)
    ensures var done := Advance(su, later, index, later.chain.block, second).0;
            && done.chain == later.chain.Publish(su.hotkey, two)
            && su.Name(index) in done.rounds && done.rounds[su.Name(index)].saltCommitment == su.commit(second.salt)
  {
    SaltAttempt(su, w, index, w.chain.block, first, one);
    StillOk(su, w, later, index);
    SaltAttempt(su, later, index, later.chain.block, second, two);
  }

  lemma StillOk(su: Setup, w: World, v: World, index: int)
    requires su.cycle.Valid() && RoundOk(su, w, index) && v.rounds == w.rounds && v.decided == w.decided
    ensures RoundOk(su, v, index)
  {
  }
}
