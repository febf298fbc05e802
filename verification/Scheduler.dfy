/** What a round should do next, and when to look again (validator/scheduler.py). */
module Scheduler {
  import opened Wrappers
  import opened Cycle

  datatype Step = CommitSalt | Generate | Execute | Score | SubmitWeights

  /** The steps in the order they are considered. */
  const ORDER: seq<Step> := [CommitSalt, Generate, Execute, Score, SubmitWeights]

  /** The half-open range of offsets in which a step may run. */
  datatype Window = Window(step: Step, opens: int, closes: int)
  {
    predicate Contains(offset: int) {
      opens <= offset < closes
    }
  }

  datatype Decision =
    | Run(step: Step, deadlineOffset: int)
    | Wait(untilOffset: int, nextStep: Step)
    | Abandon(lateStep: Step)
    | Complete

  /** Generation opens one block after the randomness, whose hash must be settled to be read. */
  function Windows(c: CycleConfig): seq<Window> {
    [ Window(CommitSalt, c.saltCommitAt, c.randomnessAt),
      Window(Generate, c.randomnessAt + 1, c.packCommitAt),
      Window(Execute, c.revealAt, c.executionCloseAt),
      Window(Score, c.executionCloseAt, c.weightsAt),
      Window(SubmitWeights, c.weightsAt, c.RoundCloses()) ]
  }

  function Decide(c: CycleConfig, offset: int, done: set<Step>): Decision {
    DecideFrom(Windows(c), offset, done)
  }

  /** The first window whose step is not done decides. */
  function DecideFrom(windows: seq<Window>, offset: int, done: set<Step>): Decision {
    if windows == [] then Complete
    else
      var window := windows[0];
      if window.step in done then DecideFrom(windows[1..], offset, done)
      else if offset < window.opens then Wait(window.opens, window.step)
      else if offset >= window.closes then Abandon(window.step)
      else Run(window.step, window.closes)
  }

  /** The steps done when the first `count` of the order are. */
  function Prefix(count: nat): (done: set<Step>)
    requires count <= 5
  {
    set k | 0 <= k < count :: ORDER[k]
  }

  /** With a prefix of the order done, the next window alone decides. */
  lemma DecidePrefix(c: CycleConfig, offset: int, count: nat)
    requires count <= 5
    ensures Decide(c, offset, Prefix(count)) ==
            if count == 5 then Complete
            else
              var window := Windows(c)[count];
              if offset < window.opens then Wait(window.opens, ORDER[count])
              else if offset >= window.closes then Abandon(ORDER[count])
              else Run(ORDER[count], window.closes)
  {
    SkipDone(c, offset, count, 0);
  }

  lemma {:induction false} SkipDone(c: CycleConfig, offset: int, count: nat, from: nat)
    requires from <= count <= 5
    ensures DecideFrom(Windows(c)[from..], offset, Prefix(count)) ==
            DecideFrom(Windows(c)[count..], offset, Prefix(count))
    ensures count < 5 ==> ORDER[count] !in Prefix(count) && Windows(c)[count..][0].step == ORDER[count]
    decreases count - from
  {
    if from < count {
      assert ORDER[from] in Prefix(count);
      assert Windows(c)[from..][0].step == ORDER[from];
      assert Windows(c)[from..][1..] == Windows(c)[from + 1..];
      SkipDone(c, offset, count, from + 1);
    }
  }

  /** Round `index`, having done `done`, would run a step at this height. */
  predicate RunnableAt(c: CycleConfig, index: int, block: int, done: set<Step>) {
    Decide(c, c.OffsetIn(index, block), done).Run?
  }

  function Progress(progress: map<int, set<Step>>, index: int): set<Step> {
    if index in progress then progress[index] else {}
  }

  /** From one offset to a later one with progress fixed: a waiting round first runs exactly when
      its window opens, and an abandoned or complete round never runs. */
  lemma {:induction false} DecisionLater(windows: seq<Window>, offset: int, later: int, done: set<Step>)
    requires offset <= later
    requires forall w :: w in windows ==> w.opens < w.closes
    ensures match DecideFrom(windows, offset, done)
            case Run(_, _) => true
            case Wait(until, _) => offset < until && (later < until ==> DecideFrom(windows, later, done).Wait?)
                                   && (later == until ==> DecideFrom(windows, later, done).Run?)
            case Abandon(step) => DecideFrom(windows, later, done) == Abandon(step)
            case Complete => DecideFrom(windows, later, done) == Complete
  {
    if windows != [] && windows[0].step in done {
      DecisionLater(windows[1..], offset, later, done);
    }
  }

  /** The opening block of the step a waiting round waits for. */
  function WakeOf(c: CycleConfig, index: int, decision: Decision): int
    requires decision.Wait?
  {
    c.EpochStartOf(index) + decision.untilOffset - c.revealAt
  }

  lemma WindowsNotEmpty(c: CycleConfig)
    requires c.Valid()
    ensures forall w :: w in Windows(c) ==> w.opens < w.closes
  {
  }

  lemma WaitingRoundWakes(c: CycleConfig, index: int, block: int, later: int, done: set<Step>)
    requires c.Valid() && block <= later
    ensures var decision := Decide(c, c.OffsetIn(index, block), done);
            && (decision.Wait? ==>
                  var wake := WakeOf(c, index, decision);
                  && wake > block
                  && (later < wake ==> !RunnableAt(c, index, later, done))
                  && RunnableAt(c, index, wake, done))
            && (decision.Abandon? || decision.Complete? ==> !RunnableAt(c, index, later, done))
  {
    WindowsNotEmpty(c);
    var offset := c.OffsetIn(index, block);
    var decision := Decide(c, offset, done);
    DecisionLater(Windows(c), offset, c.OffsetIn(index, later), done);
    if decision.Wait? {
      var wake := WakeOf(c, index, decision);
      assert c.OffsetIn(index, wake) == decision.untilOffset;
      DecisionLater(Windows(c), offset, offset, done);
      DecisionLater(Windows(c), offset, decision.untilOffset, done);
    }
  }

  /** Some round live at `block` would run a step at height `at`, its progress unchanged. */
  ghost predicate SomeLiveRunnable(c: CycleConfig, block: int, progress: map<int, set<Step>>, at: int)
    requires c.Valid()
  {
    exists index :: index in c.LiveRounds(block) && RunnableAt(c, index, at, Progress(progress, index))
  }

  method Least(values: seq<int>) returns (least: int)
    requires values != []
    ensures least in values && forall v :: v in values ==> least <= v
  {
    least := values[0];
    for k := 1 to |values|
      invariant least in values
      invariant forall i :: 0 <= i < k ==> least <= values[i]
    {
      if values[k] < least {
        least := values[k];
      }
    }
  }

  /** The least height from `block` on at which a round live at `block` would run a step, were
      nothing recorded in between; none when there is no such height. */
  method NextWakeBlock(c: CycleConfig, block: int, progress: map<int, set<Step>>) returns (wake: Option<int>)
    requires c.Valid()
    ensures wake.Some? ==> block <= wake.value && SomeLiveRunnable(c, block, progress, wake.value)
    ensures forall at :: block <= at && SomeLiveRunnable(c, block, progress, at) ==> wake.Some? && wake.value <= at
  {
    var candidates: seq<int> := [];
    var live := c.LiveRounds(block);
    for k := 0 to |live|
      invariant forall w :: w in candidates ==> block < w && SomeLiveRunnable(c, block, progress, w)
      invariant forall i, at | 0 <= i < k && block <= at && RunnableAt(c, live[i], at, Progress(progress, live[i])) ::
                  HasUpTo(candidates, at)
    {
      var index := live[k];
      var done := Progress(progress, index);
      var decision := Decide(c, c.OffsetIn(index, block), done);
      if decision.Run? {
        assert RunnableAt(c, index, block, done);
        return Some(block);
      }
      ghost var before := candidates;
      if decision.Wait? {
        WaitingRoundWakes(c, index, block, block, done);
        candidates := candidates + [WakeOf(c, index, decision)];
      }
      forall at | block <= at && RunnableAt(c, index, at, done)
        ensures HasUpTo(candidates, at)
      {
        WaitingRoundWakes(c, index, block, at, done);
        assert WakeOf(c, index, decision) in candidates;
      }
      HasUpToGrows(before, candidates);
    }
    forall at | block <= at && SomeLiveRunnable(c, block, progress, at) ensures HasUpTo(candidates, at) {
      var i :| 0 <= i < |live| && RunnableAt(c, live[i], at, Progress(progress, live[i]));
    }
    if candidates == [] {
      return None;
    }
    var least := Least(candidates);
    return Some(least);
  }

  ghost predicate HasUpTo(values: seq<int>, bound: int) {
    exists v :: v in values && v <= bound
  }

  lemma HasUpToGrows(before: seq<int>, after: seq<int>)
    requires before <= after
    ensures forall bound :: HasUpTo(before, bound) ==> HasUpTo(after, bound)
  {
    forall bound | HasUpTo(before, bound) ensures HasUpTo(after, bound) {
      var i :| 0 <= i < |before| && before[i] <= bound;
      assert after[i] in after && after[i] <= bound;
    }
  }

  /** The height at which the first round not yet open at `block` opens. */
  function NextOpening(c: CycleConfig, block: int): int
    requires c.Valid()
  {
    var live := c.LiveRounds(block);
    var last := c.EpochIndex(block) + |live| - 1;
    c.EpochStartOf(last + 1) + c.saltCommitAt - c.revealAt
  }

  /** A round outside its window runs nothing, whatever it has done. */
  lemma {:induction false} ClosedRoundRunsNothing(windows: seq<Window>, offset: int, done: set<Step>)
    requires (forall w :: w in windows ==> offset < w.opens) || (forall w :: w in windows ==> w.closes <= offset)
    ensures !DecideFrom(windows, offset, done).Run?
  {
    if windows != [] {
      ClosedRoundRunsNothing(windows[1..], offset, done);
    }
  }

  /** Every height at which any round whatever becomes runnable is reached by the wake height of
      the live rounds or by the next opening, which the wake height leaves out; and a round with
      nothing done is runnable at its opening. */
  lemma EarliestOverAllRounds(c: CycleConfig, block: int, progress: map<int, set<Step>>, index: int, later: int)
    requires c.Valid() && block <= later
    ensures RunnableAt(c, index, later, Progress(progress, index)) ==>
              index in c.LiveRounds(block) || NextOpening(c, block) <= later
    ensures c.OpensWithinAnEpoch() ==> NextOpening(c, block) > block
    ensures exists next :: next !in c.LiveRounds(block) && RunnableAt(c, next, NextOpening(c, block), {})
  {
    var current := c.EpochIndex(block);
    LiveRoundsShape(c, block);
    EpochBounds(c, block);
    var next := current + |c.LiveRounds(block)|;
    NextStart(c, current);
    NextStart(c, current + 1);
    assert c.OffsetIn(next, NextOpening(c, block)) == c.saltCommitAt;
    assert RunnableAt(c, next, NextOpening(c, block), {});
    if index !in c.LiveRounds(block) && later < NextOpening(c, block) {
      assert index < current || index >= next;
      StartsApart(c, index, current);
      StartsApart(c, next, index);
      OutOfReach(c, block, later, c.EpochStartOf(current), c.EpochStartOf(next), c.EpochStartOf(index));
      ClosedRoundRunsNothing(Windows(c), c.OffsetIn(index, later), Progress(progress, index));
    }
  }

  /** The next opening lies ahead at every height exactly when a round opens within an epoch of its
      reveal; otherwise some round is open that is not looked at yet. */
  lemma NextOpeningIsAhead(c: CycleConfig)
    requires c.Valid()
    ensures c.OpensWithinAnEpoch() <==> forall block :: NextOpening(c, block) > block
  {
    if c.OpensWithinAnEpoch() {
      forall block ensures NextOpening(c, block) > block {
        EarliestOverAllRounds(c, block, map[], 0, block);
      }
    } else {
      var block := c.blocksPerDay - 1;
      LiveRoundsShape(c, block);
      assert c.EpochIndex(block) == 0;
      assert NextOpening(c, block) <= block;
    }
  }

  /** Before the next opening a round that is not live is past all its windows or before them all. */
  lemma OutOfReach(c: CycleConfig, block: int, later: int, start: int, next: int, own: int)
    requires c.Valid() && start <= block <= later < next + c.saltCommitAt - c.revealAt
    requires own <= start - c.blocksPerDay || own >= next
    ensures var offset := later - own + c.revealAt;
            (forall w :: w in Windows(c) ==> offset < w.opens) || (forall w :: w in Windows(c) ==> w.closes <= offset)
  {
  }

  /** The live rounds can all be finished while the next one is due to open: the wake height is
      then absent although a height at which a round becomes runnable exists. */
  lemma WakeMissesTheNextOpening(c: CycleConfig, index: int)
    requires c.Valid()
    ensures var block := c.EpochStartOf(index);
            var finished := map i | i in c.LiveRounds(block) :: Prefix(5);
            && (forall i, later :: i in c.LiveRounds(block) && block <= later ==>
                  !RunnableAt(c, i, later, Progress(finished, i)))
            && (exists next :: next !in c.LiveRounds(block) &&
                  RunnableAt(c, next, NextOpening(c, block), Progress(finished, next)))
  {
    var block := c.EpochStartOf(index);
    var finished := map i | i in c.LiveRounds(block) :: Prefix(5);
    EarliestOverAllRounds(c, block, finished, index, block);
    forall i, later | i in c.LiveRounds(block) && block <= later
      ensures !RunnableAt(c, i, later, Progress(finished, i))
    {
      DecidePrefix(c, c.OffsetIn(i, later), 5);
    }
  }
}
