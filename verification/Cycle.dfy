/** Block heights, offsets, phases and labels of the daily cycle (validator/cycle.py). */
module Cycle {
  import opened Wrappers

  datatype Phase =
    | BeforeSubmissionClose
    | AwaitingSaltCommit
    | AwaitingRandomness
    | Generating
    | AwaitingReveal
    | Executing
    | Scoring
    | AwaitingWeights
    | Done

  datatype CycleError =
    | SaltNotBeforeRandomness
    | NoRoomToGenerate
    | PackNotBeforeReveal
    | SubmissionsNotClosedFirst
    | ExecutionOutOfOrder
    | DivisionByZero
    | AnchorInsideAnEpoch
    | AnchorNotADate
    | CycleOverrunsItsDay

  /** A round's label: a day number, or an hour number when epochs are shorter than a day. */
  datatype Label = ByDate(day: int) | ByHour(hour: int)

  const BLOCK_SECONDS := 12
  const CALENDAR_DAY_BLOCKS := 7_200
  const DAY_SECONDS := 86_400
  const HOUR_SECONDS := 3_600

  /** The position of a label on the calendar. Labels of one season are all of one kind. */
  function Position(mark: Label): int {
    match mark
    case ByDate(day) => day
    case ByHour(hour) => hour
  }

  /** `anchorDate` is the parsed date as a day number, `None` when the text is not an ISO date. */
  datatype CycleConfig = CycleConfig(
    blocksPerDay: int,
    submissionCloseAt: int,
    saltCommitAt: int,
    randomnessAt: int,
    packCommitAt: int,
    revealAt: int,
    executionCloseAt: int,
    weightsAt: int,
    anchorBlock: int,
    anchorDate: Option<int>)
  {
    /** The checks of construction, in order; the first that fails is the error raised. */
    function AssertOrdering(): Option<CycleError> {
      if saltCommitAt >= randomnessAt then Some(SaltNotBeforeRandomness)
      else if randomnessAt + 1 >= packCommitAt then Some(NoRoomToGenerate)
      else if packCommitAt >= revealAt then Some(PackNotBeforeReveal)
      else if submissionCloseAt >= saltCommitAt then Some(SubmissionsNotClosedFirst)
      else if !(revealAt < executionCloseAt < weightsAt) then Some(ExecutionOutOfOrder)
      else if blocksPerDay == 0 then Some(DivisionByZero)
      else if anchorBlock % blocksPerDay != 0 then Some(AnchorInsideAnEpoch)
      else if anchorDate.None? then Some(AnchorNotADate)
      else if weightsAt >= blocksPerDay + revealAt then Some(CycleOverrunsItsDay)
      else None
    }

    /** A configuration that can be constructed at all. */
    predicate Valid() {
      AssertOrdering().None?
    }

    /** The precondition the constructor does not check: a round opens within one epoch of its
        reveal, so that at most one later round can be open at any height. */
    predicate OpensWithinAnEpoch() {
      revealAt - saltCommitAt <= blocksPerDay
    }

    function PhaseOf(offset: int): Phase {
      if offset < submissionCloseAt then BeforeSubmissionClose
      else if offset < saltCommitAt then AwaitingSaltCommit
      else if offset < randomnessAt then AwaitingRandomness
      else if offset < packCommitAt then Generating
      else if offset < revealAt then AwaitingReveal
      else if offset < executionCloseAt then Executing
      else if offset < weightsAt then Scoring
      else if offset == weightsAt then AwaitingWeights
      else Done
    }

    function EpochIndex(block: int): int
      requires Valid()
    {
      block / blocksPerDay
    }

    function EpochStartOf(index: int): int {
      index * blocksPerDay
    }

    function OffsetIn(index: int, block: int): int {
      block - EpochStartOf(index) + revealAt
    }

    function RoundOpens(): int {
      saltCommitAt
    }

    function RoundCloses(): int {
      blocksPerDay + revealAt
    }

    predicate InWindow(index: int, block: int) {
      RoundOpens() <= OffsetIn(index, block) < RoundCloses()
    }

    /** The rounds the driver looks at: this block's epoch and the next, if in their windows. */
    function LiveRounds(block: int): seq<int>
      requires Valid()
    {
      var current := EpochIndex(block);
      (if InWindow(current, block) then [current] else []) +
      (if InWindow(current + 1, block) then [current + 1] else [])
    }

    /** Seconds from the calendar's origin to the start of a round, at nominal block time. */
    function RoundMoment(index: int): int
      requires Valid()
    {
      anchorDate.value * DAY_SECONDS +
      (index - anchorBlock / blocksPerDay) * (blocksPerDay * BLOCK_SECONDS)
    }

    function RoundLabel(index: int): Label
      requires Valid()
    {
      if blocksPerDay >= CALENDAR_DAY_BLOCKS
      then ByDate(RoundMoment(index) / DAY_SECONDS)
      else ByHour(RoundMoment(index) / HOUR_SECONDS)
    }
  }

  lemma EpochBounds(c: CycleConfig, block: int)
    requires c.Valid()
    ensures c.blocksPerDay >= 3
    ensures c.EpochStartOf(c.EpochIndex(block)) <= block < c.EpochStartOf(c.EpochIndex(block)) + c.blocksPerDay
  {
  }

  /** Epoch starts move by at least one epoch per index. */
  lemma StartsApart(c: CycleConfig, i: int, j: int)
    requires c.blocksPerDay > 0
    ensures i < j ==> c.EpochStartOf(j) - c.EpochStartOf(i) >= c.blocksPerDay
  {
    if i < j {
      assert c.EpochStartOf(j) - c.EpochStartOf(i) == (j - i) * c.blocksPerDay;
      assert (j - i) * c.blocksPerDay >= 1 * c.blocksPerDay by {
        MulMonotone(1, j - i, c.blocksPerDay);
      }
    }
  }

  /** One or two rounds are live at any height; the current epoch's is always the first. */
  lemma LiveRoundsShape(c: CycleConfig, block: int)
    requires c.Valid()
    ensures var live := c.LiveRounds(block); var current := c.EpochIndex(block);
            live == [current] || live == [current, current + 1]
  {
    EpochBounds(c, block);
  }

  /** The candidates looked at are enough for every height exactly when a round opens within one
      epoch of its reveal. */
  lemma LiveRoundsExact(c: CycleConfig)
    requires c.Valid()
    ensures c.OpensWithinAnEpoch() <==>
            forall block, index :: index in c.LiveRounds(block) <==> c.InWindow(index, block)
  {
    if c.OpensWithinAnEpoch() {
      forall block, index ensures index in c.LiveRounds(block) <==> c.InWindow(index, block) {
        LiveIffInWindow(c, block, index);
      }
    } else {
      // The last block of epoch 0 is inside round 2's window, and round 2 is not looked at.
      var block := c.blocksPerDay - 1;
      EpochBounds(c, block);
      assert c.EpochIndex(block) == 0;
      assert c.InWindow(2, block) && 2 !in c.LiveRounds(block);
    }
  }

  lemma LiveIffInWindow(c: CycleConfig, block: int, index: int)
    requires c.Valid() && c.OpensWithinAnEpoch()
    ensures index in c.LiveRounds(block) <==> c.InWindow(index, block)
  {
    var current := c.EpochIndex(block);
    EpochBounds(c, block);
    StartsApart(c, index, current);
    StartsApart(c, current + 1, index);
    NextStart(c, current);
    OutsideByStart(c, block, c.EpochStartOf(current), c.EpochStartOf(index));
    if index != current && index != current + 1 {
      assert !c.InWindow(index, block);
    }
  }

  lemma NextStart(c: CycleConfig, index: int)
    ensures c.EpochStartOf(index + 1) == c.EpochStartOf(index) + c.blocksPerDay
  {
  }

  /** A round that starts an epoch or more before this one is closed, and one that starts two
      epochs or more after it has not opened. */
  lemma OutsideByStart(c: CycleConfig, block: int, start: int, own: int)
    requires c.Valid() && c.OpensWithinAnEpoch() && start <= block < start + c.blocksPerDay
    ensures own <= start - c.blocksPerDay ==> block - own + c.revealAt >= c.RoundCloses()
    ensures own >= start + 2 * c.blocksPerDay ==> block - own + c.revealAt < c.RoundOpens()
  {
  }

  /** The round's offset at the height is between its opening and its reveal. */
  predicate IsBeforeReveal(c: CycleConfig, index: int, block: int) {
    c.saltCommitAt <= c.OffsetIn(index, block) < c.revealAt
  }

  /** Of all rounds never two are between their opening and their reveal, exactly when a round opens
      within one epoch of its reveal. */
  lemma OneRoundBeforeReveal(c: CycleConfig)
    requires c.Valid()
    ensures c.OpensWithinAnEpoch() <==>
            forall i, j, block :: IsBeforeReveal(c, i, block) && IsBeforeReveal(c, j, block) ==> i == j
  {
    if c.OpensWithinAnEpoch() {
      forall i, j, block | IsBeforeReveal(c, i, block) && IsBeforeReveal(c, j, block) ensures i == j {
        StartsApart(c, i, j);
        StartsApart(c, j, i);
      }
    } else {
      var block := c.blocksPerDay - 1;
      assert IsBeforeReveal(c, 1, block) && IsBeforeReveal(c, 2, block);
    }
  }

  /** Of the rounds looked at only the next epoch's is before its reveal, wherever rounds open: so
      never two of them are in a step that writes a commitment. */
  lemma LiveBeforeReveal(c: CycleConfig, index: int, block: int)
    requires c.Valid() && index in c.LiveRounds(block)
    ensures c.OffsetIn(index, block) < c.revealAt <==> index == c.EpochIndex(block) + 1
  {
    EpochBounds(c, block);
    NextStart(c, c.EpochIndex(block));
  }

  /** Labels increase with the epoch index exactly when an epoch lasts at least an hour. */
  lemma LabelsIncrease(c: CycleConfig)
    requires c.Valid()
    ensures c.blocksPerDay >= 300 <==>
            forall i, j :: i < j ==> Position(c.RoundLabel(i)) < Position(c.RoundLabel(j))
  {
    if c.blocksPerDay >= 300 {
      forall i, j | i < j ensures Position(c.RoundLabel(i)) < Position(c.RoundLabel(j)) {
        MomentsApart(c, i, j);
      }
    } else {
      ShortEpochsCollide(c);
      var a := c.anchorBlock / c.blocksPerDay;
      assert a < a + 1 && c.RoundLabel(a) == c.RoundLabel(a + 1);
    }
  }

  /** In a season of epochs under an hour the anchor's round and the next share one label. */
  lemma ShortEpochsCollide(c: CycleConfig)
    requires c.Valid() && c.blocksPerDay < 300
    ensures var a := c.anchorBlock / c.blocksPerDay; c.RoundLabel(a) == c.RoundLabel(a + 1)
  {
    var a := c.anchorBlock / c.blocksPerDay;
    var start := c.anchorDate.value * DAY_SECONDS;
    assert c.RoundMoment(a) == start;
    assert c.RoundMoment(a + 1) == start + c.blocksPerDay * BLOCK_SECONDS;
    assert start == c.anchorDate.value * 24 * HOUR_SECONDS;
  }

  lemma MomentsApart(c: CycleConfig, i: int, j: int)
    requires c.Valid() && i < j
    ensures c.RoundMoment(j) - c.RoundMoment(i) >= c.blocksPerDay * BLOCK_SECONDS
  {
    var step := c.blocksPerDay * BLOCK_SECONDS;
    var a := c.anchorBlock / c.blocksPerDay;
    assert (j - a) * step - (i - a) * step == (j - i) * step;
    MulMonotone(1, j - i, step);
  }

  /** No two rounds share a label, hence a store key, exactly when an epoch lasts an hour. */
  lemma LabelsDistinct(c: CycleConfig)
    requires c.Valid()
    ensures c.blocksPerDay >= 300 <==> forall i, j :: c.RoundLabel(i) == c.RoundLabel(j) ==> i == j
  {
    LabelsIncrease(c);
    if c.blocksPerDay >= 300 {
      forall i, j | i != j ensures c.RoundLabel(i) != c.RoundLabel(j) {
        var low, high := if i < j then i else j, if i < j then j else i;
        assert Position(c.RoundLabel(low)) < Position(c.RoundLabel(high));
      }
    } else {
      ShortEpochsCollide(c);
    }
  }
}
