/** What another validator can check about a round, on the in-memory chain: the salt was on chain
    before the randomness, and the pack carries it (validator/__main__.py, chain/client.py,
    protocol/commitments.py). Here every tick is at the chain's head, as the loop makes it. */
module DriverPeers {
  import opened Wrappers
  import opened Cycle
  import opened Scheduler
  import opened Rounds
  import opened Driver
  import opened DriverRuns
  import Chain
  import Commitments
  import Seeds
  import Text

  // ---------------------------------------------------------------- the round found by its label

  lemma {:induction false} FoundByLabel(su: Setup, live: seq<int>, k: nat, otherwise: int)
    requires su.Valid() && k < |live|
    ensures FindRound(su, live, su.Name(live[k]), otherwise) == live[k]
  {
    NamesDistinct(su, live[0], live[k]);
    if k > 0 && su.Name(live[0]) != su.Name(live[k]) {
      FoundByLabel(su, live[1..], k - 1, otherwise);
    }
  }

  /** For every live round, generation finds by the label the round the driver is advancing. */
  lemma LabelFindsTheRound(su: Setup, block: int, k: nat)
    requires su.Valid() && k < |su.cycle.LiveRounds(block)|
    ensures RoundOf(su, su.Name(su.cycle.LiveRounds(block)[k]), block) == su.cycle.LiveRounds(block)[k]
  {
    FoundByLabel(su, su.cycle.LiveRounds(block), k, if block >= 0 then su.cycle.EpochIndex(block) else 0);
  }

  /** While generation may run, the randomness block is past. */
  lemma RandomnessIsPast(su: Setup, index: int, block: int)
    requires Windows(su.cycle)[1].Contains(su.cycle.OffsetIn(index, block))
    ensures su.RandomnessBlock(index) < block
  {
  }

  // ---------------------------------------------------------------- what the archive shows

  /** The archive's record for the height holds the commitment, landed at that height. */
  ghost predicate Shows(su: Setup, chain: Chain.ChainState, height: int, c: Commitments.Commitment) {
    && 0 <= height <= chain.block
    && (height as nat) in chain.history
    && su.hotkey in chain.history[height]
    && Published(c) == Some(chain.history[height][su.hotkey].payload)
    && chain.history[height][su.hotkey].block == height
  }

  function SaltOf(s: RoundState): Commitments.Commitment {
    Commitments.Salt(s.date, s.saltCommitment)
  }

  function PackRecorded(su: Setup, s: RoundState): Commitments.Commitment {
    Commitments.Pack(s.date, s.packHash, s.saltCommitment, |s.challenges|, su.version)
  }

  /** The recorded salt opens the recorded commitment. */
  ghost predicate SaltHeld(su: Setup, s: RoundState) {
    && Text.FromHex(s.saltHex).Some?
    && Seeds.VerifySalt(Text.FromHex(s.saltHex).value, s.saltCommitment, su.commit).None?
  }

  /** A state's published commitments are in the archive at the heights of their steps. */
  ghost predicate Seen(su: Setup, chain: Chain.ChainState, s: RoundState, decided: seq<int>) {
    && (|decided| >= 1 ==> Shows(su, chain, decided[0], SaltOf(s)) && SaltHeld(su, s))
    && (|decided| >= 2 ==> Shows(su, chain, decided[1], PackRecorded(su, s)))
  }

  ghost predicate RoundSeen(su: Setup, w: World, index: int)
    requires su.cycle.Valid()
  {
    su.Name(index) in w.rounds ==> Seen(su, w.chain, w.rounds[su.Name(index)], Of(w.decided, su.Name(index)))
  }

  ghost predicate AllSeen(su: Setup, w: World)
    requires su.cycle.Valid()
  {
    w.chain.Valid() && forall index: int :: RoundSeen(su, w, index)
  }

  // ---------------------------------------------------------------- one write

  /** From one chain to the next, nothing already recorded below the head, and at the head only by
      publishing. */
  ghost predicate Writes(su: Setup, chain: Chain.ChainState, after: Chain.ChainState) {
    || after == chain
    || (exists text :: after == chain.Publish(su.hotkey, text))
    || (exists uids, weights :: after == chain.Submit(uids, weights))
  }

  lemma ShowsKept(su: Setup, chain: Chain.ChainState, after: Chain.ChainState, height: int, c: Commitments.Commitment)
    requires Writes(su, chain, after) && Shows(su, chain, height, c)
    requires height < chain.block || after == chain || exists uids, weights :: after == chain.Submit(uids, weights)
    ensures Shows(su, after, height, c)
  {
  }

  lemma WritesKeepValid(su: Setup, chain: Chain.ChainState, after: Chain.ChainState)
    requires Writes(su, chain, after) && chain.Valid()
    ensures after.Valid() && after.block == chain.block
  {
  }

  /** Only the first two steps publish. */
  lemma PerformWrites(su: Setup, chain: Chain.ChainState, s: RoundState, step: Step, block: int, work: Work)
    requires su.cycle.Valid()
    ensures var after := Perform(su, chain, s, step, block, work).0;
            && Writes(su, chain, after)
            && (step != CommitSalt && step != Generate ==>
                  after == chain || exists uids, weights :: after == chain.Submit(uids, weights))
  {
    match step
    case CommitSalt =>
    case Generate =>
    case Execute =>
    case Score =>
    case SubmitWeights =>
      assert Effect(su, chain, s, step, block, work).Some? ==>
          Effect(su, chain, s, step, block, work).value.0 == chain.Submit(work.uids, work.weights);
  }

  /** What a step that returned has published is in the archive at the head. */
  lemma ReturnedShows(su: Setup, chain: Chain.ChainState, s: RoundState, step: Step, block: int, work: Work)
    requires su.cycle.Valid() && |work.salt| >= Seeds.MINIMUM_SALT_BYTES
    requires Perform(su, chain, s, step, block, work).1.Produced?
    ensures var (after, ran) := Perform(su, chain, s, step, block, work);
            && (step == CommitSalt ==>
                  Shows(su, after, chain.block, SaltOf(ran.state)) && SaltHeld(su, ran.state))
            && (step == Generate ==> Shows(su, after, chain.block, PackRecorded(su, ran.state)))
  {
    Text.HexRoundTrip(work.salt);
  }

  // ---------------------------------------------------------------- one advance at the head

  /** A write by a round whose next step this is leaves that round's own commitments seen. */
  lemma OwnStaySeen(su: Setup, chain: Chain.ChainState, after: Chain.ChainState, index: int, s: RoundState,
                    decided: seq<int>, step: Step)
    requires su.cycle.Valid() && InWindows(su.cycle, index, decided) && Seen(su, chain, s, decided)
    requires IsNext(su, index, |decided|, chain.block, step)
    requires Writes(su, chain, after)
    requires step != CommitSalt && step != Generate ==>
               after == chain || exists uids, weights :: after == chain.Submit(uids, weights)
    ensures Seen(su, after, s, decided)
  {
    var k := |decided|;
    if k >= 1 {
      WindowsInOrder(su.cycle, 0, k, su.cycle.OffsetIn(index, decided[0]), su.cycle.OffsetIn(index, chain.block));
      ShowsKept(su, chain, after, decided[0], SaltOf(s));
    }
    if k >= 2 {
      WindowsInOrder(su.cycle, 1, k, su.cycle.OffsetIn(index, decided[1]), su.cycle.OffsetIn(index, chain.block));
      ShowsKept(su, chain, after, decided[1], PackRecorded(su, s));
    }
  }

  lemma OthersDecidedElsewhere(c: CycleConfig, index: int, block: int, other: int, decided: seq<int>)
    requires c.Valid() && other != index && index in c.LiveRounds(block) && c.OffsetIn(index, block) < c.revealAt
    requires InWindows(c, other, decided) && forall k :: 0 <= k < |decided| ==> other in c.LiveRounds(decided[k])
    ensures forall k :: 0 <= k < |decided| && k < 2 ==> decided[k] != block
  {
    LiveBeforeReveal(c, index, block);
    forall k | 0 <= k < |decided| && k < 2 ensures decided[k] != block {
      assert Windows(c)[k].Contains(c.OffsetIn(other, decided[k]));
      if decided[k] == block {
        LiveBeforeReveal(c, other, block);
      }
    }
  }

  /** No other round committed a salt or a pack at this height, so this write hides none. */
  lemma OthersStaySeen(su: Setup, chain: Chain.ChainState, after: Chain.ChainState, index: int, count: nat, step: Step,
                       other: int, s: RoundState, decided: seq<int>)
    requires su.cycle.Valid() && other != index && index in su.cycle.LiveRounds(chain.block)
    requires InWindows(su.cycle, other, decided) && Seen(su, chain, s, decided)
    requires forall k :: 0 <= k < |decided| ==> other in su.cycle.LiveRounds(decided[k])
    requires IsNext(su, index, count, chain.block, step)
    requires Writes(su, chain, after)
    requires step != CommitSalt && step != Generate ==>
               after == chain || exists uids, weights :: after == chain.Submit(uids, weights)
    ensures Seen(su, after, s, decided)
  {
    if step == CommitSalt || step == Generate {
      OthersDecidedElsewhere(su.cycle, index, chain.block, other, decided);
    }
    if |decided| >= 1 {
      ShowsKept(su, chain, after, decided[0], SaltOf(s));
    }
    if |decided| >= 2 {
      ShowsKept(su, chain, after, decided[1], PackRecorded(su, s));
    }
  }

  /** One more recorded step, its commitment landed at the head. */
  lemma FinishedIsSeen(su: Setup, after: Chain.ChainState, index: int, s: RoundState, decided: seq<int>, block: int,
                       step: Step, p: RoundState)
    requires su.cycle.Valid() && |decided| < 5 && step == ORDER[|decided|]
    requires Carries(s, p, step) && Seen(su, after, s, decided)
    requires step == CommitSalt ==> Shows(su, after, block, SaltOf(p)) && SaltHeld(su, p)
    requires step == Generate ==> Shows(su, after, block, PackRecorded(su, p))
    ensures Seen(su, after, p, decided + [block])
  {
  }

  lemma AdvanceKeepsOwnSeen(su: Setup, w: World, index: int, work: Work)
    requires su.cycle.Valid() && RoundOk(su, w, index) && RoundSeen(su, w, index)
    requires |work.salt| >= Seeds.MINIMUM_SALT_BYTES
    ensures RoundSeen(su, Advance(su, w, index, w.chain.block, work).0, index)
  {
    var block := w.chain.block;
    var s, offset := Load(su, w, su.Name(index), block), su.cycle.OffsetIn(index, block);
    LoadedOk(su, w, index, block);
    ChosenIsSeen(su, w.chain, index, s, Of(w.decided, s.date), work);
    var (after, move) := Choose(su, w.chain, s, offset, block, work);
    AppliedIsSeen(su, w.(chain := after), s, move, offset, block);
  }

  lemma ChosenIsSeen(su: Setup, chain: Chain.ChainState, index: int, s: RoundState, decided: seq<int>, work: Work)
    requires su.cycle.Valid() && Recorded(su, index, s, decided) && Seen(su, chain, s, decided)
    requires |work.salt| >= Seeds.MINIMUM_SALT_BYTES
    ensures var block := chain.block;
            var (after, move) := Choose(su, chain, s, su.cycle.OffsetIn(index, block), block, work);
            && Seen(su, after, s, decided)
            && (move.Finished? ==> move.state.date == s.date && Seen(su, after, move.state, decided + [block]))
  {
    var block := chain.block;
    ChosenFits(su, chain, index, s, decided, block, work);
    var (after, move) := Choose(su, chain, s, su.cycle.OffsetIn(index, block), block, work);
    if move.Failed? || move.Lost? || move.Finished? {
      PerformWrites(su, chain, s, move.step, block, work);
      OwnStaySeen(su, chain, after, index, s, decided, move.step);
    }
    if move.Finished? {
      ReturnedShows(su, chain, s, move.step, block, work);
      FinishedIsSeen(su, after, index, s, decided, block, move.step, move.state);
    }
  }

  lemma AppliedIsSeen(su: Setup, w: World, s: RoundState, move: Move, offset: int, block: int)
    requires s.date in w.rounds ==> s == w.rounds[s.date]
    requires Seen(su, w.chain, s, Of(w.decided, s.date))
    requires move.Finished? ==>
               move.state.date == s.date && Seen(su, w.chain, move.state, Of(w.decided, s.date) + [block])
    ensures var v := Apply(su, w, s, move, offset, block);
            v.chain == w.chain && (s.date in v.rounds ==> Seen(su, v.chain, v.rounds[s.date], Of(v.decided, s.date)))
  {
    var v := Apply(su, w, s, move, offset, block);
    if move.Finished? {
      SeenAlike(su, w.chain, move.state, v.rounds[s.date], Of(w.decided, s.date) + [block]);
    } else if s.date in v.rounds {
      SeenAlike(su, w.chain, s, v.rounds[s.date], Of(w.decided, s.date));
    }
  }

  /** What the archive shows of a round turns on its name, its salt and its pack alone. */
  lemma SeenAlike(su: Setup, chain: Chain.ChainState, s: RoundState, p: RoundState, decided: seq<int>)
    requires s.date == p.date && s.saltHex == p.saltHex && s.saltCommitment == p.saltCommitment
    requires s.packHash == p.packHash && s.challenges == p.challenges
    ensures Seen(su, chain, s, decided) <==> Seen(su, chain, p, decided)
  {
  }

  lemma AdvanceKeepsOtherSeen(su: Setup, w: World, index: int, work: Work, other: int)
    requires su.Valid() && other != index && index in su.cycle.LiveRounds(w.chain.block)
    requires RoundOk(su, w, index) && RoundOk(su, w, other) && WasLive(su, w, other) && RoundSeen(su, w, other)
    ensures RoundSeen(su, Advance(su, w, index, w.chain.block, work).0, other)
  {
    var block := w.chain.block;
    var s, offset := Load(su, w, su.Name(index), block), su.cycle.OffsetIn(index, block);
    var date := su.Name(other);
    LoadedOk(su, w, index, block);
    ChosenFits(su, w.chain, index, s, Of(w.decided, s.date), block, work);
    NamesDistinct(su, index, other);
    AdvanceLeavesOthers(su, w, index, block, work, date);
    var (after, move) := Choose(su, w.chain, s, offset, block, work);
    AppliedChain(su, w.(chain := after), s, move, offset, block);
    if date in w.rounds && (move.Failed? || move.Lost? || move.Finished?) {
      PerformWrites(su, w.chain, s, move.step, block, work);
      OthersStaySeen(su, w.chain, after, index, |Of(w.decided, s.date)|, move.step, other, w.rounds[date],
                     Of(w.decided, date));
    }
  }

  lemma AppliedChain(su: Setup, w: World, s: RoundState, move: Move, offset: int, block: int)
    ensures Apply(su, w, s, move, offset, block).chain == w.chain
  {
  }

  lemma AdvanceKeepsChain(su: Setup, w: World, index: int, work: Work)
    requires su.cycle.Valid() && RoundOk(su, w, index) && w.chain.Valid()
    ensures var v := Advance(su, w, index, w.chain.block, work).0;
            v.chain.Valid() && v.chain.block == w.chain.block
  {
    var block := w.chain.block;
    var s, offset := Load(su, w, su.Name(index), block), su.cycle.OffsetIn(index, block);
    LoadedOk(su, w, index, block);
    ChosenFits(su, w.chain, index, s, Of(w.decided, s.date), block, work);
    var (after, move) := Choose(su, w.chain, s, offset, block, work);
    AppliedChain(su, w.(chain := after), s, move, offset, block);
    if move.Failed? || move.Lost? || move.Finished? {
      PerformWrites(su, w.chain, s, move.step, block, work);
      WritesKeepValid(su, w.chain, after);
    }
  }

  lemma AdvanceKeepsSeen(su: Setup, w: World, index: int, work: Work)
    requires su.Valid() && AllOk(su, w) && AllLive(su, w) && AllSeen(su, w)
    requires index in su.cycle.LiveRounds(w.chain.block) && |work.salt| >= Seeds.MINIMUM_SALT_BYTES
    ensures var v := Advance(su, w, index, w.chain.block, work).0;
            AllSeen(su, v) && v.chain.block == w.chain.block
  {
    assert RoundOk(su, w, index);
    AdvanceKeepsChain(su, w, index, work);
    forall other: int ensures RoundSeen(su, Advance(su, w, index, w.chain.block, work).0, other) {
      assert RoundOk(su, w, other) && WasLive(su, w, other) && RoundSeen(su, w, other) && RoundSeen(su, w, index);
      if other == index {
        AdvanceKeepsOwnSeen(su, w, index, work);
      } else {
        AdvanceKeepsOtherSeen(su, w, index, work, other);
      }
    }
  }

  // ---------------------------------------------------------------- every run of the loop

  /** Every tick is at the chain's head and draws a salt of full length. */
  ghost predicate AtHead(su: Setup, w: World, events: seq<Event>)
    requires su.cycle.Valid()
  {
    if events == [] then true
    else
      var before, e := events[..|events| - 1], events[|events| - 1];
      && AtHead(su, w, before)
      && (e.Ticked? ==> e.block == After(su, w, before).chain.block
                        && |e.first.salt| >= Seeds.MINIMUM_SALT_BYTES && |e.second.salt| >= Seeds.MINIMUM_SALT_BYTES)
  }

  lemma ChangingKeepsSeen(su: Setup, w: World, e: Event)
    requires su.cycle.Valid() && AllSeen(su, w) && !e.Ticked?
    ensures AllSeen(su, Happen(su, w, e))
  {
    var v := Happen(su, w, e);
    forall index: int ensures RoundSeen(su, v, index) {
      assert RoundSeen(su, w, index);
    }
  }

  lemma {:induction false} AlwaysSeen(su: Setup, block: nat, events: seq<Event>)
    requires su.Valid() && AtHead(su, Start(block), events)
    ensures AllSeen(su, After(su, Start(block), events))
  {
    if events != [] {
      var before, e := events[..|events| - 1], events[|events| - 1];
      var w := After(su, Start(block), before);
      AlwaysSeen(su, block, before);
      AlwaysOk(su, block, before);
      AlwaysLive(su, block, before);
      match e
      case Passed(_) => ChangingKeepsSeen(su, w, e);
      case Switched(_, _) => ChangingKeepsSeen(su, w, e);
      case Ticked(at, first, second) =>
        var live := su.cycle.LiveRounds(at);
        LiveRoundsShape(su.cycle, at);
        AdvanceKeepsSeen(su, w, live[0], first);
        AdvanceKeepsAll(su, w, live[0], at, first);
        assert RoundOk(su, w, live[0]);
        AdvanceKeepsLive(su, w, live[0], at, first);
        if |live| == 2 {
          AdvanceKeepsSeen(su, Advance(su, w, live[0], at, first).0, live[1], second);
        }
    }
  }

  /** What was published is read back, its digests in normal form and its last field trimmed. */
  lemma PublishedReadsBack(c: Commitments.Commitment)
    requires Published(c).Some?
    ensures Commitments.Construct(c).Success?
    ensures Commitments.Decode(Published(c).value) == Success(Commitments.Trimmed(Commitments.Construct(c).value))
  {
    Commitments.ConstructValid(c);
    Commitments.RoundTrip(Commitments.Construct(c).value);
  }

  /** What a view at the height lists under the validator's hotkey. */
  function Listed(su: Setup, chain: Chain.ChainState, neurons: seq<string>, height: nat): Option<Chain.Registered> {
    Chain.EntryOf(Chain.ViewOf(chain, neurons, height).commitments, su.hotkey)
  }

  /** A peer's check of a salt and a pack taken from its views at the heights of the two steps. What
      is recorded may carry the digest's algorithm in front; what is published does not. */
  ghost predicate PeerAccepts(su: Setup, chain: Chain.ChainState, neurons: seq<string>, index: int, s: RoundState,
                              saltAt: int, packAt: int)
    requires su.cycle.Valid()
  {
    && 0 <= saltAt && 0 <= packAt
    && var salt, pack := Listed(su, chain, neurons, saltAt), Listed(su, chain, neurons, packAt);
    && salt.Some? && pack.Some? && salt.value.block == saltAt && pack.value.block == packAt
    && var observed := Commitments.Decode(salt.value.raw); var carried := Commitments.Decode(pack.value.raw);
    && Commitments.Hex64(s.saltCommitment).Success?
    && observed == Success(Commitments.Salt(s.date, Commitments.Hex64(s.saltCommitment).value))
    && carried.Success? && carried.value.Pack? && carried.value.roundId == s.date
    && carried.value.saltCommitment == Commitments.Hex64(s.saltCommitment).value
    && carried.value.challengeCount == |s.challenges|
    && Commitments.Hex64(s.packHash) == Success(carried.value.packHash)
    && Commitments.VerifySaltTiming(carried.value, observed.value, salt.value.block, su.RandomnessBlock(index)).None?
  }

  /** What a view at a height at which a commitment was shown gives of it, to those who list the
      hotkey at all. */
  lemma ShownReadsBack(su: Setup, chain: Chain.ChainState, neurons: seq<string>, height: int, c: Commitments.Commitment)
    requires Shows(su, chain, height, c)
    ensures Commitments.Construct(c).Success?
    ensures var entry, told := Listed(su, chain, neurons, height), Commitments.Construct(c);
            && (entry.Some? <==> su.hotkey in neurons)
            && (entry.Some? ==>
                  && entry.value.block == height
                  && Commitments.Decode(entry.value.raw) == Success(Commitments.Trimmed(told.value)))
  {
    PublishedReadsBack(c);
    Chain.EntryIsTheSlot(neurons, chain.SlotsAt(height), su.hotkey);
  }

  /** A constructed salt is read back as it is; of a constructed pack only the version is trimmed. */
  lemma ConstructedParts(date: string, salt: string, hash: string, count: nat, version: string)
    requires Commitments.Construct(Commitments.Salt(date, salt)).Success?
    requires Commitments.Construct(Commitments.Pack(date, hash, salt, count, version)).Success?
    ensures Commitments.Hex64(salt).Success? && Commitments.Hex64(hash).Success?
    ensures Commitments.Trimmed(Commitments.Construct(Commitments.Salt(date, salt)).value) ==
            Commitments.Salt(date, Commitments.Hex64(salt).value)
    ensures Commitments.Trimmed(Commitments.Construct(Commitments.Pack(date, hash, salt, count, version)).value) ==
            Commitments.Pack(date, Commitments.Hex64(hash).value, Commitments.Hex64(salt).value, count,
                             Text.StripRight(version))
  {
    Commitments.Hex64Normal(salt);
    Commitments.DigestHasNoSeparator(Commitments.Hex64(salt).value);
    Text.StripRightPart(Commitments.Hex64(salt).value);
  }

  lemma ShownPair(su: Setup, chain: Chain.ChainState, neurons: seq<string>, index: int, s: RoundState, saltAt: int,
                  packAt: int)
    requires su.cycle.Valid() && saltAt < su.RandomnessBlock(index)
    requires Shows(su, chain, saltAt, SaltOf(s)) && Shows(su, chain, packAt, PackRecorded(su, s))
    ensures PeerAccepts(su, chain, neurons, index, s, saltAt, packAt) <==> su.hotkey in neurons
  {
    ShownReadsBack(su, chain, neurons, saltAt, SaltOf(s));
    ShownReadsBack(su, chain, neurons, packAt, PackRecorded(su, s));
    ConstructedParts(s.date, s.saltCommitment, s.packHash, |s.challenges|, su.version);
  }

  /** Every round that has recorded its salt and its pack can be checked at any later time by the
      peers whose views list the hotkey, although the one slot has been overwritten: the archive
      gives back the salt published before the randomness, and the pack carries that same salt. */
  lemma PeersCanVerify(su: Setup, block: nat, events: seq<Event>, neurons: seq<string>, index: int)
    requires su.Valid() && AtHead(su, Start(block), events)
    requires su.Name(index) in After(su, Start(block), events).rounds
    requires |Of(After(su, Start(block), events).decided, su.Name(index))| >= 2
    ensures var w := After(su, Start(block), events);
            var decided := Of(w.decided, su.Name(index));
            && (PeerAccepts(su, w.chain, neurons, index, w.rounds[su.Name(index)], decided[0], decided[1])
                <==> su.hotkey in neurons)
            && decided[0] < su.RandomnessBlock(index) < decided[1] <= w.chain.block
  {
    var w := After(su, Start(block), events);
    var decided := Of(w.decided, su.Name(index));
    AlwaysOk(su, block, events);
    AlwaysSeen(su, block, events);
    assert RoundOk(su, w, index) && RoundSeen(su, w, index);
    assert Windows(su.cycle)[0].Contains(su.cycle.OffsetIn(index, decided[0]));
    RandomnessIsPast(su, index, decided[1]);
    ShownPair(su, w.chain, neurons, index, w.rounds[su.Name(index)], decided[0], decided[1]);
  }

  /** The setting itself refuses a seed: a field is missing or too long to be prefixed. */
  ghost predicate SettingRefuses(su: Setup, s: RoundState, index: int)
    requires Text.FromHex(s.saltHex).Some?
  {
    var date, hotkey := Text.Utf8(s.date), Text.Utf8(su.hotkey);
    var salt, hash := Text.FromHex(s.saltHex).value, su.hashOf(su.RandomnessBlock(index));
    date == [] || hotkey == [] || hash == [] || !Seeds.Fits([date, hotkey, salt, hash])
  }

  lemma SeedFromRecord(su: Setup, chain: Chain.ChainState, s: RoundState, block: int, index: int)
    requires su.cycle.Valid() && SaltHeld(su, s) && Published(SaltOf(s)).Some?
    requires RoundOf(su, s.date, block) == index && su.RandomnessBlock(index) < chain.block
    ensures SeedInput(su, chain, s, block).None? <==> chain.failReads || SettingRefuses(su, s, index)
  {
    PublishedReadsBack(SaltOf(s));
  }

  /** When generation is due, nothing the loop did before stands in its way: the salt is there, it
      opens its commitment, the round is found, and the chain, if it can be reached, gives out the
      block hash. Only the setting itself can refuse a seed. */
  lemma SeedIsAvailable(su: Setup, block: nat, events: seq<Event>, k: nat)
    requires su.Valid() && AtHead(su, Start(block), events)
    requires k < |su.cycle.LiveRounds(After(su, Start(block), events).chain.block)|
    requires var w := After(su, Start(block), events); var index := su.cycle.LiveRounds(w.chain.block)[k];
             su.Name(index) in w.rounds && IsNext(su, index, |Of(w.decided, su.Name(index))|, w.chain.block, Generate)
    ensures var w := After(su, Start(block), events); var index := su.cycle.LiveRounds(w.chain.block)[k];
            var s := w.rounds[su.Name(index)];
            && Text.FromHex(s.saltHex).Some?
            && (SeedInput(su, w.chain, s, w.chain.block).None? <==> w.chain.failReads || SettingRefuses(su, s, index))
  {
    var w := After(su, Start(block), events);
    var index := su.cycle.LiveRounds(w.chain.block)[k];
    AlwaysOk(su, block, events);
    AlwaysSeen(su, block, events);
    assert RoundOk(su, w, index) && RoundSeen(su, w, index);
    LabelFindsTheRound(su, w.chain.block, k);
    NextIsSecond(su, index, w);
    RandomnessIsPast(su, index, w.chain.block);
    SeedFromRecord(su, w.chain, w.rounds[su.Name(index)], w.chain.block, index);
  }

  lemma NextIsSecond(su: Setup, index: int, w: World)
    requires su.cycle.Valid() && IsNext(su, index, |Of(w.decided, su.Name(index))|, w.chain.block, Generate)
    ensures |Of(w.decided, su.Name(index))| == 1
    ensures Windows(su.cycle)[1].Contains(su.cycle.OffsetIn(index, w.chain.block))
  {
  }
}
