/** The driver object: the round loop over a chain and a round store that it updates in place
    (validator/driver.py). */
module DriverLoop {
  import opened Wrappers
  import opened Cycle
  import opened Scheduler
  import opened Rounds
  import opened Driver
  import opened DriverRuns
  import opened DriverPeers
  import Chain
  import Commitments
  import Seeds
  import Text

  /** Nothing of a run is held here: a process started again over the same chain and store is
      another such object. The two ghost fields are the record of the run. */
  class RoundDriver {
    const su: Setup
    const chain: Chain.FakeChain
    const store: InMemoryRoundStore
    ghost var decided: map<string, seq<int>>
    ghost var attempts: map<string, seq<Try>>

    ghost function Now(): World
      reads this, chain, store
    {
      World(chain.Now(), store.States(), decided, attempts)
    }

    ghost predicate Valid()
      reads this, chain, store
    {
      su.Valid() && store.Valid() && chain.ownHotkey == su.hotkey && AllOk(su, Now())
    }

    constructor (su: Setup, chain: Chain.FakeChain, store: InMemoryRoundStore,
                 ghost decided: map<string, seq<int>>, ghost attempts: map<string, seq<Try>>)
      requires su.Valid() && store.Valid() && chain.ownHotkey == su.hotkey
      requires AllOk(su, World(chain.Now(), store.States(), decided, attempts))
      ensures Valid() && this.su == su && this.chain == chain && this.store == store
      ensures Now() == World(chain.Now(), store.States(), decided, attempts)
    {
      this.su, this.chain, this.store := su, chain, store;
      this.decided, this.attempts := decided, attempts;
    }

    method LoadState(date: string, block: int) returns (s: RoundState)
      requires store.Valid()
      ensures s == Load(su, Now(), date, block)
    {
      var existing := store.Read(date);
      if existing.Some? {
        return existing.value;
      }
      return RoundState(date, su.hotkey, "BEFORE_SUBMISSION_CLOSE", block, "", 0, map[], 0, [], [], [], map[], false,
                        [], "", "", "", block);
    }

    method StepsOf(s: RoundState) returns (done: Option<set<Step>>)
      ensures done == DoneSteps(s.stepsDone)
    {
      var parsed: set<Step> := {};
      for k := 0 to |s.stepsDone|
        invariant DoneSteps(s.stepsDone[..k]) == Some(parsed)
      {
        var step := StepNamed(s.stepsDone[k]);
        assert s.stepsDone[..k + 1][..k] == s.stepsDone[..k];
        if step.None? {
          UnknownStaysUnknown(s.stepsDone, k + 1);
          return None;
        }
        parsed := parsed + {step.value};
      }
      assert s.stepsDone[..|s.stepsDone|] == s.stepsDone;
      return Some(parsed);
    }

    method SaveState(s: RoundState)
      requires store.Valid() && PhaseNamed(s.phase).Some?
      modifies store
      ensures store.Valid() && Now() == Save(old(Now()), s)
    {
      var ok := store.Write(s);
    }

    // -------------------------------------------------------------- the steps

    method CommitSaltAt(s: RoundState, work: Work) returns (produced: Option<RoundState>)
      requires chain.ownHotkey == su.hotkey
      modifies chain
      ensures match CommitSaltStep(su, old(chain.Now()), s, work)
              case None => produced == None && chain.Now() == old(chain.Now())
              case Some(done) => produced == Some(done.1) && chain.Now() == done.0
    {
      var commitment := su.commit(work.salt);
      var text := Published(Commitments.Salt(s.date, commitment));
      if text.None? {
        return None;
      }
      var landed := chain.PublishCommitment(text.value);
      if landed.Failure? {
        return None;
      }
      return Some(s.(saltHex := Text.ToHex(work.salt), saltCommitment := commitment, block := landed.value));
    }

    method FindByLabel(date: string, block: int) returns (index: int)
      requires su.cycle.Valid()
      ensures index == RoundOf(su, date, block)
    {
      var live := su.cycle.LiveRounds(block);
      index := if block >= 0 then su.cycle.EpochIndex(block) else 0;
      ghost var otherwise := index;
      for k := 0 to |live|
        invariant FindRound(su, live, date, otherwise) == FindRound(su, live[k..], date, otherwise)
        invariant index == otherwise
      {
        assert live[k..][0] == live[k] && live[k..][1..] == live[k + 1..];
        if su.Name(live[k]) == date {
          return live[k];
        }
      }
    }

    /** Randomness, seed, pack, hash on chain, in that order. */
    method GenerateAt(s: RoundState, block: int, work: Work) returns (produced: Option<RoundState>)
      requires su.cycle.Valid() && chain.ownHotkey == su.hotkey
      modifies chain
      ensures match GenerateStep(su, old(chain.Now()), s, block, work)
              case None => produced == None && chain.Now() == old(chain.Now())
              case Some(done) => produced == Some(done.1) && chain.Now() == done.0
    {
      if s.saltHex == "" || s.saltCommitment == "" {
        return None;
      }
      var index := FindByLabel(s.date, block);
      var hash := chain.BlockHash(su.RandomnessBlock(index), su.hashOf);
      if hash.Failure? {
        return None;
      }
      var salt := Text.FromHex(s.saltHex);
      if salt.None? {
        return None;
      }
      var input := Seeds.DailySeedInput(Text.Utf8(s.date), Text.Utf8(su.hotkey), salt.value, hash.value,
                                        Some(s.saltCommitment), su.commit);
      if input.Failure? {
        return None;
      }
      var text := Published(PackOf(su, s, work));
      if text.None? {
        return None;
      }
      var landed := chain.PublishCommitment(text.value);
      return Some(s.(packHash := work.packHash, challengeCount := |work.challenges|, challenges := work.challenges,
                     challengesPerGenerator := work.challengesPerGenerator, block := block));
    }

    method SubmitAt(s: RoundState, block: int, work: Work) returns (produced: Option<RoundState>)
      modifies chain
      ensures match SubmitStep(old(chain.Now()), s, block, work)
              case None => produced == None && chain.Now() == old(chain.Now())
              case Some(done) => produced == Some(done.1) && chain.Now() == done.0
    {
      if s.standings == [] {
        return None;
      }
      var error := chain.SubmitWeights(work.uids, work.weights);
      if error.Some? {
        return None;
      }
      return Some(s.(burned := work.burned, block := block));
    }

    method PerformAt(s: RoundState, step: Step, block: int, work: Work) returns (ran: Ran)
      requires su.cycle.Valid() && chain.ownHotkey == su.hotkey
      modifies chain
      ensures (chain.Now(), ran) == Perform(su, old(chain.Now()), s, step, block, work)
    {
      if work.fate == RaisesBefore {
        return Raised;
      }
      if work.fate == DiesBefore {
        return Died;
      }
      var produced: Option<RoundState>;
      match step {
        case CommitSalt => produced := CommitSaltAt(s, work);
        case Generate => produced := GenerateAt(s, block, work);
        case Execute =>
          var view := chain.CurrentView();
          produced := if view.Failure? then None else Some(s.(labs := work.labs, block := block));
        case Score => produced := Some(s.(standings := work.standings, floorPpm := work.floorPpm, block := block));
        case SubmitWeights => produced := SubmitAt(s, block, work);
      }
      if produced.None? || work.fate == RaisesAfter {
        return Raised;
      }
      return if work.fate == DiesAfter then Died else Produced(produced.value);
    }

    // -------------------------------------------------------------- one round, one tick

    method Abandoned(s: RoundState, block: int, reason: string)
      requires store.Valid() && PhaseNamed(s.phase).Some?
      modifies store
      ensures store.Valid() && Now() == GiveUp(old(Now()), s, block, reason)
    {
      SaveState(s.(abandoned := reason, block := block, updatedAtBlock := block));
    }

    method RecordDone(p: RoundState, step: Step, offset: int, block: int)
      requires store.Valid()
      modifies this, store
      ensures store.Valid() && Now() == Record(su, old(Now()), p, step, offset, block)
    {
      PhaseOfName(PhaseName(su.cycle.PhaseOf(offset)), su.cycle.PhaseOf(offset));
      SaveState(p.(stepsDone := p.stepsDone + [StepName(step)], block := block, updatedAtBlock := block,
                   phase := PhaseName(su.cycle.PhaseOf(offset))));
      decided := decided[p.date := Of(decided, p.date) + [block]];
    }

    ghost method NoteAttempt(date: string, step: Step, died: bool)
      modifies this`attempts
      ensures Now() == Attempts(old(Now()), date, step, died)
    {
      attempts := attempts[date := Of(attempts, date) + [Try(step, died)]];
    }

    /** A step that returned is saved as done; one that raised ends the round; a death saves nothing. */
    method Settle(s: RoundState, step: Step, offset: int, block: int, ran: Ran)
      requires store.Valid() && PhaseNamed(s.phase).Some?
      modifies this, store
      ensures store.Valid()
      ensures Now() == Apply(su, old(Now()), s, Attempted(step, ran), offset, block)
    {
      ghost var tried := Attempts(Now(), s.date, step, ran.Died?);
      AppliedAttempt(su, Now(), s, step, ran, offset, block, tried);
      NoteAttempt(s.date, step, ran.Died?);
      if ran.Raised? {
        Abandoned(s, block, FailureReason(step));
      } else if ran.Produced? {
        RecordDone(ran.state, step, offset, block);
      }
    }

    /** What is decided for a state just loaded, and done. */
    method Act(s: RoundState, offset: int, block: int, work: Work) returns (move: Move)
      requires su.Valid() && store.Valid() && chain.ownHotkey == su.hotkey
      requires PhaseNamed(s.phase).Some?
      modifies this, chain, store
      ensures store.Valid()
      ensures var (after, chosen) := Choose(su, old(chain.Now()), s, offset, block, work);
              move == chosen && Now() == Apply(su, old(Now()).(chain := after), s, move, offset, block)
    {
      if s.abandoned != "" {
        return Stays;
      }
      var done := StepsOf(s);
      if done.None? {
        return Halts;
      }
      var decision := Scheduler.Decide(su.cycle, offset, done.value);
      if decision.Abandon? {
        Abandoned(s, block, LateReason(decision.lateStep));
        return Late(decision.lateStep);
      }
      if decision.Run? {
        ghost var w := Now();
        var ran := PerformAt(s, decision.step, block, work);
        assert Now() == w.(chain := Perform(su, w.chain, s, decision.step, block, work).0);
        Settle(s, decision.step, offset, block, ran);
        return Attempted(decision.step, ran);
      }
      return Stays;
    }

    method AdvanceAt(index: int, block: int, work: Work) returns (move: Move)
      requires Valid()
      modifies this, chain, store
      ensures Valid()
      ensures var offset := su.cycle.OffsetIn(index, block);
              move == Choose(su, old(chain.Now()), Load(su, old(Now()), su.Name(index), block), offset, block, work).1
      ensures Now() == Advance(su, old(Now()), index, block, work).0
    {
      ghost var w := Now();
      assert RoundOk(su, w, index);
      LoadedOk(su, w, index, block);
      AdvanceKeepsAll(su, w, index, block, work);
      var s := LoadState(su.Name(index), block);
      KnownPhase(su, index, s, Of(decided, s.date));
      move := Act(s, su.cycle.OffsetIn(index, block), block, work);
    }

    /** Each live round in turn, by at most one step; what became of each, until the process dies. */
    method TickAt(block: int, first: Work, second: Work) returns (moves: seq<Move>)
      requires Valid()
      modifies this, chain, store
      ensures Valid()
      ensures Now() == Tick(su, old(Now()), block, first, second)
      ensures 1 <= |moves| <= |su.cycle.LiveRounds(block)|
      ensures |moves| < |su.cycle.LiveRounds(block)| ==> moves[|moves| - 1].Halts? || moves[|moves| - 1].Lost?
    {
      var live := su.cycle.LiveRounds(block);
      LiveRoundsShape(su.cycle, block);
      var move := AdvanceAt(live[0], block, first);
      moves := [move];
      if move.Halts? || move.Lost? || |live| == 1 {
        return;
      }
      move := AdvanceAt(live[1], block, second);
      moves := moves + [move];
    }

    /** Between two ticks the chain moves on, and may become unreachable or reachable again. */
    method Sleep(next: Planned)
      requires Valid()
      modifies chain
      ensures Valid() && Now() == Slept(su, old(Now()), next)
    {
      KeepsAll(su, Now(), next);
      chain.AdvanceBy(next.sleep);
      chain.Switch(next.failReads, next.failSubmit);
    }

    /** Tick at the head, let the chain move on, and again, for as many ticks as are planned or
        until the process dies or the height cannot be read: a run in which every tick is at the
        chain's head. */
    method RunTicks(plan: seq<Planned>) returns (history: seq<Move>, ghost events: seq<Event>)
      requires Valid() && AllFull(plan)
      modifies this, chain, store
      ensures Valid()
      ensures Now() == After(su, old(Now()), events) && AtHead(su, old(Now()), events)
      ensures |history| >= |plan| || chain.failReads || (exists move :: move in history && (move.Halts? || move.Lost?))
    {
      history, events := [], [];
      var ticks := 0;
      while ticks < |plan|
        invariant 0 <= ticks <= |plan| && Valid()
        invariant Now() == After(su, old(Now()), events) && AtHead(su, old(Now()), events)
        invariant |history| >= ticks
      {
        var next := plan[ticks];
        var head := chain.CurrentBlock();
        if head.Failure? {
          return;
        }
        var block := head.value;
        OneMoreTick(su, old(Now()), events, Now(), block, next);
        var moves := TickAt(block, next.first, next.second);
        events := events + [Ticked(block, next.first, next.second)];
        history := history + moves;
        ticks := ticks + 1;
        if |moves| < |su.cycle.LiveRounds(block)| || moves[|moves| - 1].Halts? || moves[|moves| - 1].Lost? {
          assert moves[|moves| - 1] in history;
          return;
        }
        if ticks < |plan| {
          TwoMoreChanges(su, old(Now()), events, Now(), next);
          Sleep(next);
          events := events + [Passed(next.sleep), Switched(next.failReads, next.failSubmit)];
        }
      }
    }
  }

  /** One tick's work for the rounds that are live then, the blocks that pass before the next, and
      whether the chain can be reached then. */
  datatype Planned = Planned(first: Work, second: Work, sleep: nat, failReads: bool, failSubmit: bool)

  predicate AllFull(plan: seq<Planned>) {
    forall i :: 0 <= i < |plan| ==>
      |plan[i].first.salt| >= Seeds.MINIMUM_SALT_BYTES && |plan[i].second.salt| >= Seeds.MINIMUM_SALT_BYTES
  }

  lemma OneMoreTick(su: Setup, start: World, events: seq<Event>, w: World, block: int, next: Planned)
    requires su.cycle.Valid() && AtHead(su, start, events) && w == After(su, start, events) && block == w.chain.block
    requires |next.first.salt| >= Seeds.MINIMUM_SALT_BYTES && |next.second.salt| >= Seeds.MINIMUM_SALT_BYTES
    ensures var more := events + [Ticked(block, next.first, next.second)];
            AtHead(su, start, more) && After(su, start, more) == Tick(su, w, block, next.first, next.second)
  {
    var more := events + [Ticked(block, next.first, next.second)];
    assert more[..|more| - 1] == events;
  }

  function Slept(su: Setup, w: World, next: Planned): World
    requires su.cycle.Valid()
  {
    Happen(su, Happen(su, w, Passed(next.sleep)), Switched(next.failReads, next.failSubmit))
  }

  lemma KeepsAll(su: Setup, w: World, next: Planned)
    requires su.Valid() && AllOk(su, w)
    ensures AllOk(su, Slept(su, w, next))
  {
    HappenKeepsAll(su, w, Passed(next.sleep));
    HappenKeepsAll(su, Happen(su, w, Passed(next.sleep)), Switched(next.failReads, next.failSubmit));
  }

  lemma OneMoreChange(su: Setup, start: World, events: seq<Event>, w: World, e: Event)
    requires su.cycle.Valid() && AtHead(su, start, events) && w == After(su, start, events) && !e.Ticked?
    ensures AtHead(su, start, events + [e]) && After(su, start, events + [e]) == Happen(su, w, e)
  {
    assert (events + [e])[..|events|] == events;
  }

  /** The chain changes by itself: the run goes on from there. */
  lemma TwoMoreChanges(su: Setup, start: World, events: seq<Event>, w: World, next: Planned)
    requires su.cycle.Valid() && AtHead(su, start, events) && w == After(su, start, events)
    ensures var more := events + [Passed(next.sleep), Switched(next.failReads, next.failSubmit)];
            AtHead(su, start, more) && After(su, start, more) == Slept(su, w, next)
  {
    var passed := Passed(next.sleep);
    var switched := Switched(next.failReads, next.failSubmit);
    OneMoreChange(su, start, events, w, passed);
    OneMoreChange(su, start, events + [passed], Happen(su, w, passed), switched);
    assert events + [passed] + [switched] == events + [passed, switched];
  }

  lemma AppliedAttempt(su: Setup, w: World, s: RoundState, step: Step, ran: Ran, offset: int, block: int, tried: World)
    requires tried == Attempts(w, s.date, step, ran.Died?)
    ensures Apply(su, w, s, Attempted(step, ran), offset, block) ==
            match ran
            case Died => tried
            case Raised => GiveUp(tried, s, block, FailureReason(step))
            case Produced(p) => Record(su, tried, p, step, offset, block)
  {
  }

  /** Every phase the driver records is one it knows. */
  lemma KnownPhase(su: Setup, index: int, s: RoundState, decided: seq<int>)
    requires su.cycle.Valid() && Recorded(su, index, s, decided)
    ensures PhaseNamed(s.phase).Some?
  {
    DisclosedWhenScored(su, index, s, decided);
  }

  lemma {:induction false} UnknownStaysUnknown(names: seq<string>, k: nat)
    requires k <= |names| && DoneSteps(names[..k]).None?
    ensures DoneSteps(names).None?
    decreases |names| - k
  {
    if k < |names| {
      assert names[..k + 1][..k] == names[..k];
      UnknownStaysUnknown(names, k + 1);
    } else {
      assert names[..k] == names;
    }
  }
}
