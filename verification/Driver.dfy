/** One tick of the round loop: what the driver does to the round store and the chain
    (validator/driver.py), with the steps it runs (validator/__main__.py). */
module Driver {
  import opened Wrappers
  import opened Cycle
  import opened Scheduler
  import opened Rounds
  import Chain
  import Commitments
  import Seeds
  import Text

  // ---------------------------------------------------------------- steps by name

  const NAMES: seq<string> := ["COMMIT_SALT", "GENERATE", "EXECUTE", "SCORE", "SUBMIT_WEIGHTS"]

  function StepName(step: Step): string {
    match step
    case CommitSalt => "COMMIT_SALT"
    case Generate => "GENERATE"
    case Execute => "EXECUTE"
    case Score => "SCORE"
    case SubmitWeights => "SUBMIT_WEIGHTS"
  }

  function StepNamed(name: string): Option<Step> {
    if name == "COMMIT_SALT" then Some(CommitSalt)
    else if name == "GENERATE" then Some(Generate)
    else if name == "EXECUTE" then Some(Execute)
    else if name == "SCORE" then Some(Score)
    else if name == "SUBMIT_WEIGHTS" then Some(SubmitWeights)
    else None
  }

  lemma StepOfName(name: string, step: Step)
    ensures StepNamed(name) == Some(step) <==> name == StepName(step)
  {
    assert |StepName(step)| in {11, 8, 7, 5, 14};
  }

  /** The recorded steps; none when a name is not known, which ends the loop. */
  function DoneSteps(names: seq<string>): Option<set<Step>> {
    if names == [] then Some({})
    else
      var before, last := DoneSteps(names[..|names| - 1]), StepNamed(names[|names| - 1]);
      if before.None? || last.None? then None else Some(before.value + {last.value})
  }

  lemma {:induction false} DonePrefix(count: nat)
    requires count <= 5
    ensures DoneSteps(NAMES[..count]) == Some(Prefix(count))
  {
    if count > 0 {
      DonePrefix(count - 1);
      var names := NAMES[..count];
      assert names[..|names| - 1] == NAMES[..count - 1];
      assert names[|names| - 1] == StepName(ORDER[count - 1]);
      StepOfName(names[|names| - 1], ORDER[count - 1]);
      assert Prefix(count) == Prefix(count - 1) + {ORDER[count - 1]};
    } else {
      assert Prefix(0) == {};
    }
  }

  // ---------------------------------------------------------------- the setting

  /** What does not change over a deployment. `commit` is the salt's digest, `render` writes a
      round's label as text, `hashOf` is the chain's block hash. */
  datatype Setup = Setup(
    cycle: CycleConfig,
    hotkey: string,
    version: string,
    render: Label -> string,
    commit: seq<Byte> -> string,
    hashOf: int -> seq<Byte>)
  {
    /** A constructed cycle whose epochs last at least an hour, which construction does not check
        and without which two rounds share a key; labels rendered apart. */
    ghost predicate Valid() {
      && cycle.Valid() && cycle.blocksPerDay >= 300
      && forall a, b :: render(a) == render(b) ==> a == b
    }

    function Name(index: int): string
      requires cycle.Valid()
    {
      render(cycle.RoundLabel(index))
    }

    function RandomnessBlock(index: int): int {
      cycle.EpochStartOf(index) + cycle.randomnessAt - cycle.revealAt
    }
  }

  lemma NamesDistinct(su: Setup, i: int, j: int)
    requires su.Valid()
    ensures su.Name(i) == su.Name(j) <==> i == j
  {
    LabelsDistinct(su.cycle);
  }

  /** How one attempt at a step goes: it returns, raises, or the process dies, in the last two
      cases before or after what the step writes outside the round store. */
  datatype Fate = Returns | RaisesBefore | RaisesAfter | DiesBefore | DiesAfter

  /** What a step brings in from outside: the salt drawn, the pack built, the laboratories' results,
      the scores, the weight vector. */
  datatype Work = Work(
    fate: Fate,
    salt: seq<Byte>,
    packHash: string,
    challenges: seq<Challenge>,
    challengesPerGenerator: map<string, int>,
    labs: seq<LabStatus>,
    standings: seq<Standing>,
    floorPpm: int,
    burned: bool,
    uids: seq<int>,
    weights: seq<int>)

  // ---------------------------------------------------------------- the steps

  /** The text of a commitment as it is published; none when it cannot be constructed or is too
      long for the chain. */
  function Published(c: Commitments.Commitment): Option<string> {
    match Commitments.Construct(c)
    case Failure(_) => None
    case Success(valid) =>
      match Commitments.Encode(valid)
      case Failure(_) => None
      case Success(text) => Some(text)
  }

  /** The round being generated, found again among the live rounds by its label. */
  function FindRound(su: Setup, live: seq<int>, date: string, otherwise: int): int
    requires su.cycle.Valid()
  {
    if live == [] then otherwise
    else if su.Name(live[0]) == date then live[0]
    else FindRound(su, live[1..], date, otherwise)
  }

  function RoundOf(su: Setup, date: string, block: int): int
    requires su.cycle.Valid()
  {
    FindRound(su, su.cycle.LiveRounds(block), date, if block >= 0 then su.cycle.EpochIndex(block) else 0)
  }

  function CommitSaltStep(su: Setup, chain: Chain.ChainState, s: RoundState, work: Work)
      : Option<(Chain.ChainState, RoundState)>
  {
    var commitment := su.commit(work.salt);
    match Published(Commitments.Salt(s.date, commitment))
    case None => None
    case Some(text) =>
      if chain.failReads then None
      else Some((chain.Publish(su.hotkey, text),
                 s.(saltHex := Text.ToHex(work.salt), saltCommitment := commitment, block := chain.block)))
  }

  /** The seed is derived from the recorded salt, checked against its commitment, and a block hash
      the chain gives out only once that block is past. */
  function SeedInput(su: Setup, chain: Chain.ChainState, s: RoundState, block: int): Option<seq<Byte>>
    requires su.cycle.Valid()
  {
    var at := su.RandomnessBlock(RoundOf(su, s.date, block));
    if s.saltHex == "" || s.saltCommitment == "" || chain.failReads || at >= chain.block then None
    else
      match Text.FromHex(s.saltHex)
      case None => None
      case Some(salt) =>
        match Seeds.DailySeedInput(Text.Utf8(s.date), Text.Utf8(su.hotkey), salt, su.hashOf(at),
                                   Some(s.saltCommitment), su.commit)
        case Failure(_) => None
        case Success(input) => Some(input)
  }

  function PackOf(su: Setup, s: RoundState, work: Work): Commitments.Commitment {
    Commitments.Pack(s.date, work.packHash, s.saltCommitment, |work.challenges|, su.version)
  }

  function GenerateStep(su: Setup, chain: Chain.ChainState, s: RoundState, block: int, work: Work)
      : Option<(Chain.ChainState, RoundState)>
    requires su.cycle.Valid()
  {
    if SeedInput(su, chain, s, block).None? then None
    else
      match Published(PackOf(su, s, work))
      case None => None
      case Some(text) =>
        Some((chain.Publish(su.hotkey, text),
              s.(packHash := work.packHash, challengeCount := |work.challenges|, challenges := work.challenges,
                 challengesPerGenerator := work.challengesPerGenerator, block := block)))
  }

  function SubmitStep(chain: Chain.ChainState, s: RoundState, block: int, work: Work)
      : Option<(Chain.ChainState, RoundState)>
  {
    if s.standings == [] || chain.failSubmit || work.uids == [] || |work.uids| != |work.weights| then None
    else Some((chain.Submit(work.uids, work.weights), s.(burned := work.burned, block := block)))
  }

  /** What a step does when nothing goes wrong around it; none when it refuses. */
  function Effect(su: Setup, chain: Chain.ChainState, s: RoundState, step: Step, block: int, work: Work)
      : Option<(Chain.ChainState, RoundState)>
    requires su.cycle.Valid()
  {
    match step
    case CommitSalt => CommitSaltStep(su, chain, s, work)
    case Generate => GenerateStep(su, chain, s, block, work)
    case Execute => if chain.failReads then None else Some((chain, s.(labs := work.labs, block := block)))
    case Score => Some((chain, s.(standings := work.standings, floorPpm := work.floorPpm, block := block)))
    case SubmitWeights => SubmitStep(chain, s, block, work)
  }

  /** How an attempt ended. */
  datatype Ran = Produced(state: RoundState) | Raised | Died

  /** What an attempt leaves on the chain, and how it ended. */
  function Ending(chain: Chain.ChainState, fate: Fate, effect: Option<(Chain.ChainState, RoundState)>)
      : (Chain.ChainState, Ran)
  {
    if fate == RaisesBefore then (chain, Raised)
    else if fate == DiesBefore then (chain, Died)
    else
      match effect
      case None => (chain, Raised)
      case Some(done) =>
        (done.0, if fate == RaisesAfter then Raised else if fate == DiesAfter then Died else Produced(done.1))
  }

  function Perform(su: Setup, chain: Chain.ChainState, s: RoundState, step: Step, block: int, work: Work)
      : (Chain.ChainState, Ran)
    requires su.cycle.Valid()
  {
    Ending(chain, work.fate, Effect(su, chain, s, step, block, work))
  }

  // ---------------------------------------------------------------- one round, one tick

  /** One attempt at a step, and whether the process died in it. */
  datatype Try = Try(step: Step, died: bool)

  /** The chain, the round store, and a record of the run: at which height each recorded step was
      decided, and every attempt at a step, recorded or not. */
  datatype World = World(
    chain: Chain.ChainState,
    rounds: map<string, RoundState>,
    decided: map<string, seq<int>>,
    attempts: map<string, seq<Try>>)

  function Of<T>(log: map<string, seq<T>>, date: string): seq<T> {
    if date in log then log[date] else []
  }

  function Load(su: Setup, w: World, date: string, block: int): RoundState {
    if date in w.rounds then w.rounds[date]
    else RoundState(date, su.hotkey, "BEFORE_SUBMISSION_CLOSE", block, "", 0, map[], 0, [], [], [], map[], false, [],
                    "", "", "", block)
  }

  function LateReason(step: Step): string {
    StepName(step) + " did not run: its window closed"
  }

  function FailureReason(step: Step): string {
    StepName(step) + " failed"
  }

  function Save(w: World, s: RoundState): World {
    w.(rounds := w.rounds[s.date := s])
  }

  function GiveUp(w: World, s: RoundState, block: int, reason: string): World {
    Save(w, s.(abandoned := reason, block := block, updatedAtBlock := block))
  }

  function Record(su: Setup, w: World, s: RoundState, step: Step, offset: int, block: int): World {
    Save(w, s.(stepsDone := s.stepsDone + [StepName(step)], block := block, updatedAtBlock := block,
               phase := PhaseName(su.cycle.PhaseOf(offset))))
    .(decided := w.decided[s.date := Of(w.decided, s.date) + [block]])
  }

  /** What one round's part of a tick comes to. */
  datatype Move =
    | Stays
    | Halts
    | Late(step: Step)
    | Failed(step: Step)
    | Lost(step: Step)
    | Finished(step: Step, state: RoundState)

  function Attempted(step: Step, ran: Ran): Move {
    match ran
    case Died => Lost(step)
    case Raised => Failed(step)
    case Produced(p) => Finished(step, p)
  }

  /** An abandoned round is not decided again; a step name that is not known ends the loop. */
  function Choose(su: Setup, chain: Chain.ChainState, s: RoundState, offset: int, block: int, work: Work)
      : (Chain.ChainState, Move)
    requires su.cycle.Valid()
  {
    if s.abandoned != "" then (chain, Stays)
    else
      match DoneSteps(s.stepsDone)
      case None => (chain, Halts)
      case Some(done) =>
        match Decide(su.cycle, offset, done)
        case Wait(_, _) => (chain, Stays)
        case Complete => (chain, Stays)
        case Abandon(step) => (chain, Late(step))
        case Run(step, _) =>
          var (after, ran) := Perform(su, chain, s, step, block, work);
          (after, Attempted(step, ran))
  }

  function Attempts(w: World, date: string, step: Step, died: bool): World {
    w.(attempts := w.attempts[date := Of(w.attempts, date) + [Try(step, died)]])
  }

  /** What the move leaves in the round store and the record of the run. */
  function Apply(su: Setup, w: World, s: RoundState, move: Move, offset: int, block: int): World {
    match move
    case Stays => w
    case Halts => w
    case Late(step) => GiveUp(w, s, block, LateReason(step))
    case Failed(step) => GiveUp(Attempts(w, s.date, step, false), s, block, FailureReason(step))
    case Lost(step) => Attempts(w, s.date, step, true)
    case Finished(step, p) => Record(su, Attempts(w, s.date, step, false), p, step, offset, block)
  }

  /** One round's part of a tick, and whether the process is still there after it. */
  function Advance(su: Setup, w: World, index: int, block: int, work: Work): (World, bool)
    requires su.cycle.Valid()
  {
    var s, offset := Load(su, w, su.Name(index), block), su.cycle.OffsetIn(index, block);
    var (chain, move) := Choose(su, w.chain, s, offset, block, work);
    (Apply(su, w.(chain := chain), s, move, offset, block), !move.Halts? && !move.Lost?)
  }

  /** One tick: each live round by at most one step, until the process dies. */
  function Tick(su: Setup, w: World, block: int, first: Work, second: Work): World
    requires su.cycle.Valid()
  {
    var live := su.cycle.LiveRounds(block);
    LiveRoundsShape(su.cycle, block);
    Onward(su, Advance(su, w, live[0], block, first), live, block, second)
  }

  /** The rest of a tick, after what its first round's part came to. */
  function Onward(su: Setup, done: (World, bool), live: seq<int>, block: int, second: Work): World
    requires su.cycle.Valid() && 1 <= |live| <= 2
  {
    if !done.1 || |live| == 1 then done.0 else Advance(su, done.0, live[1], block, second).0
  }

  /** A tick at some height, the chain moving on, or its becoming unreachable and reachable again. */
  datatype Event =
    | Ticked(block: int, first: Work, second: Work)
    | Passed(blocks: nat)
    | Switched(failReads: bool, failSubmit: bool)

  function Happen(su: Setup, w: World, e: Event): World
    requires su.cycle.Valid()
  {
    match e
    case Ticked(block, first, second) => Tick(su, w, block, first, second)
    case Passed(blocks) => w.(chain := w.chain.Advance(blocks))
    case Switched(failReads, failSubmit) => w.(chain := w.chain.(failReads := failReads, failSubmit := failSubmit))
  }

  function After(su: Setup, w: World, events: seq<Event>): World
    requires su.cycle.Valid()
  {
    if events == [] then w
    else Happen(su, After(su, w, events[..|events| - 1]), events[|events| - 1])
  }

  function Start(block: nat): World {
    World(Chain.ChainState(block, map[], map[], [], false, false), map[], map[], map[])
  }
}
