/** What a round publishes and what it keeps (validator/roundstate.py). */
module Rounds {
  import opened Wrappers
  import opened Cycle

  /** A problem: its fields as text. */
  type Challenge = map<string, string>

  datatype LabStatus = LabStatus(uid: int, hotkey: string, state: string, challengesDone: int, challengesTotal: int,
                                 failedGates: seq<string>, rccSpent: int)
  {
    function ProgressPpm(): int {
      if challengesTotal <= 0 then 0 else challengesDone * 1_000_000 / challengesTotal
    }
  }

  datatype Standing = Standing(uid: int, hotkey: string, rollingPpm: int, dailyPpm: int, validChallenges: int,
                               familyGapPpm: int, qualified: bool, weightPpm: int)

  datatype RoundState = RoundState(
    date: string,
    validatorHotkey: string,
    phase: string,
    block: int,
    packHash: string,
    challengeCount: int,
    challengesPerGenerator: map<string, int>,
    floorPpm: int,
    labs: seq<LabStatus>,
    standings: seq<Standing>,
    challenges: seq<Challenge>,
    generationRejections: map<string, int>,
    burned: bool,
    stepsDone: seq<string>,
    saltHex: string,
    saltCommitment: string,
    abandoned: string,
    updatedAtBlock: int)

  /** A laboratory as a document shows it, its progress worked out. */
  datatype LabDocument = LabDocument(status: LabStatus, progressPpm: int)

  /** A stored document. Four keys must be there; the others may be missing, and reading fills
      them with what a new round starts from. */
  datatype Document = Document(
    date: string,
    validatorHotkey: string,
    phase: string,
    block: int,
    packHash: Option<string>,
    challengeCount: Option<int>,
    challengesPerGenerator: Option<map<string, int>>,
    floorPpm: Option<int>,
    labs: Option<seq<LabDocument>>,
    standings: Option<seq<Standing>>,
    challenges: Option<seq<Challenge>>,
    challengesWithheld: bool,
    generationRejections: Option<map<string, int>>,
    burned: Option<bool>,
    stepsDone: Option<seq<string>>,
    saltHex: Option<string>,
    saltCommitment: Option<string>,
    abandoned: Option<string>,
    updatedAtBlock: Option<int>)

  // ---------------------------------------------------------------- phases by name

  function PhaseName(p: Phase): string {
    match p
    case BeforeSubmissionClose => "BEFORE_SUBMISSION_CLOSE"
    case AwaitingSaltCommit => "AWAITING_SALT_COMMIT"
    case AwaitingRandomness => "AWAITING_RANDOMNESS"
    case Generating => "GENERATING"
    case AwaitingReveal => "AWAITING_REVEAL"
    case Executing => "EXECUTING"
    case Scoring => "SCORING"
    case AwaitingWeights => "AWAITING_WEIGHTS"
    case Done => "DONE"
  }

  const PHASES: seq<Phase> := [BeforeSubmissionClose, AwaitingSaltCommit, AwaitingRandomness, Generating,
                               AwaitingReveal, Executing, Scoring, AwaitingWeights, Done]

  /** The phase a recorded name stands for; none for a name another release wrote. */
  function PhaseNamed(name: string): Option<Phase> {
    PhaseNamedFrom(PHASES, name)
  }

  function PhaseNamedFrom(phases: seq<Phase>, name: string): Option<Phase> {
    if phases == [] then None
    else if PhaseName(phases[0]) == name then Some(phases[0])
    else PhaseNamedFrom(phases[1..], name)
  }

  lemma {:induction false} NamedIsName(phases: seq<Phase>, name: string)
    ensures var p := PhaseNamedFrom(phases, name);
            if p.Some? then p.value in phases && PhaseName(p.value) == name
            else forall q :: q in phases ==> PhaseName(q) != name
  {
    if phases != [] {
      NamedIsName(phases[1..], name);
    }
  }

  /** The names all have different lengths. */
  lemma NamesApart(p: Phase)
    ensures forall q :: PhaseName(p) == PhaseName(q) ==> p == q
  {
    forall q | PhaseName(p) == PhaseName(q) ensures p == q {
      assert |PhaseName(p)| == |PhaseName(q)|;
    }
  }

  /** A phase is read back from its name, and only from its name. */
  lemma PhaseOfName(name: string, p: Phase)
    ensures PhaseNamed(name) == Some(p) <==> name == PhaseName(p)
  {
    NamedIsName(PHASES, name);
    NamesApart(p);
    assert PHASES[0] == BeforeSubmissionClose && PHASES[1] == AwaitingSaltCommit && PHASES[2] == AwaitingRandomness;
    assert PHASES[3] == Generating && PHASES[4] == AwaitingReveal && PHASES[5] == Executing;
    assert PHASES[6] == Scoring && PHASES[7] == AwaitingWeights && PHASES[8] == Done;
    assert p in PHASES;
  }

  // ---------------------------------------------------------------- the two documents

  predicate DisclosedPhase(p: Phase) {
    p == Scoring || p == AwaitingWeights || p == Done
  }

  /** Whether the problems may be shown; none when the recorded phase is not known. */
  function Disclosed(s: RoundState): Option<bool> {
    match PhaseNamed(s.phase)
    case None => None
    case Some(p) => Some(DisclosedPhase(p))
  }

  function LabDocuments(labs: seq<LabStatus>): seq<LabDocument> {
    seq(|labs|, i requires 0 <= i < |labs| => LabDocument(labs[i], labs[i].ProgressPpm()))
  }

  /** The only form another process is given. The salt has no place in it. */
  function PublicView(s: RoundState): Option<Document> {
    match Disclosed(s)
    case None => None
    case Some(disclosed) =>
      Some(Document(s.date, s.validatorHotkey, s.phase, s.block, Some(s.packHash), Some(s.challengeCount),
                    Some(s.challengesPerGenerator), Some(s.floorPpm), Some(LabDocuments(s.labs)), Some(s.standings),
                    if disclosed then Some(s.challenges) else None, !disclosed,
                    Some(s.generationRejections), Some(s.burned), Some(s.stepsDone), None, None,
                    Some(s.abandoned), None))
  }

  /** The validator's own record, which holds everything at every phase. */
  function AsDocument(s: RoundState): Option<Document> {
    match PublicView(s)
    case None => None
    case Some(view) =>
      Some(view.(challengesWithheld := false, challenges := Some(s.challenges),
                 updatedAtBlock := Some(s.updatedAtBlock),
                 saltHex := Some(s.saltHex), saltCommitment := Some(s.saltCommitment)))
  }

  function Or<T>(value: Option<T>, otherwise: T): T {
    if value.Some? then value.value else otherwise
  }

  function LabsOf(docs: seq<LabDocument>): seq<LabStatus> {
    seq(|docs|, i requires 0 <= i < |docs| => docs[i].status)
  }

  function FromDocument(d: Document): RoundState {
    RoundState(d.date, d.validatorHotkey, d.phase, d.block, Or(d.packHash, ""), Or(d.challengeCount, 0),
               Or(d.challengesPerGenerator, map[]), Or(d.floorPpm, 0), LabsOf(Or(d.labs, [])), Or(d.standings, []),
               Or(d.challenges, []), Or(d.generationRejections, map[]), Or(d.burned, false), Or(d.stepsDone, []),
               Or(d.saltHex, ""), Or(d.saltCommitment, ""), Or(d.abandoned, ""), Or(d.updatedAtBlock, 0))
  }

  lemma LabsRoundTrip(labs: seq<LabStatus>)
    ensures LabsOf(LabDocuments(labs)) == labs
  {
  }

  /** A round is recovered whole from its own record, at every phase. */
  lemma Recovery(s: RoundState)
    ensures AsDocument(s).Some? <==> PhaseNamed(s.phase).Some?
    ensures AsDocument(s).Some? ==> FromDocument(AsDocument(s).value) == s
  {
    LabsRoundTrip(s.labs);
  }

  /** All but the problems, the salt and the height of the last write. */
  predicate SameOpenFields(a: RoundState, b: RoundState) {
    a.(challenges := b.challenges, saltHex := b.saltHex, saltCommitment := b.saltCommitment,
       updatedAtBlock := b.updatedAtBlock) == b
  }

  /** What the published document gives away: two states publish the same exactly when they agree
      on everything but the problems, the salt and the last write, and also on the problems once
      the phase permits. */
  lemma PublicTellsExactly(a: RoundState, b: RoundState)
    requires PublicView(a).Some? && PublicView(b).Some?
    ensures PublicView(a) == PublicView(b) <==>
            SameOpenFields(a, b) && (Disclosed(a) == Some(true) ==> a.challenges == b.challenges)
  {
    LabsRoundTrip(a.labs);
    LabsRoundTrip(b.labs);
  }

  /** So what was recovered from the public document alone lacks the salt, and the problems too
      before disclosure. */
  lemma PublicRecovery(s: RoundState)
    requires PublicView(s).Some?
    ensures FromDocument(PublicView(s).value) ==
            s.(challenges := if Disclosed(s) == Some(true) then s.challenges else [],
               saltHex := "", saltCommitment := "", updatedAtBlock := 0)
  {
    LabsRoundTrip(s.labs);
  }

  // ---------------------------------------------------------------- the store

  /** The two documents kept under a date are both written from one state. */
  ghost predicate OneState(date: string, full: Document, view: Document) {
    var s := FromDocument(full);
    s.date == date && AsDocument(s) == Some(full) && PublicView(s) == Some(view)
  }

  lemma WrittenFromOne(s: RoundState)
    requires AsDocument(s).Some?
    ensures PublicView(s).Some? && OneState(s.date, AsDocument(s).value, PublicView(s).value)
    ensures FromDocument(AsDocument(s).value) == s
  {
    Recovery(s);
  }

  ghost predicate Paired(rounds: map<string, Document>, published: map<string, Document>) {
    && rounds.Keys == published.Keys
    && forall date :: date in rounds ==> OneState(date, rounds[date], published[date])
  }

  ghost function StatesOf(rounds: map<string, Document>): (states: map<string, RoundState>)
    ensures states.Keys == rounds.Keys
  {
    map date | date in rounds :: FromDocument(rounds[date])
  }

  lemma OneMorePair(rounds: map<string, Document>, published: map<string, Document>, date: string, full: Document,
                    view: Document)
    requires Paired(rounds, published) && OneState(date, full, view)
    ensures Paired(rounds[date := full], published[date := view])
  {
    var after, shown := rounds[date := full], published[date := view];
    forall d | d in after ensures OneState(d, after[d], shown[d]) {
      if d != date {
        assert OneState(d, rounds[d], published[d]);
      }
    }
  }

  lemma OneMoreState(rounds: map<string, Document>, date: string, full: Document)
    ensures StatesOf(rounds[date := full]) == StatesOf(rounds)[date := FromDocument(full)]
  {
  }

  class InMemoryRoundStore {
    var rounds: map<string, Document>
    var published: map<string, Document>

    /** Both documents of every round come from one state. */
    ghost predicate Valid()
      reads this
    {
      Paired(rounds, published)
    }

    /** The states the records stand for. */
    ghost function States(): (states: map<string, RoundState>)
      reads this
      ensures states.Keys == rounds.Keys
    {
      StatesOf(rounds)
    }

    constructor ()
      ensures Valid() && States() == map[]
    {
      rounds, published := map[], map[];
    }

    /** Both documents, or neither when the phase is not one this release knows. */
    method Write(s: RoundState) returns (ok: bool)
      requires Valid()
      modifies this
      ensures Valid()
      ensures ok <==> PhaseNamed(s.phase).Some?
      ensures States() == if ok then old(States())[s.date := s] else old(States())
      ensures published == if ok then old(published)[s.date := PublicView(s).value] else old(published)
    {
      var document, view := AsDocument(s), PublicView(s);
      Recovery(s);
      if document.None? {
        return false;
      }
      WrittenFromOne(s);
      OneMorePair(rounds, published, s.date, document.value, view.value);
      OneMoreState(rounds, s.date, document.value);
      rounds := rounds[s.date := document.value];
      published := published[s.date := view.value];
      return true;
    }

    method Read(date: string) returns (s: Option<RoundState>)
      requires Valid()
      ensures s == if date in States() then Some(States()[date]) else None
    {
      if date in rounds {
        return Some(FromDocument(rounds[date]));
      }
      return None;
    }

    method ReadPublic(date: string) returns (view: Option<Document>)
      requires Valid()
      ensures view == if date in States() then PublicView(States()[date]) else None
    {
      if date in published {
        return Some(published[date]);
      }
      return None;
    }
  }
}
