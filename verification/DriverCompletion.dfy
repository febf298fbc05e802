/** Which runs of the round loop bring a round to its end (validator/driver.py). */
module DriverCompletion {
  import opened Cycle
  import opened Scheduler
  import opened Rounds
  import opened Driver
  import opened DriverRuns
  import opened DriverPeers
  import Chain

  // ---------------------------------------------------------------- one round's part of an event

  /** What the first live round's part of a tick comes to. */
  function FirstPart(su: Setup, w: World, e: Event): (World, bool)
    requires su.cycle.Valid() && e.Ticked?
  {
    LiveRoundsShape(su.cycle, e.block);
    Advance(su, w, su.cycle.LiveRounds(e.block)[0], e.block, e.first)
  }

  predicate IsFirst(su: Setup, e: Event, index: int)
    requires su.cycle.Valid() && e.Ticked?
  {
    LiveRoundsShape(su.cycle, e.block);
    index == su.cycle.LiveRounds(e.block)[0]
  }

  /** The event is a tick that looks at the round, and the process is still there when its turn comes. */
  predicate Reaches(su: Setup, w: World, e: Event, index: int)
    requires su.cycle.Valid()
  {
    e.Ticked? && index in su.cycle.LiveRounds(e.block) && (IsFirst(su, e, index) || FirstPart(su, w, e).1)
  }

  /** What an advance comes to for its round. */
  function MoveAt(su: Setup, w: World, index: int, block: int, work: Work): Move
    requires su.cycle.Valid()
  {
    Choose(su, w.chain, Load(su, w, su.Name(index), block), su.cycle.OffsetIn(index, block), block, work).1
  }

  /** What the event comes to for the round. */
  function MoveOf(su: Setup, w: World, e: Event, index: int): Move
    requires su.cycle.Valid()
  {
    if !Reaches(su, w, e, index) then Stays
    else if IsFirst(su, e, index) then MoveAt(su, w, index, e.block, e.first)
    else MoveAt(su, FirstPart(su, w, e).0, index, e.block, e.second)
  }

  /** How far the round is: its recorded steps, and why it was given up. */
  datatype Standing = At(count: nat, reason: string)

  function StandingOf(su: Setup, w: World, index: int): Standing
    requires su.cycle.Valid()
  {
    At(|Of(w.decided, su.Name(index))|, ReasonOf(w, su.Name(index)))
  }

  /** How a move changes it. */
  function Moved(at: Standing, move: Move): Standing {
    match move
    case Finished(_, _) => At(at.count + 1, at.reason)
    case Failed(step) => At(at.count, FailureReason(step))
    case Late(step) => At(at.count, LateReason(step))
    case _ => at
  }

  predicate InWindowOf(c: CycleConfig, index: int, block: int, k: nat)
    requires k < 5
  {
    Windows(c)[k].Contains(c.OffsetIn(index, block))
  }

  /** The move is one that a round so far along may make at the height. */
  ghost predicate Suits(c: CycleConfig, index: int, block: int, at: Standing, move: Move) {
    && at.count <= 5 && !move.Halts?
    && (at.reason != "" || at.count == 5 ==> move.Stays?)
    && (at.reason == "" && at.count < 5 ==>
          var w, offset := Windows(c)[at.count], c.OffsetIn(index, block);
          && (move.Stays? <==> offset < w.opens)
          && (move.Late? <==> offset >= w.closes)
          && (w.Contains(offset) <==> move.Failed? || move.Lost? || move.Finished?))
  }

  lemma ChosenSuits(su: Setup, w: World, index: int, block: int, work: Work)
    requires su.cycle.Valid() && RoundOk(su, w, index)
    ensures Suits(su.cycle, index, block, StandingOf(su, w, index), MoveAt(su, w, index, block, work))
  {
    var date := su.Name(index);
    var s, offset, count := Load(su, w, date, block), su.cycle.OffsetIn(index, block), |Of(w.decided, date)|;
    LoadedOk(su, w, index, block);
    ChosenOutside(su, w.chain, s, count, offset, block, work);
    DonePrefix(count);
    DecidePrefix(su.cycle, offset, count);
  }

  lemma AdvanceMoves(su: Setup, w: World, index: int, block: int, work: Work)
    requires su.cycle.Valid() && RoundOk(su, w, index)
    ensures StandingOf(su, Advance(su, w, index, block, work).0, index) ==
            Moved(StandingOf(su, w, index), MoveAt(su, w, index, block, work))
  {
    var date := su.Name(index);
    var s, offset := Load(su, w, date, block), su.cycle.OffsetIn(index, block);
    LoadedOk(su, w, index, block);
    ChosenFits(su, w.chain, index, s, Of(w.decided, date), block, work);
    var (chain, move) := Choose(su, w.chain, s, offset, block, work);
    ApplyShows(su, w.(chain := chain), s, move, offset, block);
  }

  lemma OthersStand(su: Setup, w: World, index: int, block: int, work: Work, other: int)
    requires su.Valid() && RoundOk(su, w, index) && other != index
    ensures StandingOf(su, Advance(su, w, index, block, work).0, other) == StandingOf(su, w, other)
  {
    NamesDistinct(su, index, other);
    AdvanceLeavesOthers(su, w, index, block, work, su.Name(other));
  }

  lemma AdvanceStands(su: Setup, w: World, who: int, block: int, work: Work, index: int)
    requires su.Valid() && RoundOk(su, w, who)
    ensures StandingOf(su, Advance(su, w, who, block, work).0, index) ==
            if index == who then Moved(StandingOf(su, w, index), MoveAt(su, w, index, block, work))
            else StandingOf(su, w, index)
  {
    if index == who {
      AdvanceMoves(su, w, index, block, work);
    } else {
      OthersStand(su, w, who, block, work, index);
    }
  }

  lemma OnwardStands(su: Setup, done: (World, bool), live: seq<int>, block: int, second: Work, index: int)
    requires su.Valid() && 1 <= |live| <= 2 && (|live| == 2 ==> RoundOk(su, done.0, live[1]))
    ensures StandingOf(su, Onward(su, done, live, block, second), index) ==
            if done.1 && |live| == 2 && index == live[1]
            then Moved(StandingOf(su, done.0, index), MoveAt(su, done.0, index, block, second))
            else StandingOf(su, done.0, index)
  {
    if done.1 && |live| == 2 {
      AdvanceStands(su, done.0, live[1], block, second, index);
    }
  }

  lemma FirstPartStands(su: Setup, w: World, e: Event, index: int)
    requires su.Valid() && AllOk(su, w) && e.Ticked?
    ensures StandingOf(su, FirstPart(su, w, e).0, index) ==
            if IsFirst(su, e, index) then Moved(StandingOf(su, w, index), MoveAt(su, w, index, e.block, e.first))
            else StandingOf(su, w, index)
    ensures forall other: int :: RoundOk(su, FirstPart(su, w, e).0, other)
  {
    LiveRoundsShape(su.cycle, e.block);
    var first := su.cycle.LiveRounds(e.block)[0];
    assert RoundOk(su, w, first);
    AdvanceStands(su, w, first, e.block, e.first, index);
    AdvanceKeepsAll(su, w, first, e.block, e.first);
  }

  lemma TickIsOnward(su: Setup, w: World, e: Event)
    requires su.cycle.Valid() && e.Ticked?
    ensures var live := su.cycle.LiveRounds(e.block);
            && 1 <= |live| <= 2 && (|live| == 2 ==> live[0] != live[1])
            && (forall index :: IsFirst(su, e, index) <==> index == live[0])
            && (forall index :: index in live <==> IsFirst(su, e, index) || (|live| == 2 && index == live[1]))
            && Happen(su, w, e) == Onward(su, FirstPart(su, w, e), live, e.block, e.second)
  {
    LiveRoundsShape(su.cycle, e.block);
  }

  /** How the two parts of a tick go together for a round; `done` is what the first came to. */
  lemma TwoParts(su: Setup, w: World, done: (World, bool), live: seq<int>, e: Event, index: int)
    requires su.Valid() && e.Ticked? && live == su.cycle.LiveRounds(e.block) && 1 <= |live| <= 2
    requires |live| == 2 ==> live[0] != live[1] && RoundOk(su, done.0, live[1])
    requires StandingOf(su, done.0, index) ==
             if index == live[0] then Moved(StandingOf(su, w, index), MoveAt(su, w, index, e.block, e.first))
             else StandingOf(su, w, index)
    ensures StandingOf(su, Onward(su, done, live, e.block, e.second), index) ==
            Moved(StandingOf(su, w, index),
                  if index == live[0] then MoveAt(su, w, index, e.block, e.first)
                  else if done.1 && index in live then MoveAt(su, done.0, index, e.block, e.second)
                  else Stays)
  {
    OnwardStands(su, done, live, e.block, e.second, index);
  }

  /** Whatever the event, the round moves as its own part of the event says and no further. */
  lemma EventMoves(su: Setup, w: World, e: Event, index: int)
    requires su.Valid() && AllOk(su, w)
    ensures StandingOf(su, Happen(su, w, e), index) == Moved(StandingOf(su, w, index), MoveOf(su, w, e, index))
  {
    if e.Ticked? {
      TickIsOnward(su, w, e);
      FirstPartStands(su, w, e, index);
      TwoParts(su, w, FirstPart(su, w, e), su.cycle.LiveRounds(e.block), e, index);
    }
  }

  lemma MoveSuits(su: Setup, w: World, e: Event, index: int)
    requires su.Valid() && AllOk(su, w) && Reaches(su, w, e, index)
    ensures Suits(su.cycle, index, e.block, StandingOf(su, w, index), MoveOf(su, w, e, index))
  {
    FirstPartStands(su, w, e, index);
    if IsFirst(su, e, index) {
      assert RoundOk(su, w, index);
      ChosenSuits(su, w, index, e.block, e.first);
    } else {
      ChosenSuits(su, FirstPart(su, w, e).0, index, e.block, e.second);
    }
  }

  // ---------------------------------------------------------------- a round's turns

  /** What one event was for the round: whether it reached the round, at which height, and the move. */
  datatype Turn = Turn(reached: bool, block: int, move: Move)

  /** Where the turns bring a round that has not begun. */
  function Brought(turns: seq<Turn>): Standing {
    if turns == [] then At(0, "") else Moved(Brought(turns[..|turns| - 1]), turns[|turns| - 1].move)
  }

  /** Every turn that reaches the round suits how far it is by then, and the others leave it alone. */
  ghost predicate Legal(c: CycleConfig, index: int, turns: seq<Turn>) {
    turns == [] ||
    (var before, last := turns[..|turns| - 1], turns[|turns| - 1];
     && Legal(c, index, before)
     && if last.reached then Suits(c, index, last.block, Brought(before), last.move) else last.move.Stays?)
  }

  /** No step of the round refuses or raises. */
  ghost predicate NeverFails(turns: seq<Turn>) {
    forall n | 0 <= n < |turns| :: !turns[n].move.Failed?
  }

  /** The turn reaches the round inside the window of step `k`, and the process is still there after
      it. */
  predicate Serves(c: CycleConfig, index: int, turn: Turn, k: nat)
    requires k < 5
  {
    turn.reached && InWindowOf(c, index, turn.block, k) && !turn.move.Lost?
  }

  ghost predicate Served(c: CycleConfig, index: int, turns: seq<Turn>, k: nat)
    requires k < 5
  {
    exists n :: 0 <= n < |turns| && Serves(c, index, turns[n], k)
  }

  ghost predicate AllServed(c: CycleConfig, index: int, turns: seq<Turn>) {
    forall k | 0 <= k < 5 :: Served(c, index, turns, k)
  }

  /** The round is reached at heights that never fall. */
  ghost predicate TurnsRise(turns: seq<Turn>) {
    forall i, j :: 0 <= i < j < |turns| && turns[i].reached && turns[j].reached ==> turns[i].block <= turns[j].block
  }

  lemma {:induction false} LegalAt(c: CycleConfig, index: int, turns: seq<Turn>, n: nat)
    requires Legal(c, index, turns) && n < |turns|
    ensures Brought(turns[..n + 1]) == Moved(Brought(turns[..n]), turns[n].move)
    ensures if turns[n].reached then Suits(c, index, turns[n].block, Brought(turns[..n]), turns[n].move)
            else turns[n].move.Stays?
  {
    var before := turns[..|turns| - 1];
    if n == |turns| - 1 {
      assert turns[..n + 1] == turns;
    } else {
      LegalAt(c, index, before, n);
      assert before[..n] == turns[..n] && before[..n + 1] == turns[..n + 1];
    }
  }

  /** At rising heights a window that is served at all has been served before a turn past it. */
  lemma ServedBefore(c: CycleConfig, index: int, turns: seq<Turn>, n: nat, k: nat) returns (i: nat)
    requires TurnsRise(turns) && n < |turns| && turns[n].reached && k < 5 && Served(c, index, turns, k)
    requires c.OffsetIn(index, turns[n].block) >= Windows(c)[k].closes
    ensures i < n && Serves(c, index, turns[i], k)
  {
    i :| 0 <= i < |turns| && Serves(c, index, turns[i], k);
  }

  /** So far every window that was served has its step recorded, and the round goes on. */
  ghost predicate KeepsUp(c: CycleConfig, index: int, turns: seq<Turn>, n: nat)
    requires n <= |turns|
  {
    var at := Brought(turns[..n]);
    && at.count <= 5 && at.reason == ""
    && forall i, k | 0 <= i < n && 0 <= k < 5 && Serves(c, index, turns[i], k) :: k < at.count
  }

  /** The turn's height is not past the next step's window, and serves no later one. */
  lemma NotPast(c: CycleConfig, index: int, turns: seq<Turn>, n: nat, k: nat)
    requires c.Valid() && TurnsRise(turns) && AllServed(c, index, turns)
    requires n < |turns| && turns[n].reached && KeepsUp(c, index, turns, n) && Brought(turns[..n]).count < 5 && k < 5
    ensures var count := Brought(turns[..n]).count;
            && c.OffsetIn(index, turns[n].block) < Windows(c)[count].closes
            && (InWindowOf(c, index, turns[n].block, k) ==> k <= count)
  {
    var count := Brought(turns[..n]).count;
    if c.OffsetIn(index, turns[n].block) >= Windows(c)[count].closes {
      assert Served(c, index, turns, count);
      var i := ServedBefore(c, index, turns, n, count);
      assert false;
    }
  }

  /** On time a round goes on, and a turn that serves a step has it recorded. */
  lemma OnTimeMove(c: CycleConfig, index: int, block: int, at: Standing, move: Move, k: nat)
    requires Suits(c, index, block, at, move) && at.reason == "" && !move.Failed? && k < 5
    requires at.count < 5 ==> c.OffsetIn(index, block) < Windows(c)[at.count].closes
    requires at.count < 5 && InWindowOf(c, index, block, k) ==> k <= at.count
    ensures var next := Moved(at, move);
            && next.reason == "" && at.count <= next.count <= 5
            && (InWindowOf(c, index, block, k) && !move.Lost? ==> k < next.count)
  {
  }

  lemma KeepsUpNext(c: CycleConfig, index: int, turns: seq<Turn>, n: nat, k: nat)
    requires c.Valid() && Legal(c, index, turns) && TurnsRise(turns) && NeverFails(turns) && AllServed(c, index, turns)
    requires n < |turns| && k < 5 && KeepsUp(c, index, turns, n)
    ensures var at, next := Brought(turns[..n]), Brought(turns[..n + 1]);
            && next.reason == "" && at.count <= next.count <= 5
            && (Serves(c, index, turns[n], k) ==> k < next.count)
  {
    LegalAt(c, index, turns, n);
    if turns[n].reached {
      if Brought(turns[..n]).count < 5 {
        NotPast(c, index, turns, n, k);
      }
      OnTimeMove(c, index, turns[n].block, Brought(turns[..n]), turns[n].move, k);
    }
  }

  lemma {:induction false} ServedKeepsUp(c: CycleConfig, index: int, turns: seq<Turn>, n: nat)
    requires c.Valid() && Legal(c, index, turns) && TurnsRise(turns) && NeverFails(turns) && AllServed(c, index, turns)
    requires n <= |turns|
    ensures KeepsUp(c, index, turns, n)
  {
    if n > 0 {
      ServedKeepsUp(c, index, turns, n - 1);
      KeepsUpNext(c, index, turns, n - 1, 0);
      forall i, k | 0 <= i < n && 0 <= k < 5 && Serves(c, index, turns[i], k)
        ensures k < Brought(turns[..n]).count
      {
        KeepsUpNext(c, index, turns, n - 1, k);
      }
    }
  }

  /** A recorded step's window was served. */
  lemma {:induction false} RecordedWasServed(c: CycleConfig, index: int, turns: seq<Turn>, n: nat, k: nat)
      returns (i: nat)
    requires Legal(c, index, turns) && n <= |turns| && k < 5 && k < Brought(turns[..n]).count
    ensures i < n && Serves(c, index, turns[i], k)
  {
    assert n > 0;
    LegalAt(c, index, turns, n - 1);
    if k < Brought(turns[..n - 1]).count {
      i := RecordedWasServed(c, index, turns, n - 1, k);
    } else {
      i := n - 1;
    }
  }

  lemma {:induction false} GivenUpStays(c: CycleConfig, index: int, turns: seq<Turn>, n: nat, m: nat)
    requires Legal(c, index, turns) && n <= m <= |turns| && Brought(turns[..n]).reason != ""
    ensures Brought(turns[..m]).reason != ""
  {
    if n < m {
      GivenUpStays(c, index, turns, n, m - 1);
      LegalAt(c, index, turns, m - 1);
    }
  }

  lemma GoingNeverFailed(c: CycleConfig, index: int, turns: seq<Turn>)
    requires Legal(c, index, turns) && Brought(turns).reason == ""
    ensures NeverFails(turns)
  {
    assert turns[..|turns|] == turns;
    forall n | 0 <= n < |turns| ensures !turns[n].move.Failed? {
      if turns[n].move.Failed? {
        LegalAt(c, index, turns, n);
        ReasonsApart(turns[n].move.step);
        GivenUpStays(c, index, turns, n + 1, |turns|);
      }
    }
  }

  lemma BroughtToTheEnd(c: CycleConfig, index: int, turns: seq<Turn>)
    requires c.Valid() && Legal(c, index, turns) && TurnsRise(turns)
    ensures Brought(turns) == At(5, "") <==> NeverFails(turns) && AllServed(c, index, turns)
  {
    assert turns[..|turns|] == turns;
    if NeverFails(turns) && AllServed(c, index, turns) {
      ServedKeepsUp(c, index, turns, |turns|);
      assert Served(c, index, turns, 4);
    }
    if Brought(turns) == At(5, "") {
      GoingNeverFailed(c, index, turns);
      forall k | 0 <= k < 5 ensures Served(c, index, turns, k) {
        var i := RecordedWasServed(c, index, turns, |turns|, k);
      }
    }
  }

  // ---------------------------------------------------------------- a whole run

  function TurnOf(su: Setup, w: World, e: Event, index: int): Turn
    requires su.cycle.Valid()
  {
    Turn(Reaches(su, w, e, index), if e.Ticked? then e.block else 0, MoveOf(su, w, e, index))
  }

  /** The round's turns over a run, one for each event. */
  function Turns(su: Setup, start: World, events: seq<Event>, index: int): (turns: seq<Turn>)
    requires su.cycle.Valid()
    ensures |turns| == |events|
  {
    if events == [] then []
    else
      var before, last := events[..|events| - 1], events[|events| - 1];
      Turns(su, start, before, index) + [TurnOf(su, After(su, start, before), last, index)]
  }

  lemma {:induction false} TurnAt(su: Setup, start: World, events: seq<Event>, index: int, n: nat)
    requires su.cycle.Valid() && n < |events|
    ensures Turns(su, start, events, index)[n] == TurnOf(su, After(su, start, events[..n]), events[n], index)
  {
    var before := events[..|events| - 1];
    if n < |events| - 1 {
      TurnAt(su, start, before, index, n);
      assert before[..n] == events[..n];
    }
  }

  lemma OneMoreTurn(c: CycleConfig, index: int, turns: seq<Turn>, last: Turn)
    requires Legal(c, index, turns)
    requires if last.reached then Suits(c, index, last.block, Brought(turns), last.move) else last.move.Stays?
    ensures Legal(c, index, turns + [last]) && Brought(turns + [last]) == Moved(Brought(turns), last.move)
  {
    assert (turns + [last])[..|turns|] == turns;
  }

  /** They are legal, and bring the round to where the run has it. */
  lemma {:induction false} TurnsAreLegal(su: Setup, block: nat, events: seq<Event>, index: int)
    requires su.Valid()
    ensures var turns := Turns(su, Start(block), events, index);
            Legal(su.cycle, index, turns) && Brought(turns) == StandingOf(su, After(su, Start(block), events), index)
  {
    if events != [] {
      var before, last := events[..|events| - 1], events[|events| - 1];
      var w := After(su, Start(block), before);
      TurnsAreLegal(su, block, before, index);
      AlwaysOk(su, block, before);
      EventMoves(su, w, last, index);
      TurnSuits(su, w, last, index);
      OneMoreTurn(su.cycle, index, Turns(su, Start(block), before, index), TurnOf(su, w, last, index));
    }
  }

  lemma TurnSuits(su: Setup, w: World, e: Event, index: int)
    requires su.Valid() && AllOk(su, w)
    ensures var turn := TurnOf(su, w, e, index);
            if turn.reached then Suits(su.cycle, index, turn.block, StandingOf(su, w, index), turn.move)
            else turn.move.Stays?
  {
    if Reaches(su, w, e, index) {
      MoveSuits(su, w, e, index);
    }
  }

  /** The ticks are at heights that never fall. */
  ghost predicate Rising(events: seq<Event>) {
    forall i, j :: 0 <= i < j < |events| && events[i].Ticked? && events[j].Ticked? ==>
      events[i].block <= events[j].block
  }

  lemma ReachedAtTheHeight(su: Setup, w: World, e: Event, index: int)
    requires su.cycle.Valid() && TurnOf(su, w, e, index).reached
    ensures e.Ticked? && TurnOf(su, w, e, index).block == e.block
  {
  }

  lemma RisingTurns(su: Setup, start: World, events: seq<Event>, index: int)
    requires su.cycle.Valid() && Rising(events)
    ensures TurnsRise(Turns(su, start, events, index))
  {
    var turns := Turns(su, start, events, index);
    forall i, j | 0 <= i < j < |turns| && turns[i].reached && turns[j].reached
      ensures turns[i].block <= turns[j].block
    {
      TurnAt(su, start, events, index, i);
      TurnAt(su, start, events, index, j);
      ReachedAtTheHeight(su, After(su, start, events[..i]), events[i], index);
      ReachedAtTheHeight(su, After(su, start, events[..j]), events[j], index);
    }
  }

  /** All five steps are recorded and the round is not given up. */
  predicate Completed(su: Setup, w: World, index: int)
    requires su.cycle.Valid()
  {
    var date := su.Name(index);
    date in w.rounds && w.rounds[date].abandoned == "" && w.rounds[date].stepsDone == NAMES
  }

  lemma CompletedStanding(su: Setup, w: World, index: int)
    requires su.cycle.Valid() && RoundOk(su, w, index)
    ensures Completed(su, w, index) <==> StandingOf(su, w, index) == At(5, "")
  {
    var date := su.Name(index);
    if date in w.rounds {
      var count := |Of(w.decided, date)|;
      assert w.rounds[date].stepsDone == NAMES[..count];
      assert |NAMES[..count]| == count && NAMES[..5] == NAMES;
    }
  }

  /** At heights that never fall a round is completed if and only if none of its steps fails and each
      of its windows holds a tick that reaches it and does not lose the process in its step. Ticks in
      between, deaths, restarts and the other rounds make no difference. */
  lemma CompletesExactly(su: Setup, block: nat, events: seq<Event>, index: int)
    requires su.Valid() && Rising(events)
    ensures var turns := Turns(su, Start(block), events, index);
            Completed(su, After(su, Start(block), events), index) <==>
            NeverFails(turns) && AllServed(su.cycle, index, turns)
  {
    AlwaysOk(su, block, events);
    assert RoundOk(su, After(su, Start(block), events), index);
    CompletedStanding(su, After(su, Start(block), events), index);
    TurnsAreLegal(su, block, events, index);
    RisingTurns(su, Start(block), events, index);
    BroughtToTheEnd(su.cycle, index, Turns(su, Start(block), events, index));
  }

  // ---------------------------------------------------------------- the loop's own runs

  function HeadOf(w: World): nat {
    w.chain.block
  }

  lemma ChosenKeepsHead(su: Setup, chain: Chain.ChainState, s: RoundState, offset: int, block: int, work: Work)
    requires su.cycle.Valid()
    ensures Choose(su, chain, s, offset, block, work).0.block == chain.block
  {
    forall step: Step ensures Perform(su, chain, s, step, block, work).0.block == chain.block {
      PerformWrites(su, chain, s, step, block, work);
    }
  }

  lemma AdvanceKeepsHead(su: Setup, w: World, index: int, block: int, work: Work)
    requires su.cycle.Valid()
    ensures HeadOf(Advance(su, w, index, block, work).0) == HeadOf(w)
  {
    var s, offset := Load(su, w, su.Name(index), block), su.cycle.OffsetIn(index, block);
    var (after, move) := Choose(su, w.chain, s, offset, block, work);
    ChosenKeepsHead(su, w.chain, s, offset, block, work);
    AppliedChain(su, w.(chain := after), s, move, offset, block);
  }

  lemma OnwardKeepsHead(su: Setup, done: (World, bool), live: seq<int>, block: int, second: Work)
    requires su.cycle.Valid() && 1 <= |live| <= 2
    ensures HeadOf(Onward(su, done, live, block, second)) == HeadOf(done.0)
  {
    if |live| == 2 {
      AdvanceKeepsHead(su, done.0, live[1], block, second);
    }
  }

  lemma HeadNeverFalls(su: Setup, w: World, e: Event)
    requires su.cycle.Valid()
    ensures HeadOf(Happen(su, w, e)) >= HeadOf(w)
  {
    if e.Ticked? {
      var live := su.cycle.LiveRounds(e.block);
      TickIsOnward(su, w, e);
      AdvanceKeepsHead(su, w, live[0], e.block, e.first);
      OnwardKeepsHead(su, FirstPart(su, w, e), live, e.block, e.second);
    }
  }

  /** The ticks of the loop are at heights that never fall, none of them past the head it ends at. */
  lemma {:induction false} HeadsRise(su: Setup, block: nat, events: seq<Event>)
    requires su.cycle.Valid() && AtHead(su, Start(block), events)
    ensures Rising(events)
    ensures forall i :: 0 <= i < |events| && events[i].Ticked? ==>
              events[i].block <= After(su, Start(block), events).chain.block
  {
    if events != [] {
      var before, last := events[..|events| - 1], events[|events| - 1];
      HeadsRise(su, block, before);
      HeadNeverFalls(su, After(su, Start(block), before), last);
      assert events == before + [last];
    }
  }

  /** So in every run of the loop a round is completed exactly then. */
  lemma LoopCompletesExactly(su: Setup, block: nat, events: seq<Event>, index: int)
    requires su.Valid() && AtHead(su, Start(block), events)
    ensures var turns := Turns(su, Start(block), events, index);
            Completed(su, After(su, Start(block), events), index) <==>
            NeverFails(turns) && AllServed(su.cycle, index, turns)
  {
    HeadsRise(su, block, events);
    CompletesExactly(su, block, events, index);
  }
}
