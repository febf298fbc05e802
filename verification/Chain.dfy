/** The in-memory chain (chain/client.py, `FakeChain`): one commitment slot per hotkey, overwritten
    by the next write, and an archive of what each slot held at each height. */
module Chain {
  import opened Wrappers

  datatype Landed = Landed(payload: string, block: nat)

  type Slots = map<string, Landed>

  datatype Vector = Vector(uids: seq<int>, weights: seq<int>, block: nat)

  datatype ChainError = Unreachable | HashNotFinal | SubmissionRefused | EmptyVector | LengthMismatch

  /** The two flags are the chain being unreachable and its refusing submissions. */
  datatype ChainState = ChainState(
    block: nat,
    live: Slots,
    history: map<nat, Slots>,
    submitted: seq<Vector>,
    failReads: bool,
    failSubmit: bool)
  {
    function Advance(blocks: nat): ChainState {
      this.(history := history[block := live], block := block + blocks)
    }

    function Publish(hotkey: string, payload: string): ChainState {
      var slots := live[hotkey := Landed(payload, block)];
      this.(live := slots, history := history[block := slots])
    }

    function Submit(uids: seq<int>, weights: seq<int>): ChainState {
      this.(submitted := submitted + [Vector(uids, weights, block)])
    }

    /** Nothing is recorded ahead of the head, and the head's record is what is live. */
    ghost predicate Valid() {
      && (forall height :: height in history ==> height <= block)
      && (block in history ==> history[block] == live)
    }

    /** What an archive node answers for a height: the nearest record at or before it. */
    function SlotsAt(height: nat): Slots {
      match Nearest(history, height)
      case None => map[]
      case Some(h) => history[h]
    }
  }

  function Nearest(history: map<nat, Slots>, height: nat): (nearest: Option<nat>)
    ensures nearest.Some? ==> nearest.value in history && nearest.value <= height
  {
    if height in history then Some(height)
    else if height == 0 then None
    else Nearest(history, height - 1)
  }

  /** The nearest record is the latest of those not after the height. */
  lemma {:induction false} NearestIsLatest(history: map<nat, Slots>, height: nat)
    ensures Nearest(history, height).None? ==> forall h :: h in history ==> h > height
    ensures Nearest(history, height).Some? ==>
              forall h :: h in history && h <= height ==> h <= Nearest(history, height).value
    decreases height
  {
    if height !in history && height > 0 {
      NearestIsLatest(history, height - 1);
    }
  }

  lemma {:induction false} NearestUnchanged(a: map<nat, Slots>, b: map<nat, Slots>, height: nat)
    requires forall h :: h <= height ==> (h in a <==> h in b)
    ensures Nearest(a, height) == Nearest(b, height)
    decreases height
  {
    if height !in a && height > 0 {
      NearestUnchanged(a, b, height - 1);
    }
  }

  // ---------------------------------------------------------------- over a whole run

  datatype Event =
    | Advance(blocks: nat)
    | Publish(hotkey: string, payload: string)
    | Submit(uids: seq<int>, weights: seq<int>)
    | Switch(failReads: bool, failSubmit: bool)

  function Happen(s: ChainState, e: Event): ChainState {
    match e
    case Advance(blocks) => s.Advance(blocks)
    case Publish(hotkey, payload) => s.Publish(hotkey, payload)
    case Submit(uids, weights) => s.Submit(uids, weights)
    case Switch(failReads, failSubmit) => s.(failReads := failReads, failSubmit := failSubmit)
  }

  function After(s: ChainState, events: seq<Event>): ChainState
    decreases events
  {
    if events == [] then s else After(Happen(s, events[0]), events[1..])
  }

  lemma HappenKeepsValid(s: ChainState, e: Event)
    requires s.Valid()
    ensures Happen(s, e).Valid() && s.block <= Happen(s, e).block
  {
  }

  /** One event leaves every height below the head as it was. */
  lemma PastKept(s: ChainState, e: Event, height: nat)
    requires height < s.block
    ensures Happen(s, e).SlotsAt(height) == s.SlotsAt(height)
  {
    NearestUnchanged(s.history, Happen(s, e).history, height);
  }

  /** The archive answers for a past height the same for ever, whatever is written later. */
  lemma {:induction false} PastIsSettled(s: ChainState, events: seq<Event>, height: nat)
    requires s.Valid() && height < s.block
    ensures After(s, events).SlotsAt(height) == s.SlotsAt(height)
    decreases events
  {
    if events != [] {
      PastKept(s, events[0], height);
      HappenKeepsValid(s, events[0]);
      PastIsSettled(Happen(s, events[0]), events[1..], height);
    }
  }

  /** Heights passed over hold what was live when they were passed. */
  lemma PassedHeightsHoldTheLive(s: ChainState, blocks: nat, height: nat)
    requires s.Valid() && s.block <= height < s.block + blocks
    ensures s.Advance(blocks).SlotsAt(height) == s.live
  {
    var after := s.Advance(blocks);
    NearestIsLatest(after.history, height);
    assert s.block in after.history;
    assert Nearest(after.history, height).value in after.history;
  }

  /** So a commitment overwritten in a later block is still what the archive shows at its own, as
      long as nothing else lands in that block. */
  lemma OverwrittenIsStillSeen(s: ChainState, hotkey: string, payload: string, blocks: nat, events: seq<Event>,
                               height: nat)
    requires s.Valid() && s.block <= height < s.block + blocks
    ensures var later := After(s.Publish(hotkey, payload).Advance(blocks), events);
            hotkey in later.SlotsAt(height) && later.SlotsAt(height)[hotkey] == Landed(payload, s.block)
  {
    var written := s.Publish(hotkey, payload);
    HappenKeepsValid(s, Publish(hotkey, payload));
    HappenKeepsValid(written, Advance(blocks));
    PassedHeightsHoldTheLive(written, blocks, height);
    PastIsSettled(written.Advance(blocks), events, height);
  }

  /** But of two written in one block the first leaves no trace anywhere. */
  lemma SameBlockHidesTheFirst(s: ChainState, hotkey: string, first: string, second: string)
    ensures s.Publish(hotkey, first).Publish(hotkey, second) == s.Publish(hotkey, second)
  {
    assert s.live[hotkey := Landed(first, s.block)][hotkey := Landed(second, s.block)] ==
           s.live[hotkey := Landed(second, s.block)];
  }

  // ---------------------------------------------------------------- what a peer is shown

  /** One commitment of a registered hotkey. */
  datatype Registered = Registered(uid: nat, hotkey: string, raw: string, block: nat)

  datatype View = View(block: nat, neurons: seq<string>, commitments: seq<Registered>)

  /** The uid a hotkey is known by: its last registration's. */
  function UidOf(neurons: seq<string>, hotkey: string): (uid: Option<nat>)
    ensures uid.Some? ==> uid.value < |neurons| && neurons[uid.value] == hotkey
    ensures uid.None? ==> hotkey !in neurons
  {
    if neurons == [] then None
    else
      var last := |neurons| - 1;
      if neurons[last] == hotkey then Some(last)
      else
        assert hotkey in neurons ==> hotkey in neurons[..last];
        UidOf(neurons[..last], hotkey)
  }

  /** The commitments of the first `count` uids, in uid order. */
  function Listing(neurons: seq<string>, slots: Slots, count: nat): seq<Registered>
    requires count <= |neurons|
  {
    if count == 0 then []
    else
      var uid := count - 1;
      var hotkey := neurons[uid];
      Listing(neurons, slots, uid) +
      (if hotkey in slots && UidOf(neurons, hotkey) == Some(uid)
       then [Registered(uid, hotkey, slots[hotkey].payload, slots[hotkey].block)] else [])
  }

  /** An entry shows what the hotkey's slot holds, under the uid the hotkey is known by. */
  predicate Shows(neurons: seq<string>, slots: Slots, entry: Registered) {
    && entry.hotkey in slots && UidOf(neurons, entry.hotkey) == Some(entry.uid)
    && Landed(entry.raw, entry.block) == slots[entry.hotkey]
  }

  ghost predicate ByUid(neurons: seq<string>, slots: Slots, listed: seq<Registered>, count: nat) {
    && (forall i :: 0 <= i < |listed| ==> listed[i].uid < count && Shows(neurons, slots, listed[i]))
    && (forall i, j :: 0 <= i < j < |listed| ==> listed[i].uid < listed[j].uid)
  }

  /** The view shows what the slots of registered hotkeys hold and nothing else, by increasing uid. */
  lemma {:induction false} ListingIsByUid(neurons: seq<string>, slots: Slots, count: nat)
    requires count <= |neurons|
    ensures ByUid(neurons, slots, Listing(neurons, slots, count), count)
  {
    if count > 0 {
      ListingIsByUid(neurons, slots, count - 1);
    }
  }

  /** And it shows the slot of every registered hotkey that has one. */
  lemma {:induction false} ListingIsWhole(neurons: seq<string>, slots: Slots, count: nat, hotkey: string)
    requires count <= |neurons| && hotkey in slots
    requires UidOf(neurons, hotkey).Some? && UidOf(neurons, hotkey).value < count
    ensures var uid := UidOf(neurons, hotkey).value;
            Registered(uid, hotkey, slots[hotkey].payload, slots[hotkey].block) in Listing(neurons, slots, count)
  {
    if UidOf(neurons, hotkey).value < count - 1 {
      ListingIsWhole(neurons, slots, count - 1, hotkey);
    }
  }

  /** What a reader of a view finds under a hotkey. */
  function EntryOf(listed: seq<Registered>, hotkey: string): (entry: Option<Registered>)
    ensures entry.Some? ==> entry.value in listed && entry.value.hotkey == hotkey
    ensures entry.None? ==> forall other :: other in listed ==> other.hotkey != hotkey
  {
    if listed == [] then None
    else if listed[0].hotkey == hotkey then Some(listed[0])
    else EntryOf(listed[1..], hotkey)
  }

  /** It is the hotkey's slot, if the hotkey is registered and has one, and otherwise nothing. */
  lemma EntryIsTheSlot(neurons: seq<string>, slots: Slots, hotkey: string)
    ensures EntryOf(Listing(neurons, slots, |neurons|), hotkey) ==
            if hotkey in slots && UidOf(neurons, hotkey).Some?
            then Some(Registered(UidOf(neurons, hotkey).value, hotkey, slots[hotkey].payload, slots[hotkey].block))
            else None
  {
    var listed := Listing(neurons, slots, |neurons|);
    ListingIsByUid(neurons, slots, |neurons|);
    var found := EntryOf(listed, hotkey);
    if found.Some? {
      var i :| 0 <= i < |listed| && listed[i] == found.value;
      assert Shows(neurons, slots, listed[i]);
    } else if hotkey in slots && UidOf(neurons, hotkey).Some? {
      ListingIsWhole(neurons, slots, |neurons|, hotkey);
      assert false;
    }
  }

  /** The view at a height: the registered hotkeys, with what the archive has of their slots. */
  function ViewOf(s: ChainState, neurons: seq<string>, height: nat): View {
    View(height, neurons, Listing(neurons, s.SlotsAt(height), |neurons|))
  }

  // ---------------------------------------------------------------- the chain object

  class FakeChain {
    const ownHotkey: string
    /** The registered hotkeys; a neuron's uid is its place. */
    var neurons: seq<string>
    var block: nat
    var live: Slots
    var history: map<nat, Slots>
    var submitted: seq<Vector>
    var failReads: bool
    var failSubmit: bool

    ghost function Now(): ChainState
      reads this
    {
      ChainState(block, live, history, submitted, failReads, failSubmit)
    }

    constructor (ownHotkey: string, block: nat)
      ensures this.ownHotkey == ownHotkey && neurons == []
      ensures Now() == ChainState(block, map[], map[], [], false, false) && Now().Valid()
    {
      this.ownHotkey, this.neurons, this.block := ownHotkey, [], block;
      live, history, submitted, failReads, failSubmit := map[], map[], [], false, false;
    }

    method Register(hotkey: string) returns (uid: nat)
      modifies this`neurons
      ensures uid == |old(neurons)| && neurons == old(neurons) + [hotkey]
    {
      uid := |neurons|;
      neurons := neurons + [hotkey];
    }

    /** The chain becomes unreachable, or reachable again, and so for submissions. */
    method Switch(failReads: bool, failSubmit: bool)
      modifies this`failReads, this`failSubmit
      ensures Now() == old(Now()).(failReads := failReads, failSubmit := failSubmit)
    {
      this.failReads, this.failSubmit := failReads, failSubmit;
    }

    method CurrentBlock() returns (r: Result<nat, ChainError>)
      ensures r == if failReads then Failure(Unreachable) else Success(block)
    {
      return if failReads then Failure(Unreachable) else Success(block);
    }

    /** The registered hotkeys' live commitments, by uid. */
    method CurrentView() returns (r: Result<View, ChainError>)
      ensures r == if failReads then Failure(Unreachable)
                   else Success(View(block, neurons, Listing(neurons, live, |neurons|)))
    {
      if failReads {
        return Failure(Unreachable);
      }
      var listed := Build(live);
      return Success(View(block, neurons, listed));
    }

    method AdvanceBy(blocks: nat)
      modifies this`block, this`history
      ensures Now() == old(Now()).Advance(blocks)
    {
      history := history[block := live];
      block := block + blocks;
    }

    method PublishCommitment(payload: string) returns (r: Result<nat, ChainError>)
      modifies this`live, this`history
      ensures r == if failReads then Failure(Unreachable) else Success(block)
      ensures Now() == if failReads then old(Now()) else old(Now()).Publish(ownHotkey, payload)
    {
      if failReads {
        return Failure(Unreachable);
      }
      live := live[ownHotkey := Landed(payload, block)];
      history := history[block := live];
      return Success(block);
    }

    /** A block's hash is given out only once the block is in the past. */
    method BlockHash(height: int, digest: int -> seq<Byte>) returns (r: Result<seq<Byte>, ChainError>)
      ensures r == if failReads then Failure(Unreachable)
                   else if height >= block then Failure(HashNotFinal)
                   else Success(digest(height))
    {
      if failReads {
        return Failure(Unreachable);
      }
      if height >= block {
        return Failure(HashNotFinal);
      }
      return Success(digest(height));
    }

    /** The registered hotkeys' commitments as the archive has them at a height, by uid. */
    method ViewAt(height: nat) returns (r: Result<View, ChainError>)
      ensures r == if failReads then Failure(Unreachable)
                   else Success(ViewOf(Now(), neurons, height))
    {
      if failReads {
        return Failure(Unreachable);
      }
      var nearest: Option<nat> := None;
      var todo := history.Keys;
      while todo != {}
        invariant todo <= history.Keys
        invariant nearest.Some? ==> nearest.value in history && nearest.value <= height
        invariant forall h: nat :: h in history && h !in todo && h <= height ==> nearest.Some? && h <= nearest.value
        decreases |todo|
      {
        var h :| h in todo;
        todo := todo - {h};
        if h <= height && (nearest.None? || nearest.value < h) {
          nearest := Some(h);
        }
      }
      NearestIsLatest(history, height);
      assert nearest == Nearest(history, height);
      var listed := Build(if nearest.None? then map[] else history[nearest.value]);
      return Success(View(height, neurons, listed));
    }

    method Build(slots: Slots) returns (listed: seq<Registered>)
      ensures listed == Listing(neurons, slots, |neurons|)
    {
      listed := [];
      for uid := 0 to |neurons|
        invariant listed == Listing(neurons, slots, uid)
      {
        var hotkey := neurons[uid];
        if hotkey in slots && UidOf(neurons, hotkey) == Some(uid) {
          listed := listed + [Registered(uid, hotkey, slots[hotkey].payload, slots[hotkey].block)];
        }
      }
    }

    method SubmitWeights(uids: seq<int>, weights: seq<int>) returns (error: Option<ChainError>)
      modifies this`submitted
      ensures error == if failSubmit then Some(SubmissionRefused)
                       else if uids == [] then Some(EmptyVector)
                       else if |uids| != |weights| then Some(LengthMismatch)
                       else None
      ensures Now() == if error.Some? then old(Now()) else old(Now()).Submit(uids, weights)
    {
      if failSubmit {
        return Some(SubmissionRefused);
      }
      if uids == [] {
        return Some(EmptyVector);
      }
      if |uids| != |weights| {
        return Some(LengthMismatch);
      }
      submitted := submitted + [Vector(uids, weights, block)];
      return None;
    }
  }
}
