/** The daily seed's input and the seeded deal of slots (protocol/seeds.py). */
module Seeds {
  import opened Wrappers
  import opened Names

  datatype SeedError =
    | ShortSalt
    | SaltMismatch
    | MissingDateOrHotkey
    | MissingBlockHash
    | FieldTooLong
    | BadSlotCount(family: string)
    | NoSlots

  const MINIMUM_SALT_BYTES := 32
  const FIELD_LIMIT := 0x1_0000_0000

  // ---------------------------------------------------------------- the seed's input

  /** A length in four bytes, most significant first. */
  function BigEndian4(n: nat): seq<Byte>
    requires n < FIELD_LIMIT
  {
    [n / 0x100_0000, n / 0x1_0000 % 256, n / 256 % 256, n % 256]
  }

  lemma BigEndian4Injective(m: nat, n: nat)
    requires m < FIELD_LIMIT && n < FIELD_LIMIT && BigEndian4(m) == BigEndian4(n)
    ensures m == n
  {
    var x, y := BigEndian4(m), BigEndian4(n);
    assert x[0] == y[0] && x[1] == y[1] && x[2] == y[2] && x[3] == y[3];
    FourDigits(m);
    FourDigits(n);
  }

  lemma FourDigits(n: nat)
    requires n < FIELD_LIMIT
    ensures n == ((n / 0x100_0000 * 256 + n / 0x1_0000 % 256) * 256 + n / 256 % 256) * 256 + n % 256
  {
    assert n / 0x1_0000 == n / 0x100_0000 * 256 + n / 0x1_0000 % 256;
    assert n / 256 == n / 0x1_0000 * 256 + n / 256 % 256;
  }

  predicate Fits(fields: seq<seq<Byte>>) {
    forall i :: 0 <= i < |fields| ==> |fields[i]| < FIELD_LIMIT
  }

  /** Each field after its length. */
  function Prefixed(fields: seq<seq<Byte>>): seq<Byte>
    requires Fits(fields)
  {
    if fields == [] then [] else BigEndian4(|fields[0]|) + fields[0] + Prefixed(fields[1..])
  }

  /** No two lists of fields are laid out as the same bytes. */
  lemma {:induction false} PrefixedInjective(a: seq<seq<Byte>>, b: seq<seq<Byte>>)
    requires Fits(a) && Fits(b) && Prefixed(a) == Prefixed(b)
    ensures a == b
    decreases |a|
  {
    if a != [] && b != [] {
      var x, y := Prefixed(a), Prefixed(b);
      assert x[..4] == BigEndian4(|a[0]|) && y[..4] == BigEndian4(|b[0]|);
      BigEndian4Injective(|a[0]|, |b[0]|);
      assert x[4..4 + |a[0]|] == a[0] && y[4..4 + |b[0]|] == b[0];
      assert x[4 + |a[0]|..] == Prefixed(a[1..]) && y[4 + |b[0]|..] == Prefixed(b[1..]);
      PrefixedInjective(a[1..], b[1..]);
      assert a == [a[0]] + a[1..] && b == [b[0]] + b[1..];
    }
  }

  function VerifySalt(salt: seq<Byte>, commitment: string, commit: seq<Byte> -> string): Option<SeedError> {
    if |salt| < MINIMUM_SALT_BYTES then Some(ShortSalt)
    else if commit(salt) != commitment then Some(SaltMismatch)
    else None
  }

  /** The bytes hashed into the daily seed, after its label. `commit` is the salt's digest. */
  function DailySeedInput(date: seq<Byte>, hotkey: seq<Byte>, salt: seq<Byte>, blockHash: seq<Byte>,
                          commitment: Option<string>, commit: seq<Byte> -> string): Result<seq<Byte>, SeedError>
  {
    var verdict :=
      if commitment.Some? then VerifySalt(salt, commitment.value, commit)
      else if |salt| < MINIMUM_SALT_BYTES then Some(ShortSalt)
      else None;
    if verdict.Some? then Failure(verdict.value)
    else if date == [] || hotkey == [] then Failure(MissingDateOrHotkey)
    else if blockHash == [] then Failure(MissingBlockHash)
    else if !Fits([date, hotkey, salt, blockHash]) then Failure(FieldTooLong)
    else Success(Prefixed([date, hotkey, salt, blockHash]))
  }

  /** Every input counts: two seeds are derived from the same bytes only for the same date, hotkey,
      salt and block hash, and then under the same commitment. */
  lemma SeedBindsItsInputs(d1: seq<Byte>, h1: seq<Byte>, s1: seq<Byte>, b1: seq<Byte>, c1: Option<string>,
                           d2: seq<Byte>, h2: seq<Byte>, s2: seq<Byte>, b2: seq<Byte>, c2: Option<string>,
                           commit: seq<Byte> -> string)
    requires DailySeedInput(d1, h1, s1, b1, c1, commit).Success?
    requires DailySeedInput(d1, h1, s1, b1, c1, commit) == DailySeedInput(d2, h2, s2, b2, c2, commit)
    ensures d1 == d2 && h1 == h2 && s1 == s2 && b1 == b2
    ensures c1.Some? && c2.Some? ==> c1 == c2 == Some(commit(s1))
  {
    var a, b := [d1, h1, s1, b1], [d2, h2, s2, b2];
    PrefixedInjective(a, b);
    assert a[0] == b[0] && a[1] == b[1] && a[2] == b[2] && a[3] == b[3];
  }

  // ---------------------------------------------------------------- the stream of draws

  function FromBigEndian(bytes: seq<Byte>): nat {
    if bytes == [] then 0 else FromBigEndian(bytes[..|bytes| - 1]) * 256 + bytes[|bytes| - 1]
  }

  /** Draw `k` of the stream whose hash blocks are `block`: four draws of eight bytes a block. */
  function Draw(block: nat -> seq<Byte>, k: nat): nat
    requires forall c :: |block(c)| == 32
  {
    FromBigEndian(block(k / 4)[k % 4 * 8..k % 4 * 8 + 8])
  }

  /** The generator of draws: a counter of hash blocks and an offset into the current one. */
  class SeededStream {
    const block: nat -> seq<Byte>
    var counter: nat
    var offset: nat

    ghost predicate Valid()
      reads this
    {
      (forall c :: |block(c)| == 32) && offset % 8 == 0 && offset < 32
    }

    ghost function Position(): nat
      reads this
    {
      counter * 4 + offset / 8
    }

    constructor (block: nat -> seq<Byte>)
      requires forall c :: |block(c)| == 32
      ensures Valid() && Position() == 0 && this.block == block
    {
      this.block := block;
      counter, offset := 0, 0;
    }

    method Next() returns (value: nat)
      requires Valid()
      modifies this
      ensures Valid() && Position() == old(Position()) + 1 && value == Draw(block, old(Position()))
    {
      value := FromBigEndian(block(counter)[offset..offset + 8]);
      if offset + 8 < 32 {
        offset := offset + 8;
      } else {
        counter, offset := counter + 1, 0;
      }
    }
  }

  // ---------------------------------------------------------------- the shuffle

  function Swap<T>(s: seq<T>, i: nat, j: nat): seq<T>
    requires i < |s| && j < |s|
  {
    s[i := s[j]][j := s[i]]
  }

  lemma SwapPermutes<T>(s: seq<T>, i: nat, j: nat)
    requires i < |s| && j < |s|
    ensures multiset(Swap(s, i, j)) == multiset(s)
  {
  }

  /** One choice per place: the place at index `i` is swapped with one of the places up to it. */
  predicate Choices(js: seq<nat>) {
    forall i :: 0 <= i < |js| ==> js[i] <= i
  }

  /** The deal under given choices: the last place is filled, then the places before it. */
  function Arrange<T>(s: seq<T>, js: seq<nat>): (dealt: seq<T>)
    requires |js| == |s| && Choices(js)
    ensures |dealt| == |s|
    decreases |s|
  {
    if s == [] then []
    else
      var n := |s| - 1;
      var t := Swap(s, n, js[n]);
      Arrange(t[..n], js[..n]) + [t[n]]
  }

  /** The deal gives out exactly what was in the pool. */
  lemma {:induction false} ArrangePermutes<T>(s: seq<T>, js: seq<nat>)
    requires |js| == |s| && Choices(js)
    ensures multiset(Arrange(s, js)) == multiset(s)
    decreases |s|
  {
    if s != [] {
      var n := |s| - 1;
      var t := Swap(s, n, js[n]);
      LastCounted(s, js);
      LastSplit(t);
      SwapPermutes(s, n, js[n]);
      ArrangePermutes(t[..n], js[..n]);
    }
  }

  lemma LastCounted<T>(s: seq<T>, js: seq<nat>)
    requires |js| == |s| && Choices(js) && s != []
    ensures var n := |s| - 1; var t := Swap(s, n, js[n]);
            multiset(Arrange(s, js)) == multiset(Arrange(t[..n], js[..n])) + multiset{t[n]}
  {
    ArrangeLast(s, js);
  }

  lemma LastSplit<T>(s: seq<T>)
    requires s != []
    ensures multiset(s) == multiset(s[..|s| - 1]) + multiset{s[|s| - 1]}
  {
    assert s == s[..|s| - 1] + [s[|s| - 1]];
  }

  ghost predicate Distinct<T>(s: seq<T>) {
    forall i, j :: 0 <= i < j < |s| ==> s[i] != s[j]
  }

  lemma SwapDistinct<T>(s: seq<T>, i: nat, j: nat)
    requires Distinct(s) && i < |s| && j < |s|
    ensures Distinct(Swap(s, i, j))
  {
  }

  /** Different choices deal differently. */
  lemma {:induction false} ArrangeInjective<T>(s: seq<T>, js: seq<nat>, ks: seq<nat>)
    requires |js| == |s| == |ks| && Choices(js) && Choices(ks) && Distinct(s)
    requires Arrange(s, js) == Arrange(s, ks)
    ensures js == ks
    decreases |s|
  {
    if s != [] {
      var n := |s| - 1;
      var t := Swap(s, n, js[n]);
      SameDeal(s, js, ks);
      SwapDistinct(s, n, js[n]);
      DistinctFront(t, n);
      ArrangeInjective(t[..n], js[..n], ks[..n]);
      SameButForLast(js, ks);
    }
  }

  lemma DistinctFront<T>(s: seq<T>, n: nat)
    requires Distinct(s) && n <= |s|
    ensures Distinct(s[..n])
  {
  }

  lemma SameButForLast(js: seq<nat>, ks: seq<nat>)
    requires |js| == |ks| > 0 && js[..|js| - 1] == ks[..|ks| - 1] && js[|js| - 1] == ks[|ks| - 1]
    ensures js == ks
  {
    assert js == js[..|js| - 1] + [js[|js| - 1]];
  }

  lemma SameDeal<T>(s: seq<T>, js: seq<nat>, ks: seq<nat>)
    requires |js| == |s| == |ks| && Choices(js) && Choices(ks) && Distinct(s) && s != []
    requires Arrange(s, js) == Arrange(s, ks)
    ensures var n := |s| - 1; var t := Swap(s, n, js[n]);
            js[n] == ks[n] && Arrange(t[..n], js[..n]) == Arrange(t[..n], ks[..n])
  {
    var n := |s| - 1;
    var t, u := Swap(s, n, js[n]), Swap(s, n, ks[n]);
    ArrangeLast(s, js);
    ArrangeLast(s, ks);
    SameEnds(Arrange(t[..n], js[..n]), t[n], Arrange(u[..n], ks[..n]), u[n]);
    SwapLast(s, js[n]);
    SwapLast(s, ks[n]);
  }

  lemma SwapLast<T>(s: seq<T>, j: nat)
    requires j < |s|
    ensures Swap(s, |s| - 1, j)[|s| - 1] == s[j]
  {
  }

  lemma SameEnds<T>(a: seq<T>, x: T, b: seq<T>, y: T)
    requires a + [x] == b + [y]
    ensures a == b && x == y
  {
    assert |a + [x]| == |b + [y]|;
    assert a == (a + [x])[..|a|] && b == (b + [y])[..|a|];
    assert (a + [x])[|a|] == (b + [y])[|a|];
  }

  /** Every order of the pool is dealt under some choices. */
  lemma {:induction false} ArrangeReaches<T>(s: seq<T>, target: seq<T>) returns (js: seq<nat>)
    requires multiset(s) == multiset(target)
    ensures |js| == |s| && Choices(js) && Arrange(s, js) == target
    decreases |s|
  {
    assert |multiset(s)| == |multiset(target)|;
    if s == [] {
      return [];
    }
    var n := |s| - 1;
    var j := PlaceOf(s, target[n]);
    var t := Swap(s, n, j);
    SwapPermutes(s, n, j);
    SameButLast(t, target);
    var rest := ArrangeReaches(t[..n], target[..n]);
    js := rest + [j];
    OneMorePlace(s, j, rest, target);
  }

  /** Choices that deal the front of the target, after one that deals its last, deal the target. */
  lemma OneMorePlace<T>(s: seq<T>, j: nat, rest: seq<nat>, target: seq<T>)
    requires s != [] && |rest| == |s| - 1 == |target| - 1 && Choices(rest) && j < |s| && s[j] == target[|s| - 1]
    requires Arrange(Swap(s, |s| - 1, j)[..|s| - 1], rest) == target[..|s| - 1]
    ensures Choices(rest + [j]) && Arrange(s, rest + [j]) == target
  {
    var n, js := |s| - 1, rest + [j];
    assert js[..n] == rest && js[n] == j;
    ChoicesGrow(rest, j);
    ArrangeLast(s, js);
    assert Swap(s, n, j)[n] == s[j];
    assert target == target[..n] + [target[n]];
  }

  lemma ChoicesGrow(rest: seq<nat>, j: nat)
    requires Choices(rest) && j <= |rest|
    ensures Choices(rest + [j])
  {
  }

  lemma ArrangeLast<T>(s: seq<T>, js: seq<nat>)
    requires |js| == |s| && Choices(js) && s != []
    ensures var n := |s| - 1; var t := Swap(s, n, js[n]);
            Arrange(s, js) == Arrange(t[..n], js[..n]) + [t[n]]
  {
  }

  lemma PlaceOf<T>(s: seq<T>, x: T) returns (j: nat)
    requires x in multiset(s)
    ensures j < |s| && s[j] == x
  {
    j :| 0 <= j < |s| && s[j] == x;
  }

  lemma SameButLast<T>(a: seq<T>, b: seq<T>)
    requires a != [] && |a| == |b| && a[|a| - 1] == b[|b| - 1] && multiset(a) == multiset(b)
    ensures multiset(a[..|a| - 1]) == multiset(b[..|b| - 1])
  {
    LastSplit(a);
    LastSplit(b);
    var n := |a| - 1;
    assert multiset(a[..n]) == multiset(a) - multiset{a[n]};
    assert multiset(b[..n]) == multiset(b) - multiset{b[n]};
  }

  /** The choices that draws from position `from` of the stream make, the last place first. */
  function ChoicesOf(block: nat -> seq<Byte>, from: nat, count: nat): (js: seq<nat>)
    requires forall c :: |block(c)| == 32
    ensures |js| == count && Choices(js)
    decreases count
  {
    if count == 0 then []
    else if count == 1 then [0]
    else ChoicesOf(block, from + 1, count - 1) + [Draw(block, from) % count]
  }

  /** Shuffles in place, from the last place down, one draw a place. */
  method Shuffle<T>(a: array<T>, stream: SeededStream)
    requires stream.Valid()
    modifies a, stream
    ensures stream.Valid()
    ensures a[..] == Arrange(old(a[..]), ChoicesOf(stream.block, old(stream.Position()), a.Length))
  {
    var left := a.Length;
    ghost var goal := Outcome(stream.block, stream.Position(), a[..], left);
    WholeOutcome(stream.block, stream.Position(), a[..]);
    while left > 1
      invariant 0 <= left <= a.Length && stream.Valid()
      invariant Outcome(stream.block, stream.Position(), a[..], left) == goal
    {
      ShuffleStep(stream.block, stream.Position(), a[..], left);
      PlaceOne(a, stream, left);
      left := left - 1;
    }
    NothingLeft(stream.block, stream.Position(), a[..], left);
  }

  /** One turn of the loop: draws, and fills the place before `left`. */
  method PlaceOne<T>(a: array<T>, stream: SeededStream, left: nat)
    requires stream.Valid() && 1 < left <= a.Length
    modifies a, stream
    ensures stream.Valid() && stream.Position() == old(stream.Position()) + 1
    ensures a[..] == Swap(old(a[..]), left - 1, Draw(stream.block, old(stream.Position())) % left)
  {
    var draw := stream.Next();
    SwapInPlace(a, left - 1, draw % left);
  }

  /** What the shuffle ends with when the places from `left` on are final. */
  ghost function Outcome<T>(block: nat -> seq<Byte>, at: nat, s: seq<T>, left: nat): seq<T>
    requires (forall c :: |block(c)| == 32) && left <= |s|
  {
    Arrange(s[..left], ChoicesOf(block, at, left)) + s[left..]
  }

  lemma WholeOutcome<T>(block: nat -> seq<Byte>, at: nat, s: seq<T>)
    requires forall c :: |block(c)| == 32
    ensures Outcome(block, at, s, |s|) == Arrange(s, ChoicesOf(block, at, |s|))
  {
    assert s[..|s|] == s;
  }

  lemma NothingLeft<T>(block: nat -> seq<Byte>, at: nat, s: seq<T>, left: nat)
    requires (forall c :: |block(c)| == 32) && left <= |s| && left <= 1
    ensures Outcome(block, at, s, left) == s
  {
    assert Arrange(s[..left], ChoicesOf(block, at, left)) == s[..left];
  }

  lemma ShuffleStep<T>(block: nat -> seq<Byte>, at: nat, s: seq<T>, left: nat)
    requires (forall c :: |block(c)| == 32) && 1 < left <= |s|
    ensures Outcome(block, at, s, left) == Outcome(block, at + 1, Swap(s, left - 1, Draw(block, at) % left), left - 1)
  {
    var index, swap := left - 1, Draw(block, at) % left;
    var front := Swap(s[..left], index, swap);
    NextChoice(block, at, left, s[..left]);
    SwapWithin(s, index, swap);
    Regroup(Arrange(front[..index], ChoicesOf(block, at + 1, index)), [front[index]], s[left..]);
  }

  lemma Regroup<T>(a: seq<T>, b: seq<T>, c: seq<T>)
    ensures a + b + c == a + (b + c)
  {
  }

  method SwapInPlace<T>(a: array<T>, i: nat, j: nat)
    requires i < a.Length && j < a.Length
    modifies a
    ensures a[..] == Swap(old(a[..]), i, j)
  {
    a[i], a[j] := a[j], a[i];
  }

  /** Swapping the last of a front part with one before it leaves what is after the part. */
  lemma SwapWithin<T>(s: seq<T>, index: nat, swap: nat)
    requires swap <= index < |s|
    ensures var front := Swap(s[..index + 1], index, swap);
            && Swap(s, index, swap)[..index] == front[..index]
            && Swap(s, index, swap)[index..] == [front[index]] + s[index + 1..]
  {
  }

  lemma NextChoice<T>(block: nat -> seq<Byte>, at: nat, count: nat, front: seq<T>)
    requires (forall c :: |block(c)| == 32) && count > 1 && |front| == count
    ensures var n := count - 1;
            var swap := Draw(block, at) % count;
            var t := Swap(front, n, swap);
            Arrange(front, ChoicesOf(block, at, count)) == Arrange(t[..n], ChoicesOf(block, at + 1, n)) + [t[n]]
  {
    var js := ChoicesOf(block, at, count);
    assert js[..count - 1] == ChoicesOf(block, at + 1, count - 1);
  }

  // ---------------------------------------------------------------- slot assignment

  datatype Generator = Generator(family: string, slots: int, critic: string)

  function EntryOf(g: Generator): Entry {
    Entry(g.family, g.slots)
  }

  function EntriesOf(generators: seq<Generator>): seq<Entry> {
    if generators == [] then [] else [EntryOf(generators[0])] + EntriesOf(generators[1..])
  }

  /** The first entry without a positive count, in sorted order. */
  function BadEntry(entries: seq<Entry>): Option<SeedError> {
    if entries == [] then None
    else if entries[0].count < 1 then Some(BadSlotCount(entries[0].name))
    else BadEntry(entries[1..])
  }

  /** Each of the day's slots' family: the declared multiset of families, shuffled by the seed. */
  method SlotAssignments(block: nat -> seq<Byte>, generators: seq<Generator>)
    returns (r: Result<seq<string>, SeedError>)
    requires forall c :: |block(c)| == 32
    ensures r.Success? ==>
              var pool := Expand(SortEntries(EntriesOf(generators)));
              && r.value == Arrange(pool, ChoicesOf(block, 0, |pool|))
              && r.value != []
              && forall family :: multiset(r.value)[family] == Declared(EntriesOf(generators), family)
    ensures r.Success? <==> generators != [] && BadEntry(SortEntries(EntriesOf(generators))).None?
  {
    var entries := SortEntries(EntriesOf(generators));
    var pool: seq<string> := [];
    for k := 0 to |entries|
      invariant Expand(entries) == pool + Expand(entries[k..])
      invariant BadEntry(entries) == BadEntry(entries[k..])
      invariant k > 0 ==> pool != []
    {
      assert entries[k..][1..] == entries[k + 1..];
      if entries[k].count < 1 {
        return Failure(BadSlotCount(entries[k].name));
      }
      pool := pool + Repeat(entries[k].name, entries[k].count);
    }
    SortEntriesSorts(EntriesOf(generators), "");
    SameSize(generators, entries);
    if pool == [] {
      return Failure(NoSlots);
    }
    assert entries[|entries|..] == [];
    assert pool == Expand(entries);
    var stream := new SeededStream(block);
    var a := new string[|pool|](i requires 0 <= i < |pool| => pool[i]);
    assert a[..] == pool;
    Shuffle(a, stream);
    ArrangePermutes(pool, ChoicesOf(block, 0, |pool|));
    forall family ensures multiset(a[..])[family] == Declared(EntriesOf(generators), family) {
      ExpandCounts(entries, family);
      SortEntriesSorts(EntriesOf(generators), family);
    }
    return Success(a[..]);
  }

  lemma {:induction false} EntriesSize(generators: seq<Generator>)
    ensures |EntriesOf(generators)| == |generators|
  {
    if generators != [] {
      EntriesSize(generators[1..]);
    }
  }

  lemma SameSize(generators: seq<Generator>, entries: seq<Entry>)
    requires multiset(entries) == multiset(EntriesOf(generators))
    ensures |entries| == |generators|
  {
    EntriesSize(generators);
    assert |multiset(entries)| == |multiset(EntriesOf(generators))|;
  }

  /** The deal does not depend on the order in which the generators are listed. */
  lemma SlotsIgnoreListing(block: nat -> seq<Byte>, a: seq<Generator>, b: seq<Generator>)
    requires (forall c :: |block(c)| == 32) && multiset(EntriesOf(a)) == multiset(EntriesOf(b))
    ensures var x, y := Expand(SortEntries(EntriesOf(a))), Expand(SortEntries(EntriesOf(b)));
            Arrange(x, ChoicesOf(block, 0, |x|)) == Arrange(y, ChoicesOf(block, 0, |y|))
  {
    forall name ensures Declared(EntriesOf(a), name) == Declared(EntriesOf(b), name) {
      PermutedDeclare(EntriesOf(a), EntriesOf(b), name);
    }
    PoolIgnoresListing(EntriesOf(a), EntriesOf(b));
  }
}
