/** Names in code-point order, and lists of names with counts. */
module Names {

  /** `a` comes no later than `b` in the order in which strings are sorted. */
  predicate NoLater(a: string, b: string) {
    if a == "" then true
    else if b == "" then false
    else if a[0] != b[0] then a[0] < b[0]
    else NoLater(a[1..], b[1..])
  }

  lemma {:induction false} Total(a: string, b: string)
    ensures NoLater(a, b) || NoLater(b, a)
    ensures NoLater(a, b) && NoLater(b, a) ==> a == b
  {
    if a != "" && b != "" && a[0] == b[0] {
      Total(a[1..], b[1..]);
      assert a == [a[0]] + a[1..] && b == [b[0]] + b[1..];
    }
  }

  lemma {:induction false} Transitive(a: string, b: string, c: string)
    requires NoLater(a, b) && NoLater(b, c)
    ensures NoLater(a, c)
  {
    if a != "" && b != "" && c != "" && a[0] == b[0] == c[0] {
      Transitive(a[1..], b[1..], c[1..]);
    }
  }

  // ---------------------------------------------------------------- sorted names

  ghost predicate InOrder(names: seq<string>) {
    |names| <= 1 || (NoLater(names[0], names[1]) && InOrder(names[1..]))
  }

  lemma {:induction false} FirstIsLeast(names: seq<string>, i: nat)
    requires InOrder(names) && i < |names|
    ensures NoLater(names[0], names[i])
  {
    if i == 0 {
      Total(names[0], names[0]);
    } else {
      FirstIsLeast(names[1..], i - 1);
      Transitive(names[0], names[1], names[i]);
    }
  }

  /** Names with given multiplicities are listed in order in one way. */
  lemma {:induction false} OneListing(a: seq<string>, b: seq<string>)
    requires InOrder(a) && InOrder(b) && multiset(a) == multiset(b)
    ensures a == b
    decreases |a|
  {
    assert |multiset(a)| == |multiset(b)|;
    if a != [] {
      LeastComesFirst(a, b);
      LeastComesFirst(b, a);
      Total(a[0], b[0]);
      RestCounted(a);
      RestCounted(b);
      OneListing(a[1..], b[1..]);
    }
  }

  lemma RestCounted(a: seq<string>)
    requires a != []
    ensures a == [a[0]] + a[1..] && multiset(a[1..]) == multiset(a) - multiset{a[0]}
  {
    assert a == [a[0]] + a[1..];
  }

  lemma LeastComesFirst(a: seq<string>, b: seq<string>)
    requires a != [] && b != [] && InOrder(a) && multiset(a) == multiset(b)
    ensures NoLater(a[0], b[0])
  {
    assert b[0] in multiset(b);
    var i :| 0 <= i < |a| && a[i] == b[0];
    FirstIsLeast(a, i);
  }

  // ---------------------------------------------------------------- names with counts

  datatype Entry = Entry(name: string, count: int)

  function Repeat(name: string, count: int): seq<string> {
    if count <= 0 then [] else [name] + Repeat(name, count - 1)
  }

  /** Each name as often as its count says, entry by entry. */
  function Expand(entries: seq<Entry>): seq<string> {
    if entries == [] then [] else Repeat(entries[0].name, entries[0].count) + Expand(entries[1..])
  }

  /** How many times a name is declared in all. */
  function Declared(entries: seq<Entry>, name: string): nat {
    if entries == [] then 0
    else
      (if entries[0].name == name && entries[0].count > 0 then entries[0].count else 0) + Declared(entries[1..], name)
  }

  lemma {:induction false} RepeatCounts(name: string, count: int, other: string)
    ensures multiset(Repeat(name, count))[other] == if other == name && count > 0 then count else 0
  {
    if count > 0 {
      RepeatCounts(name, count - 1, other);
    }
  }

  lemma {:induction false} ExpandCounts(entries: seq<Entry>, name: string)
    ensures multiset(Expand(entries))[name] == Declared(entries, name)
  {
    if entries != [] {
      RepeatCounts(entries[0].name, entries[0].count, name);
      ExpandCounts(entries[1..], name);
    }
  }

  /** Stable insertion by name. */
  function InsertEntry(e: Entry, entries: seq<Entry>): seq<Entry> {
    if entries == [] || NoLater(e.name, entries[0].name) then [e] + entries
    else [entries[0]] + InsertEntry(e, entries[1..])
  }

  function SortEntries(entries: seq<Entry>): seq<Entry> {
    if entries == [] then [] else InsertEntry(entries[0], SortEntries(entries[1..]))
  }

  ghost predicate EntriesInOrder(entries: seq<Entry>) {
    |entries| <= 1 || (NoLater(entries[0].name, entries[1].name) && EntriesInOrder(entries[1..]))
  }

  lemma {:induction false} InsertEntryInOrder(e: Entry, entries: seq<Entry>)
    requires EntriesInOrder(entries)
    ensures EntriesInOrder(InsertEntry(e, entries))
    ensures InsertEntry(e, entries)[0] == e || (entries != [] && InsertEntry(e, entries)[0] == entries[0])
  {
    if entries == [] || NoLater(e.name, entries[0].name) {
      assert ([e] + entries)[1..] == entries;
    } else {
      Total(e.name, entries[0].name);
      InsertEntryInOrder(e, entries[1..]);
      assert InsertEntry(e, entries)[1..] == InsertEntry(e, entries[1..]);
    }
  }

  lemma {:induction false} InsertEntryKeeps(e: Entry, entries: seq<Entry>)
    ensures multiset(InsertEntry(e, entries)) == multiset{e} + multiset(entries)
  {
    if entries != [] && !NoLater(e.name, entries[0].name) {
      InsertEntryKeeps(e, entries[1..]);
      assert entries == [entries[0]] + entries[1..];
    }
  }

  lemma {:induction false} InsertEntryDeclares(e: Entry, entries: seq<Entry>, name: string)
    ensures Declared(InsertEntry(e, entries), name) == Declared([e], name) + Declared(entries, name)
  {
    assert [e][1..] == [];
    if entries == [] || NoLater(e.name, entries[0].name) {
      assert ([e] + entries)[1..] == entries;
    } else {
      InsertEntryDeclares(e, entries[1..], name);
      assert InsertEntry(e, entries)[1..] == InsertEntry(e, entries[1..]);
    }
  }

  lemma {:induction false} SortEntriesSorts(entries: seq<Entry>, name: string)
    ensures EntriesInOrder(SortEntries(entries)) && multiset(SortEntries(entries)) == multiset(entries)
    ensures Declared(SortEntries(entries), name) == Declared(entries, name)
  {
    if entries != [] {
      SortEntriesSorts(entries[1..], name);
      InsertEntryInOrder(entries[0], SortEntries(entries[1..]));
      InsertEntryKeeps(entries[0], SortEntries(entries[1..]));
      InsertEntryDeclares(entries[0], SortEntries(entries[1..]), name);
      assert entries == [entries[0]] + entries[1..];
      assert [entries[0]][1..] == [];
    }
  }

  /** Expanding entries that are in order lists names in order. */
  lemma {:induction false} ExpandInOrder(entries: seq<Entry>)
    requires EntriesInOrder(entries)
    ensures InOrder(Expand(entries))
    ensures forall n :: n in Expand(entries) ==> entries != [] && NoLater(entries[0].name, n)
  {
    if entries != [] {
      ExpandInOrder(entries[1..]);
      var name, rest := entries[0].name, Expand(entries[1..]);
      Total(name, name);
      forall n | n in rest ensures NoLater(name, n) {
        Transitive(name, entries[1].name, n);
      }
      RepeatInOrder(name, entries[0].count, rest);
    }
  }

  lemma {:induction false} RepeatInOrder(name: string, count: int, rest: seq<string>)
    requires InOrder(rest) && forall n :: n in rest ==> NoLater(name, n)
    ensures InOrder(Repeat(name, count) + rest)
    ensures forall n :: n in Repeat(name, count) + rest ==> NoLater(name, n)
  {
    Total(name, name);
    if count <= 0 {
      assert Repeat(name, count) + rest == rest;
    } else {
      RepeatInOrder(name, count - 1, rest);
      var tail := Repeat(name, count - 1) + rest;
      assert Repeat(name, count) + rest == [name] + tail;
      assert ([name] + tail)[1..] == tail;
    }
  }

  /** The pool dealt from does not depend on the order in which its entries are written. */
  lemma PoolIgnoresListing(a: seq<Entry>, b: seq<Entry>)
    requires forall name :: Declared(a, name) == Declared(b, name)
    ensures Expand(SortEntries(a)) == Expand(SortEntries(b))
  {
    var x, y := SortEntries(a), SortEntries(b);
    forall name ensures multiset(Expand(x))[name] == multiset(Expand(y))[name] {
      SortEntriesSorts(a, name);
      SortEntriesSorts(b, name);
      ExpandCounts(x, name);
      ExpandCounts(y, name);
    }
    SortEntriesSorts(a, "");
    SortEntriesSorts(b, "");
    ExpandInOrder(x);
    ExpandInOrder(y);
    OneListing(Expand(x), Expand(y));
  }

  /** Listing the same entries in another order declares the same counts. */
  lemma {:induction false} PermutedDeclare(a: seq<Entry>, b: seq<Entry>, name: string)
    requires multiset(a) == multiset(b)
    ensures Declared(a, name) == Declared(b, name)
    decreases |a|
  {
    assert |multiset(a)| == |multiset(b)|;
    if a != [] {
      var i := IndexOf(b, a[0]);
      TakeOut(a, 0, name);
      TakeOut(b, i, name);
      PermutedDeclare(Without(a, 0), Without(b, i), name);
    }
  }

  function Without(entries: seq<Entry>, i: nat): seq<Entry>
    requires i < |entries|
  {
    entries[..i] + entries[i + 1..]
  }

  lemma IndexOf(entries: seq<Entry>, e: Entry) returns (i: nat)
    requires e in multiset(entries)
    ensures i < |entries| && entries[i] == e
  {
    i :| 0 <= i < |entries| && entries[i] == e;
  }

  lemma TakeOut(entries: seq<Entry>, i: nat, name: string)
    requires i < |entries|
    ensures var rest := Without(entries, i);
            && |rest| == |entries| - 1 && multiset(rest) == multiset(entries) - multiset{entries[i]}
            && Declared(entries, name) == Declared([entries[i]], name) + Declared(rest, name)
  {
    var before, one, after := entries[..i], [entries[i]], entries[i + 1..];
    assert entries == before + (one + after);
    DeclaredSplit(before, one + after, name);
    DeclaredSplit(one, after, name);
    DeclaredSplit(before, after, name);
  }

  lemma {:induction false} DeclaredSplit(a: seq<Entry>, b: seq<Entry>, name: string)
    ensures Declared(a + b, name) == Declared(a, name) + Declared(b, name)
  {
    if a == [] {
      assert a + b == b;
    } else {
      assert (a + b)[1..] == a[1..] + b;
      DeclaredSplit(a[1..], b, name);
    }
  }
}
