/** The day's plan: a domain and a family for every slot (validator/challenge_factory/taxonomy.py). */
module Taxonomy {
  import opened Wrappers
  import opened Names
  import opened Seeds

  const EXCLUDED_DOMAINS: set<string> := {
    "clinical_or_medical_treatment",
    "wet_lab_chemistry_or_biology",
    "physical_engineering_requiring_measurement",
    "legal_or_policy",
    "weapons_malware_or_exploits",
    "broad_artistic_ideation",
    "long_horizon_real_world_outcomes"
  }

  datatype TaxonomyError =
    | EmptyPack
    | WrongTotal
    | UnknownDomain
    | ForbiddenDomain
    | EmptyDomain(domain: string)
    | Seed(error: SeedError)
    | SlotCountsDisagree
    | NoCritic(slot: nat)

  /** `stratification` lists a dictionary's items in the order in which they are written. */
  datatype Taxonomy = Taxonomy(
    domains: set<string>,
    challengesPerDay: int,
    stratification: seq<Entry>,
    excludedDomains: set<string>)
  {
    function Validate(): Option<TaxonomyError> {
      var named := set e | e in stratification :: e.name;
      if challengesPerDay < 1 then Some(EmptyPack)
      else if TotalCount(stratification) != challengesPerDay then Some(WrongTotal)
      else if !(named <= domains) then Some(UnknownDomain)
      else if (domains + named) * (excludedDomains + EXCLUDED_DOMAINS) != {} then Some(ForbiddenDomain)
      else
        match BadEntry(SortEntries(stratification))
        case Some(BadSlotCount(domain)) => Some(EmptyDomain(domain))
        case _ => None
    }
  }

  function TotalCount(entries: seq<Entry>): int {
    if entries == [] then 0 else entries[0].count + TotalCount(entries[1..])
  }

  datatype Slot = Slot(index: nat, domain: string, family: string, critic: string)

  /** A valid taxonomy schedules no domain excluded from scoring, whatever the season omits. */
  lemma NothingExcludedIsScheduled(t: Taxonomy, e: Entry)
    requires t.Validate().None? && e in t.stratification
    ensures e.name !in EXCLUDED_DOMAINS && e.name !in t.excludedDomains && e.name in t.domains
  {
    var named := set f | f in t.stratification :: f.name;
    assert e.name in named;
    var forbidden := (t.domains + named) * (t.excludedDomains + EXCLUDED_DOMAINS);
    assert e.name !in forbidden;
  }

  lemma {:induction false} PositiveCounts(entries: seq<Entry>)
    requires BadEntry(entries).None?
    ensures |Expand(entries)| == TotalCount(entries)
  {
    if entries != [] {
      RepeatLength(entries[0].name, entries[0].count);
      PositiveCounts(entries[1..]);
    }
  }

  lemma {:induction false} RepeatLength(name: string, count: int)
    requires count >= 0
    ensures |Repeat(name, count)| == count
  {
    if count > 0 {
      RepeatLength(name, count - 1);
    }
  }

  lemma {:induction false} InsertTotal(e: Entry, entries: seq<Entry>)
    ensures TotalCount(InsertEntry(e, entries)) == e.count + TotalCount(entries)
  {
    if entries == [] || NoLater(e.name, entries[0].name) {
      assert ([e] + entries)[1..] == entries;
    } else {
      InsertTotal(e, entries[1..]);
      assert InsertEntry(e, entries)[1..] == InsertEntry(e, entries[1..]);
    }
  }

  lemma {:induction false} SortTotal(entries: seq<Entry>)
    ensures TotalCount(SortEntries(entries)) == TotalCount(entries)
  {
    if entries != [] {
      SortTotal(entries[1..]);
      InsertTotal(entries[0], SortEntries(entries[1..]));
    }
  }

  /** A valid taxonomy's pool of domains fills the pack. */
  lemma DomainsFillThePack(t: Taxonomy)
    requires t.Validate().None?
    ensures |Expand(SortEntries(t.stratification))| == t.challengesPerDay
  {
    assert BadEntry(SortEntries(t.stratification)).None? by { BadIsSlotCount(SortEntries(t.stratification)); }
    PositiveCounts(SortEntries(t.stratification));
    SortTotal(t.stratification);
  }

  lemma {:induction false} BadIsSlotCount(entries: seq<Entry>)
    ensures BadEntry(entries).Some? ==> BadEntry(entries).value.BadSlotCount?
  {
    if entries != [] {
      BadIsSlotCount(entries[1..]);
    }
  }

  /** The declared multiset of domains, shuffled by the seed. */
  method DealtDomains(block: nat -> seq<Byte>, t: Taxonomy) returns (domains: seq<string>)
    requires forall c :: |block(c)| == 32
    ensures var pool := Expand(SortEntries(t.stratification));
            domains == Arrange(pool, ChoicesOf(block, 0, |pool|))
    ensures forall domain :: multiset(domains)[domain] == Declared(t.stratification, domain)
  {
    var entries := SortEntries(t.stratification);
    var pool: seq<string> := [];
    for k := 0 to |entries|
      invariant Expand(entries) == pool + Expand(entries[k..])
    {
      assert entries[k..][1..] == entries[k + 1..];
      pool := pool + Repeat(entries[k].name, entries[k].count);
    }
    assert entries[|entries|..] == [] && pool == Expand(entries);
    var stream := new SeededStream(block);
    var a := new string[|pool|](i requires 0 <= i < |pool| => pool[i]);
    assert a[..] == pool;
    Shuffle(a, stream);
    domains := a[..];
    ArrangePermutes(pool, ChoicesOf(block, 0, |pool|));
    forall domain ensures multiset(domains)[domain] == Declared(t.stratification, domain) {
      ExpandCounts(entries, domain);
      SortEntriesSorts(t.stratification, domain);
    }
  }

  /** The critic declared for a family; of several entries the last one counts. */
  function CriticOf(generators: seq<Generator>, family: string): Option<string> {
    if generators == [] then None
    else
      var last := generators[|generators| - 1];
      if last.family == family then Some(last.critic) else CriticOf(generators[..|generators| - 1], family)
  }

  lemma {:induction false} DealtFamilyHasCritic(generators: seq<Generator>, family: string)
    requires Declared(EntriesOf(generators), family) > 0
    ensures CriticOf(generators, family).Some?
  {
    if generators != [] {
      var n := |generators| - 1;
      if generators[n].family != family {
        EntriesSplit(generators[..n], generators[n]);
        assert generators == generators[..n] + [generators[n]];
        DeclaredSplit(EntriesOf(generators[..n]), [EntryOf(generators[n])], family);
        assert [EntryOf(generators[n])][1..] == [];
        DealtFamilyHasCritic(generators[..n], family);
      }
    }
  }

  lemma {:induction false} EntriesSplit(front: seq<Generator>, last: Generator)
    ensures EntriesOf(front + [last]) == EntriesOf(front) + [EntryOf(last)]
  {
    if front == [] {
      assert front + [last] == [last] && [last][1..] == [];
    } else {
      assert (front + [last])[1..] == front[1..] + [last];
      EntriesSplit(front[1..], last);
    }
  }

  function FamiliesOf(slots: seq<Slot>): seq<string> {
    if slots == [] then [] else FamiliesOf(slots[..|slots| - 1]) + [slots[|slots| - 1].family]
  }

  function DomainsOf(slots: seq<Slot>): seq<string> {
    if slots == [] then [] else DomainsOf(slots[..|slots| - 1]) + [slots[|slots| - 1].domain]
  }

  /** The plan gives every family and every domain exactly the slots declared for it, over the same
      slots, and every slot the critic declared for its family. */
  ghost predicate MeetsBothCounts(slots: seq<Slot>, t: Taxonomy, generators: seq<Generator>) {
    && |slots| == t.challengesPerDay
    && (forall i :: 0 <= i < |slots| ==> slots[i].index == i && slots[i].critic != ""
                                         && CriticOf(generators, slots[i].family) == Some(slots[i].critic))
    && (forall family :: multiset(FamiliesOf(slots))[family] == Declared(EntriesOf(generators), family))
    && (forall domain :: multiset(DomainsOf(slots))[domain] == Declared(t.stratification, domain))
  }

  /** The day's slots, from two deals of the same seed under two labels: `forFamilies` and
      `forDomains` are their hash blocks. */
  method Plan(forFamilies: nat -> seq<Byte>, forDomains: nat -> seq<Byte>, t: Taxonomy, generators: seq<Generator>)
    returns (r: Result<seq<Slot>, TaxonomyError>)
    requires (forall c :: |forFamilies(c)| == 32) && (forall c :: |forDomains(c)| == 32)
    requires t.Validate().None?
    ensures r.Success? ==> MeetsBothCounts(r.value, t, generators)
    ensures r.Success? ==>
              var families := Expand(SortEntries(EntriesOf(generators)));
              var domains := Expand(SortEntries(t.stratification));
              && FamiliesOf(r.value) == Arrange(families, ChoicesOf(forFamilies, 0, |families|))
              && DomainsOf(r.value) == Arrange(domains, ChoicesOf(forDomains, 0, |domains|))
    ensures r.Success? <==>
              && generators != [] && BadEntry(SortEntries(EntriesOf(generators))).None?
              && |Expand(SortEntries(EntriesOf(generators)))| == t.challengesPerDay
              && forall g :: g in generators ==> CriticOf(generators, g.family) != Some("")
    ensures r.Failure? ==> match r.error
                           case Seed(_) => generators == [] || BadEntry(SortEntries(EntriesOf(generators))).Some?
                           case SlotCountsDisagree => |Expand(SortEntries(EntriesOf(generators)))| != t.challengesPerDay
                           case NoCritic(_) => exists g :: g in generators && CriticOf(generators, g.family) == Some("")
                           case _ => false
  {
    var dealt := SlotAssignments(forFamilies, generators);
    if dealt.Failure? {
      return Failure(Seed(dealt.error));
    }
    var families := dealt.value;
    if |families| != t.challengesPerDay {
      return Failure(SlotCountsDisagree);
    }
    var domains := DealtDomains(forDomains, t);
    DomainsFillThePack(t);
    forall family | family in families ensures CriticOf(generators, family).Some? {
      assert family in multiset(families);
      DealtFamilyHasCritic(generators, family);
    }
    forall g | g in generators ensures g.family in families {
      DeclaredFamilyIsDealt(generators, g);
      assert g.family in multiset(families);
    }
    r := JoinSlots(families, domains, generators);
  }

  /** With every count positive, each generator's family has slots. */
  lemma DeclaredFamilyIsDealt(generators: seq<Generator>, g: Generator)
    requires BadEntry(SortEntries(EntriesOf(generators))).None? && g in generators
    ensures Declared(EntriesOf(generators), g.family) > 0
  {
    var entries := SortEntries(EntriesOf(generators));
    EntriesHave(generators, g);
    SortEntriesSorts(EntriesOf(generators), g.family);
    assert EntryOf(g) in multiset(entries);
    GoodEntry(entries, EntryOf(g));
  }

  lemma {:induction false} EntriesHave(generators: seq<Generator>, g: Generator)
    requires g in generators
    ensures EntryOf(g) in EntriesOf(generators)
  {
    if generators[0] != g {
      EntriesHave(generators[1..], g);
    }
  }

  lemma {:induction false} GoodEntry(entries: seq<Entry>, e: Entry)
    requires BadEntry(entries).None? && e in entries
    ensures e.count >= 1 && Declared(entries, e.name) > 0
  {
    if entries[0] != e {
      GoodEntry(entries[1..], e);
    }
  }

  /** Puts the two deals side by side. */
  method JoinSlots(families: seq<string>, domains: seq<string>, generators: seq<Generator>)
    returns (r: Result<seq<Slot>, TaxonomyError>)
    requires |families| == |domains| && forall family :: family in families ==> CriticOf(generators, family).Some?
    ensures r.Success? ==>
              && |r.value| == |families| && FamiliesOf(r.value) == families && DomainsOf(r.value) == domains
              && forall i :: 0 <= i < |families| ==>
                   r.value[i].index == i && r.value[i].critic != ""
                   && CriticOf(generators, r.value[i].family) == Some(r.value[i].critic)
    ensures r.Success? <==> forall i :: 0 <= i < |families| ==> CriticOf(generators, families[i]) != Some("")
    ensures r.Failure? ==>
              r.error.NoCritic? && exists g :: g in generators && CriticOf(generators, g.family) == Some("")
  {
    var slots: seq<Slot> := [];
    for index := 0 to |families|
      invariant |slots| == index
      invariant FamiliesOf(slots) == families[..index] && DomainsOf(slots) == domains[..index]
      invariant forall i :: 0 <= i < index ==> CriticOf(generators, families[i]) != Some("")
      invariant forall i :: 0 <= i < index ==> slots[i].index == i && slots[i].critic != ""
                                               && CriticOf(generators, slots[i].family) == Some(slots[i].critic)
    {
      var family := families[index];
      assert family in families;
      var critic := CriticOf(generators, family).value;
      if critic == "" {
        CriticIsDeclared(generators, family);
        return Failure(NoCritic(index));
      }
      ghost var before := slots;
      slots := slots + [Slot(index, domains[index], family, critic)];
      assert slots[..index] == before;
    }
    assert families[..|families|] == families && domains[..|families|] == domains;
    return Success(slots);
  }

  lemma {:induction false} CriticIsDeclared(generators: seq<Generator>, family: string)
    requires CriticOf(generators, family).Some?
    ensures exists g :: g in generators && g.family == family
  {
    var n := |generators| - 1;
    if generators[n].family != family {
      CriticIsDeclared(generators[..n], family);
    }
  }
}
