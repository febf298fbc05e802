/** From rolling scores to a weight vector (validator/weights.py). */
module Weights {
  import opened Wrappers
  import opened Sums
  import opened FixedPoint

  const U16_MAX := 65_535

  // ---------------------------------------------------------------- one pass of the cap

  function Minimum(a: int, b: int): int {
    if a < b then a else b
  }

  function Over(current: map<int, int>, cap: int): set<int> {
    set uid | uid in current && current[uid] > cap
  }

  /** Every weight held at the cap. */
  function Held(current: map<int, int>, cap: int): map<int, int> {
    map uid | uid in current :: Minimum(current[uid], cap)
  }

  /** What each weight has above the cap. */
  function Excess(current: map<int, int>, cap: int): map<int, int> {
    map uid | uid in current :: current[uid] - Minimum(current[uid], cap)
  }

  function Only(current: map<int, int>, uids: set<int>): map<int, int> {
    map uid | uid in current && uid in uids :: current[uid]
  }

  /** What one receiver gets of the overflow: in proportion to what it has, or evenly when no
      receiver has anything. */
  function ShareOf(overflow: int, weight: int, base: int, receivers: nat): int
    requires receivers > 0
  {
    if base <= 0 then overflow / receivers else overflow * weight / base
  }

  function Shares(current: map<int, int>, receivers: set<int>, overflow: int, base: int): map<int, int>
    requires receivers != {}
  {
    map uid | uid in current && uid in receivers :: ShareOf(overflow, current[uid], base, |receivers|)
  }

  function Raised(current: map<int, int>, shares: map<int, int>): map<int, int> {
    map uid | uid in current :: current[uid] + (if uid in shares then shares[uid] else 0)
  }

  lemma {:induction false} CappingConserves(current: map<int, int>, cap: int)
    ensures Sum(Held(current, cap)) + Sum(Excess(current, cap)) == Sum(current)
    ensures Sum(Excess(current, cap)) >= 0
    ensures Over(current, cap) != {} ==> Sum(Excess(current, cap)) > 0
    decreases |current|
  {
    if current == map[] {
      assert Held(current, cap) == map[] && Excess(current, cap) == map[];
    } else {
      var k := SomeKey(current);
      SumWithout(current, k);
      SumWithout(Held(current, cap), k);
      SumWithout(Excess(current, cap), k);
      assert Held(current, cap) - {k} == Held(current - {k}, cap);
      assert Excess(current, cap) - {k} == Excess(current - {k}, cap);
      assert Over(current - {k}, cap) == Over(current, cap) - {k};
      CappingConserves(current - {k}, cap);
    }
  }

  lemma {:induction false} RaisingAdds(current: map<int, int>, shares: map<int, int>)
    requires shares.Keys <= current.Keys
    ensures Sum(Raised(current, shares)) == Sum(current) + Sum(shares)
    decreases |current|
  {
    if current == map[] {
      assert shares == map[] && Raised(current, shares) == map[];
    } else {
      var k := SomeKey(current);
      SumWithout(current, k);
      SumWithout(Raised(current, shares), k);
      RaisedWithout(current, shares, k);
      RaisingAdds(current - {k}, shares - {k});
      SumWithMaybe(shares, k);
    }
  }

  lemma SumWithMaybe(shares: map<int, int>, k: int)
    ensures Sum(shares) == (if k in shares then shares[k] else 0) + Sum(shares - {k})
  {
    if k in shares {
      SumWithout(shares, k);
    } else {
      assert shares - {k} == shares;
    }
  }

  lemma RaisedWithout(current: map<int, int>, shares: map<int, int>, k: int)
    ensures Raised(current, shares) - {k} == Raised(current - {k}, shares - {k})
  {
  }

  /** The whole shared out in proportion to the parts, each share rounded down. */
  ghost predicate FloorsOf(parts: map<int, int>, overflow: int, base: int, floors: map<int, int>)
    requires base > 0
  {
    floors.Keys == parts.Keys && forall uid :: uid in parts ==> floors[uid] == overflow * parts[uid] / base
  }

  lemma FloorsWithout(parts: map<int, int>, overflow: int, base: int, floors: map<int, int>, uid: int)
    requires base > 0 && FloorsOf(parts, overflow, base, floors) && uid in parts
    ensures FloorsOf(parts - {uid}, overflow, base, floors - {uid}) && |parts - {uid}| == |parts| - 1
    ensures uid in floors && floors[uid] == overflow * parts[uid] / base
  {
  }

  /** Floors of proportional parts: together at most the whole, short by less than one each. */
  lemma {:induction false} FloorsOfParts(parts: map<int, int>, overflow: int, base: int, floors: map<int, int>)
    requires base > 0 && FloorsOf(parts, overflow, base, floors)
    ensures overflow * Sum(parts) - |parts| * (base - 1) <= base * Sum(floors) <= overflow * Sum(parts)
    decreases |parts|
  {
    if parts == map[] {
      assert floors == map[];
    } else {
      var k := SomeKey(parts);
      SumWithout(parts, k);
      SumWithout(floors, k);
      FloorsWithout(parts, overflow, base, floors, k);
      FloorsOfParts(parts - {k}, overflow, base, floors - {k});
      FloorsStep(overflow, base, parts[k], Sum(parts - {k}), Sum(parts), Sum(floors - {k}), Sum(floors), |parts|);
    }
  }

  lemma FloorsStep(overflow: int, base: int, part: int, rest: int, total: int, restFloors: int, floors: int, count: nat)
    requires base > 0 && count > 0 && total == part + rest && floors == overflow * part / base + restFloors
    requires overflow * rest - (count - 1) * (base - 1) <= base * restFloors <= overflow * rest
    ensures overflow * total - count * (base - 1) <= base * floors <= overflow * total
  {
    var whole := overflow * part;
    assert whole == base * (whole / base) + whole % base;
    assert overflow * total == whole + overflow * rest;
    assert base * floors == base * (whole / base) + base * restFloors;
    assert count * (base - 1) == (count - 1) * (base - 1) + (base - 1);
  }

  lemma {:induction false} EvenShares(shares: map<int, int>, each: int)
    requires forall uid :: uid in shares ==> shares[uid] == each
    ensures Sum(shares) == |shares| * each
    decreases |shares|
  {
    if shares != map[] {
      var k := SomeKey(shares);
      SumWithout(shares, k);
      EvenShares(shares - {k}, each);
      OneMore(|shares - {k}|, |shares|, each);
    }
  }

  lemma OneMore(rest: nat, count: nat, each: int)
    requires count == rest + 1
    ensures count * each == rest * each + each
  {
  }

  /** Redistribution hands out the overflow but for less than one part per receiver. */
  lemma SharesAddUp(current: map<int, int>, receivers: set<int>, overflow: int)
    requires receivers != {} && receivers <= current.Keys && overflow >= 0
    requires forall uid :: uid in current ==> current[uid] >= 0
    ensures var base := Sum(Only(current, receivers));
            var shares := Shares(current, receivers, overflow, base);
            overflow - (|receivers| - 1) <= Sum(shares) <= overflow
  {
    var parts := Only(current, receivers);
    var base := Sum(parts);
    var shares := Shares(current, receivers, overflow, base);
    var n := |receivers|;
    assert parts.Keys == receivers && shares.Keys == receivers;
    assert |parts| == |parts.Keys| && |shares| == |shares.Keys|;
    if base <= 0 {
      EvenShares(shares, overflow / n);
      assert n * (overflow / n) == overflow - overflow % n;
    } else {
      FloorsOfParts(parts, overflow, base, shares);
      ShortByLess(overflow, base, n, Sum(shares));
    }
  }

  lemma ShortByLess(overflow: int, base: int, count: nat, total: int)
    requires base > 0 && overflow * base - count * (base - 1) <= base * total <= overflow * base
    requires count > 0
    ensures overflow - (count - 1) <= total <= overflow
  {
    assert (overflow - count) * base == overflow * base - count * base;
    assert count * (base - 1) == count * base - count;
    if total > overflow {
      MulMonotone(overflow + 1, total, base);
    } else if total < overflow - (count - 1) {
      MulMonotone(total, overflow - count, base);
    }
  }

  lemma ShareMonotone(overflow: int, low: int, high: int, base: int, receivers: nat)
    requires overflow >= 0 && 0 <= low <= high && receivers > 0
    ensures 0 <= ShareOf(overflow, low, base, receivers) <= ShareOf(overflow, high, base, receivers)
  {
    assert overflow * low <= overflow * high by { MulMonotone(low, high, overflow); }
    MulMonotone(0, low, overflow);
    if base > 0 {
      DivMonotone(0, overflow * low, base);
      DivMonotone(overflow * low, overflow * high, base);
    }
  }

  lemma DivMonotone(a: int, b: int, d: int)
    requires a <= b && d > 0
    ensures a / d <= b / d
  {
    var x, y := a / d, b / d;
    assert a == d * x + a % d && b == d * y + b % d;
    if x > y {
      MulMonotone(y + 1, x, d);
    }
  }

  // ---------------------------------------------------------------- the iterated cap

  /** Whoever started with at least as much is capped first, or still has at least as much. */
  ghost predicate Ranked(start: map<int, int>, current: map<int, int>, capped: set<int>)
    requires start.Keys == current.Keys
  {
    forall a, b :: a in start && b in start && start[a] >= start[b] ==>
      && (b in capped ==> a in capped)
      && (a !in capped && b !in capped ==> current[a] >= current[b])
  }

  /** The sum of 0, 1, ..., rows - 1. */
  function Triangle(rows: int): int {
    rows * (rows - 1) / 2
  }

  lemma TriangleStep(rows: int)
    ensures Triangle(rows + 1) == Triangle(rows) + rows
  {
    assert (rows + 1) * rows == rows * (rows - 1) + 2 * rows;
  }

  lemma {:induction false} TriangleMonotone(a: nat, b: nat)
    requires a <= b
    ensures Triangle(a) <= Triangle(b)
    decreases b - a
  {
    if a < b {
      TriangleStep(a);
      TriangleMonotone(a + 1, b);
    }
  }

  /** The state between two passes. */
  ghost predicate Between2Passes(start: map<int, int>, current: map<int, int>, capped: set<int>, cap: int)
  {
    && current.Keys == start.Keys && capped <= start.Keys
    && (forall uid :: uid in current ==> current[uid] >= 0)
    && (forall uid :: uid in capped ==> current[uid] == cap)
    && (forall uid :: uid in current && uid !in capped ==> current[uid] >= start[uid])
    && Ranked(start, current, capped)
    && Sum(current) <= Sum(start)
    && (capped == {} ==> current == start)
    && |capped| <= |start|
    && LossWithin(|start|, |capped|, Sum(start) - Sum(current))
  }

  /** What can be lost to rounding by the time `capped` of `n` are capped. */
  predicate LossWithin(n: nat, capped: nat, loss: int) {
    capped < n ==> loss <= Triangle(n - 1) - Triangle(n - capped - 1)
  }

  lemma CapKeepsRank(start: map<int, int>, current: map<int, int>, capped: set<int>, cap: int)
    requires Between2Passes(start, current, capped, cap)
    ensures Ranked(start, Held(current, cap), capped + Over(current, cap))
  {
    var over := Over(current, cap);
    forall a, b | a in start && b in start && start[a] >= start[b]
      ensures b in capped + over ==> a in capped + over
      ensures a !in capped + over && b !in capped + over ==> Held(current, cap)[a] >= Held(current, cap)[b]
    {
    }
  }

  lemma ShareKeepsRank(start: map<int, int>, current: map<int, int>, capped: set<int>, overflow: int)
    requires current.Keys == start.Keys && Ranked(start, current, capped) && overflow >= 0
    requires forall uid :: uid in current ==> current[uid] >= 0
    requires start.Keys - capped != {}
    ensures var receivers := start.Keys - capped;
            var base := Sum(Only(current, receivers));
            var next := Raised(current, Shares(current, receivers, overflow, base));
            && Ranked(start, next, capped)
            && forall uid :: uid in current ==>
                 next[uid] >= current[uid] && (uid in capped ==> next[uid] == current[uid])
  {
    var receivers := start.Keys - capped;
    var base := Sum(Only(current, receivers));
    var next := Raised(current, Shares(current, receivers, overflow, base));
    forall uid | uid in receivers ensures next[uid] >= current[uid] {
      ShareMonotone(overflow, current[uid], current[uid], base, |receivers|);
    }
    forall a, b | a in start && b in start && start[a] >= start[b] && a !in capped && b !in capped
      ensures next[a] >= next[b]
    {
      ShareMonotone(overflow, current[b], current[a], base, |receivers|);
    }
  }

  /** Capping over again: more uids are capped, none of them twice. */
  lemma OverIsNew(start: map<int, int>, current: map<int, int>, capped: set<int>, cap: int)
    requires Between2Passes(start, current, capped, cap) && Over(current, cap) != {}
    ensures var over := Over(current, cap);
            over !! capped && |capped| < |capped + over| <= |start|
  {
    var over := Over(current, cap);
    forall uid | uid in over ensures uid !in capped {
      assert current[uid] > cap;
    }
    SubsetSize(capped, capped + over);
    assert |start| == |start.Keys|;
    SubsetSize(capped + over, start.Keys);
  }

  lemma SubsetSize<T>(a: set<T>, b: set<T>)
    requires a <= b
    ensures |a| <= |b| && (|a| == |b| ==> a == b)
    ensures |b - a| == |b| - |a|
  {
    assert b == a + (b - a) && a !! b - a;
    if |b - a| == 0 {
      assert b - a == {};
    }
  }

  /** When the last uids are capped too, every weight was at the cap or over it. */
  lemma EveryoneCapped(start: map<int, int>, current: map<int, int>, capped: set<int>, cap: int)
    requires Between2Passes(start, current, capped, cap) && Over(current, cap) != {}
    requires capped + Over(current, cap) == start.Keys
    ensures (forall uid :: uid in current ==> Held(current, cap)[uid] == cap) && Sum(start) > |start| * cap
  {
    var held := Held(current, cap);
    forall uid | uid in held ensures held[uid] == cap {
      assert uid in capped || uid in Over(current, cap);
    }
    assert |held| == |held.Keys| && |start| == |start.Keys|;
    EvenShares(held, cap);
    CappingConserves(current, cap);
  }

  /** What a pass that leaves receivers does to the weights. */
  ghost function PassOn(start: map<int, int>, current: map<int, int>, now: set<int>, cap: int): map<int, int>
    requires current.Keys == start.Keys && start.Keys - now != {}
  {
    var held := Held(current, cap);
    var receivers := start.Keys - now;
    Raised(held, Shares(held, receivers, Sum(Excess(current, cap)), Sum(Only(held, receivers))))
  }

  lemma PassSums(start: map<int, int>, current: map<int, int>, now: set<int>, cap: int)
    requires current.Keys == start.Keys && start.Keys - now != {} && cap >= 0
    requires forall uid :: uid in current ==> current[uid] >= 0
    ensures Sum(current) - (|start.Keys - now| - 1) <= Sum(PassOn(start, current, now, cap)) <= Sum(current)
  {
    var held := Held(current, cap);
    var receivers := start.Keys - now;
    var overflow := Sum(Excess(current, cap));
    CappingConserves(current, cap);
    SharesAddUp(held, receivers, overflow);
    RaisingAdds(held, Shares(held, receivers, overflow, Sum(Only(held, receivers))));
  }

  lemma OnePass(start: map<int, int>, current: map<int, int>, capped: set<int>, cap: int)
    requires cap >= 0 && Between2Passes(start, current, capped, cap) && Over(current, cap) != {}
    requires start.Keys - (capped + Over(current, cap)) != {}
    ensures var now := capped + Over(current, cap);
            Between2Passes(start, PassOn(start, current, now, cap), now, cap) && |now| < |start|
  {
    var now := capped + Over(current, cap);
    OverIsNew(start, current, capped, cap);
    SubsetSize(now, start.Keys);
    assert |start| == |start.Keys|;
    PassSums(start, current, now, cap);
    PassRank(start, current, capped, cap);
    PassValues(start, current, capped, cap);
    Assemble(start, current, PassOn(start, current, now, cap), capped, now, cap);
  }

  /** The same pass in terms of what the loop has computed. */
  lemma LoopPass(start: map<int, int>, current: map<int, int>, capped: set<int>, cap: int,
                 held: map<int, int>, now: set<int>, receivers: set<int>, overflow: int, base: int)
    requires cap >= 0 && Between2Passes(start, current, capped, cap) && Over(current, cap) != {}
    requires held == Held(current, cap) && now == capped + Over(current, cap)
    requires receivers == held.Keys - now && receivers != {}
    requires overflow == Sum(Excess(current, cap)) && base == Sum(Only(held, receivers))
    ensures Between2Passes(start, Raised(held, Shares(held, receivers, overflow, base)), now, cap)
    ensures |capped| < |now| < |start|
  {
    assert held.Keys == current.Keys == start.Keys;
    OverIsNew(start, current, capped, cap);
    OnePass(start, current, capped, cap);
  }

  lemma Assemble(start: map<int, int>, current: map<int, int>, next: map<int, int>, capped: set<int>, now: set<int>,
                 cap: int)
    requires cap >= 0 && Between2Passes(start, current, capped, cap)
    requires next.Keys == start.Keys && now <= start.Keys && capped <= now && |capped| < |now| < |start|
    requires Sum(current) - (|start| - |now| - 1) <= Sum(next) <= Sum(current)
    requires Ranked(start, next, now)
    requires forall uid :: uid in start ==> if uid in now then next[uid] == cap else next[uid] >= current[uid]
    ensures Between2Passes(start, next, now, cap)
  {
    LossStep(|start|, |capped|, |now|, Sum(start) - Sum(current), Sum(current) - Sum(next), Sum(start) - Sum(next));
    AssembleValues(start, current, next, capped, now, cap);
    assert now != {};
  }

  lemma AssembleValues(start: map<int, int>, current: map<int, int>, next: map<int, int>, capped: set<int>,
                       now: set<int>, cap: int)
    requires cap >= 0 && current.Keys == start.Keys == next.Keys && capped <= now <= start.Keys
    requires forall uid :: uid in current ==> current[uid] >= 0
    requires forall uid :: uid in current && uid !in capped ==> current[uid] >= start[uid]
    requires forall uid :: uid in start ==> if uid in now then next[uid] == cap else next[uid] >= current[uid]
    ensures forall uid :: uid in next ==> next[uid] >= 0
    ensures forall uid :: uid in now ==> next[uid] == cap
    ensures forall uid :: uid in next && uid !in now ==> next[uid] >= start[uid]
  {
    forall uid | uid in next ensures next[uid] >= 0 && (uid !in now ==> next[uid] >= start[uid]) {
      assert uid in current;
    }
  }

  lemma PassRank(start: map<int, int>, current: map<int, int>, capped: set<int>, cap: int)
    requires cap >= 0 && Between2Passes(start, current, capped, cap)
    requires start.Keys - (capped + Over(current, cap)) != {}
    ensures var now := capped + Over(current, cap);
            Ranked(start, PassOn(start, current, now, cap), now)
  {
    CappingConserves(current, cap);
    CapKeepsRank(start, current, capped, cap);
    ShareKeepsRank(start, Held(current, cap), capped + Over(current, cap), Sum(Excess(current, cap)));
  }

  lemma PassValues(start: map<int, int>, current: map<int, int>, capped: set<int>, cap: int)
    requires cap >= 0 && Between2Passes(start, current, capped, cap)
    requires start.Keys - (capped + Over(current, cap)) != {}
    ensures var now := capped + Over(current, cap);
            var next := PassOn(start, current, now, cap);
            forall uid :: uid in start ==> if uid in now then next[uid] == cap else next[uid] >= current[uid]
  {
    var now := capped + Over(current, cap);
    var held := Held(current, cap);
    CappingConserves(current, cap);
    forall uid | uid in start
      ensures if uid in now then held[uid] == cap else held[uid] == current[uid]
    {
      assert uid in Over(current, cap) <==> current[uid] > cap;
    }
    CapKeepsRank(start, current, capped, cap);
    ShareKeepsRank(start, held, now, Sum(Excess(current, cap)));
  }

  lemma LossStep(n: nat, before: nat, after: nat, lost: int, losing: int, total: int)
    requires before < after < n && losing <= n - after - 1 && total == lost + losing
    requires LossWithin(n, before, lost)
    ensures LossWithin(n, after, total)
  {
    TriangleStep(n - after - 1);
    TriangleMonotone(n - after, n - before - 1);
  }

  /** What the iteration ends with: nobody is over the cap, whoever was capped is on it and nobody
      else lost anything; the order of the weights is kept; nothing is added to the total; and if
      the cap leaves room for everything, all but a rounding loss is handed out. */
  ghost predicate Settled(start: map<int, int>, final: map<int, int>, capped: set<int>, cap: int) {
    && final.Keys == start.Keys && capped <= start.Keys
    && (forall uid :: uid in final ==> 0 <= final[uid] <= cap)
    && (forall uid :: uid in final ==> if uid in capped then final[uid] == cap else final[uid] >= start[uid])
    && (forall a, b :: a in start && b in start && start[a] >= start[b] ==> final[a] >= final[b])
    && Sum(final) <= Sum(start)
    && (Sum(start) <= |start| * cap ==> Sum(start) - Sum(final) <= Triangle(|start| - 1))
  }

  lemma SettledWhenNobodyIsOver(start: map<int, int>, current: map<int, int>, capped: set<int>, cap: int)
    requires cap >= 0 && Between2Passes(start, current, capped, cap) && Over(current, cap) == {}
    requires capped == {} || |capped| < |start|
    ensures Settled(start, current, capped, cap)
  {
    forall uid | uid in current ensures current[uid] <= cap {
      assert uid !in Over(current, cap);
    }
    if |capped| < |start| {
      TriangleMonotone(0, |start| - |capped| - 1);
    } else {
      assert start.Keys == {} && current == start;
    }
  }

  lemma SettledWhenEveryoneIsCapped(start: map<int, int>, current: map<int, int>, capped: set<int>, cap: int)
    requires cap >= 0 && Between2Passes(start, current, capped, cap) && Over(current, cap) != {}
    requires Held(current, cap).Keys - (capped + Over(current, cap)) == {}
    ensures Settled(start, Held(current, cap), capped + Over(current, cap), cap)
    ensures Sum(start) > |start| * cap
  {
    var now := capped + Over(current, cap);
    assert now <= start.Keys && Held(current, cap).Keys == start.Keys;
    forall uid | uid in start ensures uid in now {
      assert uid !in Held(current, cap).Keys - now;
    }
    EveryoneCapped(start, current, capped, cap);
    CappingConserves(current, cap);
  }

  lemma FirstPass(start: map<int, int>, cap: int)
    requires forall uid :: uid in start ==> start[uid] >= 0
    ensures Between2Passes(start, start, {}, cap)
  {
  }

  /** Holds every weight at the cap, handing the overflow on until nobody is over it. Each pass but
      the last caps somebody new, so one pass more than there are weights is enough. */
  method CapAndRedistribute(weights: map<int, int>, cap: int) returns (current: map<int, int>, capped: set<int>)
    requires cap >= 0 && forall uid :: uid in weights ==> weights[uid] >= 0
    ensures Settled(weights, current, capped, cap)
    ensures capped != {} ==> Over(weights, cap) != {}
    ensures capped == {} ==> current == weights
    ensures Sum(weights) <= |weights| * cap && weights != map[] ==> |capped| < |weights|
  {
    current := weights;
    capped := {};
    var passes := 0;
    FirstPass(weights, cap);
    while passes < |weights| + 1
      invariant Between2Passes(weights, current, capped, cap)
      invariant passes <= |capped| && (capped == {} || |capped| < |weights|)
      invariant capped != {} ==> Over(weights, cap) != {}
    {
      var over := Over(current, cap);
      if over == {} {
        break;
      }
      var overflow := Total(Excess(current, cap));
      var held := Held(current, cap);
      var now := capped + over;
      var receivers := held.Keys - now;
      if receivers == {} {
        SettledWhenEveryoneIsCapped(weights, current, capped, cap);
        current, capped := held, now;
        return;
      }
      var base := Total(Only(held, receivers));
      LoopPass(weights, current, capped, cap, held, now, receivers, overflow, base);
      current := Raised(held, Shares(held, receivers, overflow, base));
      capped := now;
      passes := passes + 1;
    }
    SettledWhenNobodyIsOver(weights, current, capped, cap);
  }

  // ---------------------------------------------------------------- the applied cap

  function CeilDiv(a: int, b: int): int
    requires b > 0
  {
    -(-a / b)
  }

  /** The declared cap once enough laboratories qualify to absorb it; no cap before that. */
  function EffectiveCap(declared: int, qualifiers: nat): int
    requires 0 < declared <= PPM
  {
    if qualifiers >= CeilDiv(PPM, declared) then declared else PPM
  }

  /** The declared cap is applied exactly when the field can carry the whole emission under it. */
  lemma CapAppliesWhenItFits(declared: int, qualifiers: nat)
    requires 0 < declared <= PPM
    ensures qualifiers >= CeilDiv(PPM, declared) <==> qualifiers * declared >= PPM
    ensures PPM <= qualifiers * EffectiveCap(declared, qualifiers) || qualifiers == 0
  {
    var needed := CeilDiv(PPM, declared);
    assert (-PPM) == declared * ((-PPM) / declared) + (-PPM) % declared;
    assert needed * declared >= PPM && (needed - 1) * declared < PPM;
    if qualifiers >= needed {
      MulMonotone(needed, qualifiers, declared);
    } else {
      MulMonotone(qualifiers, needed - 1, declared);
    }
  }

  /** The cap as it is applied to a field's shares, which never sum to more than one whole: not
      everybody can be capped, so all but a rounding loss is allocated. */
  method ShareOut(shares: map<int, int>, declared: int) returns (final: map<int, int>, capped: set<int>)
    requires 0 < declared <= PPM && shares != map[]
    requires (forall uid :: uid in shares ==> shares[uid] >= 0) && Sum(shares) <= PPM
    ensures Settled(shares, final, capped, EffectiveCap(declared, |shares|))
    ensures |capped| < |shares|
    ensures 0 <= Sum(shares) - Sum(final) <= Triangle(|shares| - 1)
    ensures |shares| * declared < PPM ==> final == shares && capped == {}
    ensures |shares| * declared >= PPM ==> forall uid :: uid in final ==> final[uid] <= declared
  {
    CapAppliesWhenItFits(declared, |shares|);
    NobodyOverOneWhole(shares);
    final, capped := CapAndRedistribute(shares, EffectiveCap(declared, |shares|));
  }

  lemma NobodyOverOneWhole(shares: map<int, int>)
    requires (forall uid :: uid in shares ==> shares[uid] >= 0) && Sum(shares) <= PPM
    ensures Over(shares, PPM) == {}
  {
    forall uid | uid in shares ensures shares[uid] <= PPM {
      SumWithout(shares, uid);
      TotalNotNegative(shares - {uid});
    }
  }

  lemma {:induction false} TotalNotNegative(shares: map<int, int>)
    requires forall uid :: uid in shares ==> shares[uid] >= 0
    ensures Sum(shares) >= 0
    decreases |shares|
  {
    if shares != map[] {
      var k := SomeKey(shares);
      SumWithout(shares, k);
      TotalNotNegative(shares - {k});
    }
  }

  // ---------------------------------------------------------------- the vector

  datatype Reason = HardGateFailed | ArtifactsUnavailable | TooFewChallenges | BelowTheFloor

  datatype Candidate = Candidate(
    uid: int,
    rollingScore: int,
    validChallenges: int,
    hardGatesPassed: bool,
    artifactsAvailable: bool)

  datatype WeightsConfig = WeightsConfig(temperature: int, maximumWeight: int, minimumValidChallenges: int,
                                         burnUid: int)
  {
    predicate Valid() {
      temperature > 0 && 0 < maximumWeight <= PPM
    }
  }

  datatype Allocation = Allocation(
    uids: seq<int>,
    weights: seq<int>,
    burned: bool,
    excluded: map<int, Reason>,
    capped: set<int>)

  function Disqualification(c: Candidate, config: WeightsConfig, floor: int): Option<Reason> {
    if !c.hardGatesPassed then Some(HardGateFailed)
    else if !c.artifactsAvailable then Some(ArtifactsUnavailable)
    else if c.validChallenges < config.minimumValidChallenges then Some(TooFewChallenges)
    else if c.rollingScore <= floor then Some(BelowTheFloor)
    else None
  }

  /** The scores of those who qualify; the last entry of a uid counts. */
  function Qualified(candidates: seq<Candidate>, config: WeightsConfig, floor: int): map<int, int> {
    if candidates == [] then map[]
    else
      var last := candidates[|candidates| - 1];
      var rest := Qualified(candidates[..|candidates| - 1], config, floor);
      if Disqualification(last, config, floor).None? then rest[last.uid := last.rollingScore] else rest
  }

  /** Nobody qualifies who fails a gate, is unavailable, is short of challenges or does not exceed
      the floor; and everybody else does. */
  lemma {:induction false} WhoQualifies(candidates: seq<Candidate>, config: WeightsConfig, floor: int, uid: int)
    ensures uid in Qualified(candidates, config, floor) <==>
            exists c :: c in candidates && c.uid == uid && c.hardGatesPassed && c.artifactsAvailable
                        && c.validChallenges >= config.minimumValidChallenges && c.rollingScore > floor
  {
    if candidates != [] {
      var last := candidates[|candidates| - 1];
      WhoQualifies(candidates[..|candidates| - 1], config, floor, uid);
      assert candidates == candidates[..|candidates| - 1] + [last];
    }
  }

  /** What is assumed of the floating-point softmax: floors of shares of one whole that follow the
      order of the scores. */
  ghost predicate SoftmaxLike(scores: map<int, int>, shares: map<int, int>) {
    && shares.Keys == scores.Keys
    && (forall uid :: uid in shares ==> shares[uid] >= 0)
    && Sum(shares) <= PPM
    && forall a, b :: a in scores && b in scores && scores[a] <= scores[b] ==> shares[a] <= shares[b]
  }

  function ToU16(ppm: int): int {
    ppm * U16_MAX / PPM
  }

  function Vector(final: map<int, int>, uids: seq<int>): (weights: seq<int>)
    requires forall i :: 0 <= i < |uids| ==> uids[i] in final
    ensures |weights| == |uids|
    ensures forall i :: 0 <= i < |uids| ==> weights[i] == ToU16(final[uids[i]])
  {
    if uids == [] then [] else Vector(final, uids[..|uids| - 1]) + [ToU16(final[uids[|uids| - 1]])]
  }

  function SumOf(weights: seq<int>): int {
    if weights == [] then 0 else SumOf(weights[..|weights| - 1]) + weights[|weights| - 1]
  }

  predicate Increasing(uids: seq<int>) {
    forall i, j :: 0 <= i < j < |uids| ==> uids[i] < uids[j]
  }

  /** `uids` lists the keys of a map in order. */
  ghost predicate Lists(uids: seq<int>, keys: set<int>) {
    && Increasing(uids)
    && (forall i :: 0 <= i < |uids| ==> uids[i] in keys)
    && forall uid :: uid in keys ==> uid in uids
  }

  /** Flooring each weight keeps the vector within one whole. */
  lemma {:induction false} VectorSum(final: map<int, int>, uids: seq<int>)
    requires Lists(uids, final.Keys)
    ensures SumOf(Vector(final, uids)) * PPM <= Sum(final) * U16_MAX
    decreases |uids|
  {
    if uids == [] {
      if final != map[] {
        var k := SomeKey(final);
        assert false;
      }
    } else {
      var last := uids[|uids| - 1];
      var rest := uids[..|uids| - 1];
      SumWithout(final, last);
      ListsRest(uids, final.Keys);
      VectorSum(final - {last}, rest);
      assert (final - {last}).Keys == final.Keys - {last};
      assert Vector(final, uids)[..|uids| - 1] == Vector(final - {last}, rest);
    }
  }

  lemma VectorInRange(paid: map<int, int>, uids: seq<int>)
    requires Lists(uids, paid.Keys) && Sum(paid) <= PPM
    requires forall uid :: uid in paid ==> 0 <= paid[uid] <= PPM
    ensures SumOf(Vector(paid, uids)) <= U16_MAX
    ensures forall i :: 0 <= i < |uids| ==> 0 <= Vector(paid, uids)[i] <= U16_MAX
  {
    VectorSum(paid, uids);
    forall i | 0 <= i < |uids| ensures 0 <= Vector(paid, uids)[i] <= U16_MAX {
      assert uids[i] in paid;
    }
  }

  lemma ListsRest(uids: seq<int>, keys: set<int>)
    requires Lists(uids, keys) && uids != []
    ensures Lists(uids[..|uids| - 1], keys - {uids[|uids| - 1]})
  {
    var n := |uids| - 1;
    assert uids == uids[..n] + [uids[n]];
    assert forall i :: 0 <= i < n ==> uids[i] < uids[n];
  }

  method Pick<T(==)>(s: set<T>) returns (x: T)
    requires s != {}
    ensures x in s
  {
    x :| x in s;
  }

  method Smallest(uids: set<int>) returns (least: int)
    requires uids != {}
    ensures least in uids && forall uid :: uid in uids ==> least <= uid
  {
    least := Pick(uids);
    var unseen := uids - {least};
    while unseen != {}
      invariant least in uids && unseen <= uids
      invariant forall uid :: uid in uids && uid !in unseen ==> least <= uid
      decreases |unseen|
    {
      var other := Pick(unseen);
      unseen := unseen - {other};
      if other < least {
        least := other;
      }
    }
  }

  method SortedUids(keys: set<int>) returns (uids: seq<int>)
    ensures Lists(uids, keys)
  {
    uids := [];
    var rest := keys;
    while rest != {}
      invariant Lists(uids, keys - rest) && rest <= keys
      invariant forall i, uid :: 0 <= i < |uids| && uid in rest ==> uids[i] < uid
      decreases |rest|
    {
      var least := Smallest(rest);
      ghost var before := uids;
      uids := uids + [least];
      rest := rest - {least};
      assert forall uid :: uid in uids <==> uid in before || uid == least;
    }
    assert keys - rest == keys;
  }

  /** No laboratory is paid that does not qualify, and none is paid less than one it outscores. */
  ghost predicate PaysInOrder(a: Allocation, scores: map<int, int>) {
    && |a.uids| == |a.weights| && Lists(a.uids, scores.Keys)
    && forall i, j | 0 <= i < |a.uids| && 0 <= j < |a.uids| ::
         (scores[a.uids[i]] <= scores[a.uids[j]] ==> a.weights[i] <= a.weights[j])
  }

  /** The vector is a settled redistribution of the shares under the cap, short of them by no more
      than the rounding of its passes: whoever is not capped keeps at least its share. */
  ghost predicate Delivers(a: Allocation, shares: map<int, int>, cap: int) {
    exists final: map<int, int> ::
      && Settled(shares, final, a.capped, cap) && Sum(shares) - Sum(final) <= Triangle(|shares| - 1)
      && Lists(a.uids, final.Keys) && a.weights == Vector(final, a.uids)
  }

  /** One laboratory at the cap and the burn uid with the rest. */
  ghost predicate OneCapped(a: Allocation, scores: map<int, int>, config: WeightsConfig) {
    && |a.uids| == |a.weights| && Lists(a.uids, scores.Keys + {config.burnUid})
    && (forall i :: 0 <= i < |a.uids| ==>
          a.weights[i] == ToU16(OneShare(a.uids[i], config.burnUid, config.maximumWeight)))
    && a.capped == if config.maximumWeight < PPM then scores.Keys else {}
  }

  ghost predicate IsVector(a: Allocation) {
    && |a.uids| == |a.weights| && Increasing(a.uids)
    && (forall i :: 0 <= i < |a.weights| ==> 0 <= a.weights[i] <= U16_MAX)
    && SumOf(a.weights) <= U16_MAX
  }

  /** Who is paid what, by how many qualify: none, all of it burns; one, its capped share; more, the
      softmax's shares, capped when the field can absorb the cap. */
  ghost predicate Allocated(a: Allocation, scores: map<int, int>, shares: map<int, int>, config: WeightsConfig)
    requires config.Valid()
  {
    && IsVector(a) && (a.burned <==> scores == map[])
    && (|scores| == 0 ==> a.uids == [config.burnUid] && a.weights == [U16_MAX])
    && (|scores| == 1 ==> OneCapped(a, scores, config))
    && (|scores| >= 2 ==>
          && PaysInOrder(a, scores) && Delivers(a, shares, EffectiveCap(config.maximumWeight, |scores|))
          && CapBinds(a, scores, shares, config))
  }

  /** The declared cap holds exactly for the fields that can absorb it; in others the shares stand. */
  ghost predicate CapBinds(a: Allocation, scores: map<int, int>, shares: map<int, int>, config: WeightsConfig) {
    if |scores| * config.maximumWeight >= PPM
    then forall i :: 0 <= i < |a.weights| ==> a.weights[i] <= ToU16(config.maximumWeight)
    else
      && |a.uids| == |a.weights|
      && forall i :: 0 <= i < |a.uids| ==> a.uids[i] in shares && a.weights[i] == ToU16(shares[a.uids[i]])
  }

  /** The weight vector of a round. `softmax` computes the shares before the cap. */
  method Allocate(candidates: seq<Candidate>, floor: int, config: WeightsConfig,
                  softmax: map<int, int> -> map<int, int>)
    returns (a: Allocation)
    requires config.Valid()
    requires forall scores: map<int, int> :: scores != map[] ==> SoftmaxLike(scores, softmax(scores))
    ensures var scores := Qualified(candidates, config, floor); Allocated(a, scores, softmax(scores), config)
    ensures forall uid :: uid in a.excluded <==>
              exists c :: c in candidates && c.uid == uid && Disqualification(c, config, floor).Some?
    ensures forall uid :: uid in a.excluded ==>
              exists c :: c in candidates && c.uid == uid && Disqualification(c, config, floor) == Some(a.excluded[uid])
  {
    var qualified, excluded := Screen(candidates, floor, config);
    if qualified == map[] {
      a := Allocation([config.burnUid], [U16_MAX], true, map[], {});
    } else if |qualified| == 1 {
      a := AllocateOne(qualified, config);
    } else {
      a := AllocateMany(qualified, softmax(qualified), config);
    }
    ExcludedApart(a, excluded, qualified, softmax(qualified), config);
    a := a.(excluded := excluded);
  }

  lemma ExcludedApart(a: Allocation, excluded: map<int, Reason>, scores: map<int, int>, shares: map<int, int>,
                      config: WeightsConfig)
    requires config.Valid() && Allocated(a, scores, shares, config)
    ensures Allocated(a.(excluded := excluded), scores, shares, config)
  {
  }

  /** Every candidate is either qualified or excluded for a reason. */
  method Screen(candidates: seq<Candidate>, floor: int, config: WeightsConfig)
    returns (qualified: map<int, int>, excluded: map<int, Reason>)
    ensures qualified == Qualified(candidates, config, floor)
    ensures forall uid :: uid in excluded <==>
              exists c :: c in candidates && c.uid == uid && Disqualification(c, config, floor).Some?
    ensures forall uid :: uid in excluded ==>
              exists c :: c in candidates && c.uid == uid && Disqualification(c, config, floor) == Some(excluded[uid])
  {
    qualified, excluded := map[], map[];
    for k := 0 to |candidates|
      invariant qualified == Qualified(candidates[..k], config, floor)
      invariant forall uid :: uid in excluded <==>
                  exists i :: 0 <= i < k && candidates[i].uid == uid &&
                              Disqualification(candidates[i], config, floor).Some?
      invariant forall uid :: uid in excluded ==>
                  exists i :: 0 <= i < k && candidates[i].uid == uid &&
                              Disqualification(candidates[i], config, floor) == Some(excluded[uid])
    {
      var c := candidates[k];
      assert candidates[..k + 1][..k] == candidates[..k];
      var reason := Disqualification(c, config, floor);
      if reason.Some? {
        excluded := excluded[c.uid := reason.value];
      } else {
        qualified := qualified[c.uid := c.rollingScore];
      }
    }
    assert candidates[..|candidates|] == candidates;
  }

  /** A single qualifier keeps its capped share and the rest burns. */
  method AllocateOne(qualified: map<int, int>, config: WeightsConfig) returns (a: Allocation)
    requires |qualified| == 1 && config.Valid()
    ensures IsVector(a) && !a.burned && OneCapped(a, qualified, config)
  {
    assert |qualified.Keys| == 1;
    var only := Pick(qualified.Keys);
    OnlyKey(qualified, only);
    var share := Minimum(config.maximumWeight, PPM);
    var paid := PaidOne(only, config.burnUid, share);
    var uids := SortedUids(paid.Keys);
    a := Allocation(uids, Vector(paid, uids), false, map[], if share < PPM then {only} else {});
    OneAllocated(qualified, config, only, a);
  }

  lemma OneAllocated(qualified: map<int, int>, config: WeightsConfig, only: int, a: Allocation)
    requires config.Valid() && qualified.Keys == {only}
    requires var paid := PaidOne(only, config.burnUid, config.maximumWeight);
             && Lists(a.uids, paid.Keys) && a.weights == Vector(paid, a.uids)
             && a.capped == if config.maximumWeight < PPM then {only} else {}
    ensures IsVector(a) && OneCapped(a, qualified, config)
  {
    var paid := PaidOne(only, config.burnUid, config.maximumWeight);
    PaidOneIs(only, config.burnUid, config.maximumWeight);
    PaidIsVector(paid, a);
    OneListed(only, config.burnUid, config.maximumWeight, a.uids);
    OneIsCapped(qualified, config, only, a, paid.Keys);
  }

  lemma OneIsCapped(qualified: map<int, int>, config: WeightsConfig, only: int, a: Allocation, keys: set<int>)
    requires qualified.Keys == {only} && keys == {only, config.burnUid} && Lists(a.uids, keys) &&
             |a.weights| == |a.uids|
    requires forall i :: 0 <= i < |a.uids| ==>
               a.weights[i] == ToU16(OneShare(a.uids[i], config.burnUid, config.maximumWeight))
    requires a.capped == if config.maximumWeight < PPM then {only} else {}
    ensures OneCapped(a, qualified, config)
  {
    assert qualified.Keys + {config.burnUid} == keys;
  }

  /** Amounts within one whole, listed by uid, are a vector. */
  lemma PaidIsVector(paid: map<int, int>, a: Allocation)
    requires Lists(a.uids, paid.Keys) && a.weights == Vector(paid, a.uids) && Sum(paid) <= PPM
    requires forall uid :: uid in paid ==> 0 <= paid[uid] <= PPM
    ensures IsVector(a)
  {
    VectorInRange(paid, a.uids);
  }

  /** When the one qualifier is the burn uid itself, the burnt remainder is what is written last. */
  function PaidOne(only: int, burn: int, share: int): map<int, int> {
    map[only := share, burn := PPM - share]
  }

  function OneShare(uid: int, burn: int, share: int): int {
    if uid == burn then PPM - share else share
  }

  lemma PaidOneIs(only: int, burn: int, share: int)
    requires 0 <= share <= PPM
    ensures var paid := PaidOne(only, burn, share);
            && paid.Keys == {only, burn} && Sum(paid) <= PPM
            && forall uid :: uid in paid ==> paid[uid] == OneShare(uid, burn, share) && 0 <= paid[uid] <= PPM
  {
    PairSum(only, burn, share);
  }

  lemma OneListed(only: int, burn: int, share: int, uids: seq<int>)
    requires 0 <= share <= PPM && Lists(uids, PaidOne(only, burn, share).Keys)
    ensures var weights := Vector(PaidOne(only, burn, share), uids);
            forall i :: 0 <= i < |uids| ==> weights[i] == ToU16(OneShare(uids[i], burn, share))
  {
    var paid := PaidOne(only, burn, share);
    forall i | 0 <= i < |uids| ensures Vector(paid, uids)[i] == ToU16(OneShare(uids[i], burn, share)) {
      assert uids[i] in paid;
      assert uids[i] == only || uids[i] == burn;
    }
  }

  lemma OnlyKey(m: map<int, int>, k: int)
    requires |m| == 1 && k in m
    ensures m.Keys == {k}
  {
    assert |m.Keys - {k}| == 0;
  }

  lemma PairSum(a: int, b: int, share: int)
    requires 0 <= share <= PPM
    ensures Sum(map[a := share, b := PPM - share]) <= PPM
  {
    var none: map<int, int> := map[];
    assert Sum(none) == 0;
    SumUpdate(none, a, share);
    SumUpdate(none[a := share], b, PPM - share);
    assert none[a := share][b := PPM - share] == map[a := share, b := PPM - share];
  }

  lemma PaidInOrder(qualified: map<int, int>, shares: map<int, int>, final: map<int, int>, capped: set<int>, cap: int,
                    a: Allocation)
    requires SoftmaxLike(qualified, shares) && Settled(shares, final, capped, cap) && final.Keys == qualified.Keys
    requires Lists(a.uids, final.Keys) && a.weights == Vector(final, a.uids)
    ensures PaysInOrder(a, qualified)
  {
  }

  /** A settled redistribution, listed by uid, is a vector. */
  lemma SettledIsVector(shares: map<int, int>, final: map<int, int>, capped: set<int>, cap: int, a: Allocation)
    requires Settled(shares, final, capped, cap) && cap <= PPM && Sum(shares) <= PPM
    requires Lists(a.uids, final.Keys) && a.weights == Vector(final, a.uids)
    ensures IsVector(a)
  {
    PaidIsVector(final, a);
  }

  lemma CapOrShares(qualified: map<int, int>, shares: map<int, int>, final: map<int, int>, config: WeightsConfig,
                    a: Allocation)
    requires config.Valid() && Lists(a.uids, final.Keys) && a.weights == Vector(final, a.uids)
    requires |qualified| * config.maximumWeight < PPM ==> final == shares
    requires |qualified| * config.maximumWeight >= PPM ==>
               forall uid :: uid in final ==> final[uid] <= config.maximumWeight
    ensures CapBinds(a, qualified, shares, config)
  {
    if |qualified| * config.maximumWeight >= PPM {
      forall i | 0 <= i < |a.weights| ensures a.weights[i] <= ToU16(config.maximumWeight) {
        U16Monotone(final[a.uids[i]], config.maximumWeight);
      }
    }
  }

  lemma U16Monotone(a: int, b: int)
    requires a <= b
    ensures ToU16(a) <= ToU16(b)
  {
  }

  method AllocateMany(qualified: map<int, int>, shares: map<int, int>, config: WeightsConfig) returns (a: Allocation)
    requires |qualified| >= 2 && config.Valid() && SoftmaxLike(qualified, shares)
    ensures IsVector(a) && !a.burned && PaysInOrder(a, qualified)
    ensures Delivers(a, shares, EffectiveCap(config.maximumWeight, |qualified|))
    ensures CapBinds(a, qualified, shares, config)
  {
    assert |shares| == |shares.Keys| == |qualified.Keys|;
    ghost var cap := EffectiveCap(config.maximumWeight, |qualified|);
    var final, capped := ShareOut(shares, config.maximumWeight);
    var uids := SortedUids(final.Keys);
    a := Allocation(uids, Vector(final, uids), false, map[], capped);
    SettledIsVector(shares, final, capped, cap, a);
    PaidInOrder(qualified, shares, final, capped, cap, a);
    CapOrShares(qualified, shares, final, config, a);
  }
}
