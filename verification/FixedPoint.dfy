/** Integer arithmetic in parts per million (protocol/fixedpoint.py). */
module FixedPoint {
  import opened Wrappers
  import opened Sums

  const PPM := 1_000_000

  datatype FixedPointError = NoValues | PositionOutOfRange | NothingWeighted

  // ---------------------------------------------------------------- sorting

  ghost predicate IsSorted(s: seq<int>) {
    |s| <= 1 || (s[0] <= s[1] && IsSorted(s[1..]))
  }

  lemma {:induction false} SortedAt(s: seq<int>, i: nat, j: nat)
    requires IsSorted(s) && i <= j < |s|
    ensures s[i] <= s[j]
  {
    if i > 0 {
      SortedAt(s[1..], i - 1, j - 1);
    } else if j > 0 {
      SortedAt(s[1..], 0, j - 1);
    }
  }

  /** `x` put into a sorted sequence, before the first larger element. */
  function Insert(x: int, s: seq<int>): seq<int> {
    if s == [] || x <= s[0] then [x] + s else [s[0]] + Insert(x, s[1..])
  }

  function Sort(s: seq<int>): seq<int> {
    if s == [] then [] else Insert(s[0], Sort(s[1..]))
  }

  lemma {:induction false} InsertSorted(x: int, s: seq<int>)
    requires IsSorted(s)
    ensures IsSorted(Insert(x, s)) && Insert(x, s)[0] == (if s == [] || x <= s[0] then x else s[0])
  {
    if s == [] || x <= s[0] {
      assert ([x] + s)[1..] == s;
    } else {
      InsertSorted(x, s[1..]);
      assert Insert(x, s)[1..] == Insert(x, s[1..]);
    }
  }

  lemma {:induction false} InsertPermutes(x: int, s: seq<int>)
    ensures multiset(Insert(x, s)) == multiset{x} + multiset(s)
  {
    if s != [] && x > s[0] {
      InsertPermutes(x, s[1..]);
      assert s == [s[0]] + s[1..];
    }
  }

  lemma {:induction false} SortSorts(s: seq<int>)
    ensures IsSorted(Sort(s)) && multiset(Sort(s)) == multiset(s) && |Sort(s)| == |s|
  {
    if s != [] {
      assert s == [s[0]] + s[1..];
      SortSorts(s[1..]);
      InsertSorted(s[0], Sort(s[1..]));
      InsertPermutes(s[0], Sort(s[1..]));
    }
    assert |multiset(Sort(s))| == |multiset(s)|;
  }

  /** A multiset has one sorted listing. */
  lemma {:induction false} OneSortedListing(a: seq<int>, b: seq<int>)
    requires IsSorted(a) && IsSorted(b) && multiset(a) == multiset(b)
    ensures a == b
    decreases |a|
  {
    assert |multiset(a)| == |multiset(b)|;
    if a != [] {
      LeastFirst(a, b);
      LeastFirst(b, a);
      assert a == [a[0]] + a[1..] && b == [b[0]] + b[1..];
      assert multiset(a[1..]) == multiset(a) - multiset{a[0]};
      assert multiset(b[1..]) == multiset(b) - multiset{b[0]};
      OneSortedListing(a[1..], b[1..]);
    }
  }

  lemma LeastFirst(a: seq<int>, b: seq<int>)
    requires a != [] && b != [] && IsSorted(a) && multiset(a) == multiset(b)
    ensures a[0] <= b[0]
  {
    assert b[0] in multiset(b);
    var i :| 0 <= i < |a| && a[i] == b[0];
    SortedAt(a, 0, i);
  }

  /** `b` is nowhere below `a`. */
  ghost predicate Dominates(b: seq<int>, a: seq<int>) {
    |a| == |b| && (a == [] || (a[0] <= b[0] && Dominates(b[1..], a[1..])))
  }

  lemma {:induction false} DominatesAt(b: seq<int>, a: seq<int>)
    ensures Dominates(b, a) <==> |a| == |b| && forall i :: 0 <= i < |a| ==> a[i] <= b[i]
    decreases |a|
  {
    if |a| == |b| && a != [] {
      DominatesAt(b[1..], a[1..]);
      if forall i :: 0 <= i < |a| ==> a[i] <= b[i] {
        assert forall i :: 0 <= i < |a[1..]| ==> a[1..][i] == a[i + 1] && b[1..][i] == b[i + 1];
      } else {
        assert forall i :: 0 < i < |a| ==> a[i] == a[1..][i - 1] && b[i] == b[1..][i - 1];
      }
    }
  }

  /** Insertion at different depths: everything inserted past shifts up by one place. */
  lemma {:induction false} InsertDominates(x: int, a: seq<int>, y: int, b: seq<int>)
    requires IsSorted(a) && IsSorted(b) && Dominates(b, a) && x <= y
    ensures Dominates(Insert(y, b), Insert(x, a))
    decreases |a|
  {
    if a == [] {
    } else if x <= a[0] && y <= b[0] {
      assert ([x] + a)[1..] == a && ([y] + b)[1..] == b;
    } else if x <= a[0] {
      InsertDominates(a[0], a[1..], y, b[1..]);
      InsertFirst(a);
      assert ([x] + a)[1..] == a && Insert(y, b)[1..] == Insert(y, b[1..]);
    } else if y <= b[0] {
      InsertDominates(x, a[1..], b[0], b[1..]);
      InsertFirst(b);
      assert ([y] + b)[1..] == b && Insert(x, a)[1..] == Insert(x, a[1..]);
    } else {
      InsertDominates(x, a[1..], y, b[1..]);
      assert Insert(x, a)[1..] == Insert(x, a[1..]) && Insert(y, b)[1..] == Insert(y, b[1..]);
    }
  }

  lemma InsertFirst(s: seq<int>)
    requires s != [] && IsSorted(s)
    ensures Insert(s[0], s[1..]) == s
  {
    assert [s[0]] + s[1..] == s;
  }

  lemma {:induction false} SortDominates(a: seq<int>, b: seq<int>)
    requires Dominates(b, a)
    ensures Dominates(Sort(b), Sort(a))
    decreases |a|
  {
    if a != [] {
      SortDominates(a[1..], b[1..]);
      SortSorts(a[1..]);
      SortSorts(b[1..]);
      InsertDominates(a[0], Sort(a[1..]), b[0], Sort(b[1..]));
    }
  }

  // ---------------------------------------------------------------- quantiles

  /** Lower-interpolated quantile at `ppm`, in integers. */
  function QuantilePpm(values: seq<int>, ppm: int): Result<int, FixedPointError> {
    if values == [] then Failure(NoValues)
    else if !(0 <= ppm <= PPM) then Failure(PositionOutOfRange)
    else
      SortSorts(values);
      Success(At(Sort(values), ppm))
  }

  function At(ordered: seq<int>, ppm: int): int
    requires ordered != [] && 0 <= ppm <= PPM
  {
    if |ordered| == 1 then ordered[0]
    else
      var scaled := ppm * (|ordered| - 1);
      var lowerIndex, remainder := scaled / PPM, scaled % PPM;
      IndexInRange(|ordered|, ppm);
      if remainder == 0 then ordered[lowerIndex]
      else Between(ordered[lowerIndex], ordered[lowerIndex + 1], remainder)
  }

  function Between(lower: int, upper: int, remainder: int): int {
    lower + (upper - lower) * remainder / PPM
  }

  lemma IndexInRange(count: nat, ppm: int)
    requires count >= 1 && 0 <= ppm <= PPM
    ensures var scaled := ppm * (count - 1);
            0 <= scaled / PPM < count && (scaled % PPM != 0 ==> scaled / PPM + 1 < count)
  {
    MulMonotone(0, ppm, count - 1);
    MulMonotone(ppm, PPM, count - 1);
  }

  /** Interpolation stays between its ends and rises with either end and with the position. */
  lemma BetweenMonotone(l1: int, u1: int, r1: int, l2: int, u2: int, r2: int)
    requires l1 <= l2 && u1 <= u2 && l1 <= u1 && l2 <= u2 && 0 <= r1 <= r2 <= PPM
    ensures l1 <= Between(l1, u1, r1) <= u1
    ensures Between(l1, u1, r1) <= Between(l2, u2, r2)
  {
    var f1, f2 := (u1 - l1) * r1, (u2 - l2) * r2;
    MulMonotone(0, u1 - l1, r1);
    assert (u1 - l1) * r1 <= (u1 - l1) * PPM by { MulMonotone(r1, PPM, u1 - l1); }
    // l * PPM + (u - l) * r == l * (PPM - r) + u * r rises with l and with u, and with r as u >= l.
    assert l1 * PPM + f1 == l1 * (PPM - r1) + u1 * r1;
    assert l2 * PPM + (u2 - l2) * r1 == l2 * (PPM - r1) + u2 * r1;
    MulMonotone(l1, l2, PPM - r1);
    MulMonotone(u1, u2, r1);
    assert (u2 - l2) * r1 <= (u2 - l2) * r2 by { MulMonotone(r1, r2, u2 - l2); }
    assert l1 * PPM + f1 <= l2 * PPM + f2;
    assert (l1 * PPM + f1) / PPM == Between(l1, u1, r1);
    assert (l2 * PPM + f2) / PPM == Between(l2, u2, r2);
  }

  /** Values in another order have the same quantile. */
  lemma QuantileIgnoresOrder(a: seq<int>, b: seq<int>, ppm: int)
    requires multiset(a) == multiset(b)
    ensures QuantilePpm(a, ppm) == QuantilePpm(b, ppm)
  {
    assert |multiset(a)| == |multiset(b)|;
    SortSorts(a);
    SortSorts(b);
    OneSortedListing(Sort(a), Sort(b));
  }

  /** A quantile lies between the least and the greatest value, and is them at the two ends. */
  lemma QuantileInRange(values: seq<int>, ppm: int, low: int, high: int)
    requires values != [] && 0 <= ppm <= PPM
    requires low in values && high in values && forall v :: v in values ==> low <= v <= high
    ensures low <= QuantilePpm(values, ppm).value <= high
    ensures QuantilePpm(values, 0).value == low && QuantilePpm(values, PPM).value == high
  {
    var ordered := Sort(values);
    SortSorts(values);
    SortedEnds(values, low, high);
    DominatesAt(ordered, ordered);
    AtMonotone(ordered, ordered, 0, ppm);
    AtMonotone(ordered, ordered, ppm, PPM);
    AtEnds(ordered);
  }

  lemma SortMembers(values: seq<int>)
    ensures IsSorted(Sort(values)) && |Sort(values)| == |values|
    ensures forall v :: v in Sort(values) <==> v in values
  {
    SortSorts(values);
    forall v ensures v in Sort(values) <==> v in values {
      assert v in multiset(Sort(values)) <==> v in multiset(values);
    }
  }

  lemma SortedEnds(values: seq<int>, low: int, high: int)
    requires values != [] && low in values && high in values && forall v :: v in values ==> low <= v <= high
    ensures Sort(values) != [] && Sort(values)[0] == low && Sort(values)[|Sort(values)| - 1] == high
  {
    var ordered := Sort(values);
    SortMembers(values);
    var i :| 0 <= i < |ordered| && ordered[i] == low;
    var j :| 0 <= j < |ordered| && ordered[j] == high;
    EndsOfSorted(ordered, i, j);
  }

  lemma EndsOfSorted(ordered: seq<int>, i: nat, j: nat)
    requires IsSorted(ordered) && i < |ordered| && j < |ordered|
    requires forall v :: v in ordered ==> ordered[i] <= v <= ordered[j]
    ensures ordered[0] == ordered[i] && ordered[|ordered| - 1] == ordered[j]
  {
    SortedAt(ordered, 0, i);
    SortedAt(ordered, j, |ordered| - 1);
    assert ordered[0] in ordered && ordered[|ordered| - 1] in ordered;
  }

  lemma AtEnds(s: seq<int>)
    requires s != []
    ensures At(s, 0) == s[0] && At(s, PPM) == s[|s| - 1]
  {
    assert PPM * (|s| - 1) % PPM == 0 && PPM * (|s| - 1) / PPM == |s| - 1;
  }

  /** Position and data together: a later position in nowhere lower data is not lower. */
  lemma AtMonotone(a: seq<int>, b: seq<int>, p: int, q: int)
    requires a != [] && IsSorted(a) && IsSorted(b) && Dominates(b, a) && 0 <= p <= q <= PPM
    ensures At(a, p) <= At(b, q)
  {
    var n := |a|;
    if n > 1 {
      var sp, sq := p * (n - 1), q * (n - 1);
      MulMonotone(p, q, n - 1);
      IndexInRange(n, p);
      IndexInRange(n, q);
      var ip, iq := sp / PPM, sq / PPM;
      var rp, rq := sp % PPM, sq % PPM;
      assert ip <= iq;
      AtIsBetween(a, p);
      AtIsBetween(b, q);
      var lp, lq := a[ip], b[iq];
      var up := if rp == 0 then a[ip] else a[ip + 1];
      var uq := if rq == 0 then b[iq] else b[iq + 1];
      DominatesAt(b, a);
      if ip < n - 1 {
        SortedAt(a, ip, ip + 1);
      }
      if iq < n - 1 {
        SortedAt(b, iq, iq + 1);
      }
      if ip == iq {
        if rp == 0 {
          BetweenMonotone(lp, lp, 0, lq, uq, rq);
        } else {
          BetweenMonotone(lp, up, rp, lq, uq, rq);
        }
      } else {
        BetweenMonotone(lp, up, rp, lp, up, rp);
        BetweenMonotone(lq, uq, rq, lq, uq, rq);
        SortedAt(b, ip + 1, iq);
        assert up <= b[ip + 1] <= lq;
      }
    }
  }

  lemma AtIsBetween(s: seq<int>, p: int)
    requires |s| > 1 && IsSorted(s) && 0 <= p <= PPM
    ensures var scaled := p * (|s| - 1); var i, r := scaled / PPM, scaled % PPM;
            && 0 <= i < |s| && (r != 0 ==> i + 1 < |s|)
            && At(s, p) == Between(s[i], if r == 0 then s[i] else s[i + 1], r)
  {
    IndexInRange(|s|, p);
  }

  /** Raising any of the values, at whatever places, never lowers a quantile; nor does moving its
      position up. */
  lemma QuantileMonotone(a: seq<int>, b: seq<int>, p: int, q: int)
    requires a != [] && Dominates(b, a) && 0 <= p <= q <= PPM
    ensures QuantilePpm(a, p).value <= QuantilePpm(b, q).value
  {
    SortSorts(a);
    SortSorts(b);
    SortDominates(a, b);
    AtMonotone(Sort(a), Sort(b), p, q);
  }

  // ---------------------------------------------------------------- weighted means

  /** The weights of the criteria that are present. */
  function Present(values: map<string, int>, weights: map<string, int>): map<string, int> {
    map name | name in values && name in weights :: weights[name]
  }

  function Products(values: map<string, int>, present: map<string, int>): map<string, int>
    requires present.Keys <= values.Keys
  {
    map name | name in present :: values[name] * present[name]
  }

  /** Weighted mean over the criteria present, in one division. */
  ghost function ApplyWeights(values: map<string, int>, weights: map<string, int>): Result<int, FixedPointError> {
    var present := Present(values, weights);
    if Sum(present) <= 0 then Failure(NothingWeighted)
    else Success(Sum(Products(values, present)) / Sum(present))
  }

  /** Values between `low` and `high`, each with a weight that is not negative. */
  ghost predicate Weighted(values: map<string, int>, present: map<string, int>, low: int, high: int) {
    present.Keys <= values.Keys && forall n :: n in present ==> present[n] >= 0 && low <= values[n] <= high
  }

  /** A weighted sum whose mean is between `low` and `high`. */
  ghost predicate MeanWithin(low: int, high: int, total: int, sum: int) {
    low * total <= sum <= high * total
  }

  lemma {:induction false} ProductsBetween(values: map<string, int>, present: map<string, int>, low: int, high: int)
    requires Weighted(values, present, low, high)
    ensures MeanWithin(low, high, Sum(present), Sum(Products(values, present)))
    decreases |present|
  {
    if present == map[] {
      assert Products(values, present) == map[];
    } else {
      var k :| k in present;
      var rest := present - {k};
      SumWithout(present, k);
      ProductsWithout(values, present, k);
      ProductsBetween(values, rest, low, high);
      MeanStep(low, high, present[k], values[k], Sum(rest), Sum(Products(values, rest)),
               Sum(present), Sum(Products(values, present)));
    }
  }

  lemma ProductsWithout(values: map<string, int>, present: map<string, int>, k: string)
    requires present.Keys <= values.Keys && k in present
    ensures Sum(Products(values, present)) == values[k] * present[k] + Sum(Products(values, present - {k}))
  {
    var products := Products(values, present);
    SumWithout(products, k);
    assert products - {k} == Products(values, present - {k});
  }

  lemma MeanStep(low: int, high: int, weight: int, value: int, total: int, sum: int, newTotal: int, newSum: int)
    requires weight >= 0 && low <= value <= high && MeanWithin(low, high, total, sum)
    requires newTotal == weight + total && newSum == value * weight + sum
    ensures MeanWithin(low, high, newTotal, newSum)
  {
    MulMonotone(low, value, weight);
    MulMonotone(value, high, weight);
    assert low * newTotal == low * weight + low * total;
    assert high * newTotal == high * weight + high * total;
  }

  /** The mean of what is present stays within what is present, whatever the weights of the
      criteria that were left out: an omitted criterion is not a criterion scored zero. */
  lemma OmittedIsNotZero(values: map<string, int>, weights: map<string, int>, low: int, high: int)
    requires ApplyWeights(values, weights).Success?
    requires forall n :: n in weights ==> weights[n] >= 0
    requires forall n :: n in values && n in weights ==> low <= values[n] <= high
    ensures low <= ApplyWeights(values, weights).value <= high
  {
    var present := Present(values, weights);
    ProductsBetween(values, present, low, high);
    var total, sum := Sum(present), Sum(Products(values, present));
    DivideBetween(low, high, sum, total);
  }

  lemma DivideBetween(low: int, high: int, sum: int, total: int)
    requires total > 0 && MeanWithin(low, high, total, sum)
    ensures low <= sum / total <= high
  {
    var q := sum / total;
    assert sum == q * total + sum % total;
    if q < low {
      MulMonotone(q + 1, low, total);
    }
    if q > high {
      MulMonotone(high + 1, q, total);
    }
  }
}
