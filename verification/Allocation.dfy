/** Largest-remainder allocation of a fixed charge over the lines of a shipment. */
module Allocation {
  import opened Wrappers
  import opened Rounding
  import opened Permutations
  import opened TextOrder

  type Id = string

  // Sums over sets of lines.

  ghost function Sum(s: set<Id>, f: map<Id, real>): real
    requires s <= f.Keys
  {
    if s == {} then 0.0 else var x :| x in s; f[x] + Sum(s - {x}, f)
  }

  lemma {:induction false} SumPick(s: set<Id>, f: map<Id, real>, x: Id)
    requires s <= f.Keys && x in s
    ensures Sum(s, f) == f[x] + Sum(s - {x}, f)
    decreases |s|
  {
    var y :| y in s && Sum(s, f) == f[y] + Sum(s - {y}, f);
    if y != x {
      SumPick(s - {y}, f, x);
      SumPick(s - {x}, f, y);
      assert s - {y} - {x} == s - {x} - {y};
    }
  }

  predicate ScaledAt(f: map<Id, real>, g: map<Id, real>, c: real, x: Id) {
    x in f && x in g && g[x] == c * f[x]
  }

  lemma {:induction false} SumScaled(s: set<Id>, f: map<Id, real>, g: map<Id, real>, c: real)
    requires s <= f.Keys && s <= g.Keys && forall x {:trigger ScaledAt(f, g, c, x)} :: x in s ==> ScaledAt(f, g, c, x)
    ensures Sum(s, g) == c * Sum(s, f)
    decreases |s|
  {
    if s != {} {
      var x :| x in s;
      SumPick(s, f, x);
      SumPick(s, g, x);
      SumScaled(s - {x}, f, g, c);
      assert ScaledAt(f, g, c, x);
      Distributes(c, f[x], Sum(s - {x}, f));
    }
  }

  lemma Distributes(c: real, a: real, b: real)
    ensures c * (a + b) == c * a + c * b
  {
  }

  lemma {:induction false} SumPlus(s: set<Id>, f: map<Id, real>, g: map<Id, real>, h: map<Id, real>)
    requires s <= f.Keys && s <= g.Keys && s <= h.Keys && forall x :: x in s ==> h[x] == f[x] + g[x]
    ensures Sum(s, h) == Sum(s, f) + Sum(s, g)
    decreases |s|
  {
    if s != {} {
      var x :| x in s;
      SumPick(s, f, x);
      SumPick(s, g, x);
      SumPick(s, h, x);
      SumPlus(s - {x}, f, g, h);
    }
  }

  /** Rests of less than one unit each add up to less than the number of lines that have one. */
  lemma {:induction false} SumOfRests(s: set<Id>, f: map<Id, real>, some: set<Id>)
    requires s <= f.Keys && some <= s
    requires forall x :: x in s ==> 0.0 <= f[x] < 1.0 && (f[x] > 0.0 <==> x in some)
    ensures 0.0 <= Sum(s, f) <= |some| as real
    ensures some != {} ==> Sum(s, f) < |some| as real
    decreases |s|
  {
    if s != {} {
      var x :| x in s;
      SumPick(s, f, x);
      SumOfRests(s - {x}, f, some - {x});
    }
  }

  /** A sum of whole units is whole. */
  ghost function Units(s: set<Id>, f: map<Id, int>): int
    requires s <= f.Keys
  {
    if s == {} then 0 else var x :| x in s; f[x] + Units(s - {x}, f)
  }

  lemma {:induction false} UnitsPick(s: set<Id>, f: map<Id, int>, x: Id)
    requires s <= f.Keys && x in s
    ensures Units(s, f) == f[x] + Units(s - {x}, f)
    decreases |s|
  {
    var y :| y in s && Units(s, f) == f[y] + Units(s - {y}, f);
    if y != x {
      UnitsPick(s - {y}, f, x);
      UnitsPick(s - {x}, f, y);
      assert s - {y} - {x} == s - {x} - {y};
    }
  }

  lemma {:induction false} UnitsAsReal(s: set<Id>, f: map<Id, int>, g: map<Id, real>)
    requires s <= f.Keys && s <= g.Keys && forall x :: x in s ==> g[x] == f[x] as real
    ensures Sum(s, g) == Units(s, f) as real
    decreases |s|
  {
    if s != {} {
      var x :| x in s;
      SumPick(s, g, x);
      UnitsPick(s, f, x);
      UnitsAsReal(s - {x}, f, g);
    }
  }

  /** One more unit for each line in `bumped`. */
  lemma {:induction false} UnitsBumped(s: set<Id>, f: map<Id, int>, g: map<Id, int>, bumped: set<Id>)
    requires s <= f.Keys && s <= g.Keys && bumped <= s
    requires forall x :: x in s ==> g[x] == f[x] + if x in bumped then 1 else 0
    ensures Units(s, g) == Units(s, f) + |bumped|
    decreases |s|
  {
    if s != {} {
      var x :| x in s;
      UnitsPick(s, f, x);
      UnitsPick(s, g, x);
      UnitsBumped(s - {x}, f, g, bumped - {x});
    }
  }

  // The order in which lines get the left-over units: larger rest first, then the line identifier.

  predicate Before(rests: map<Id, real>, a: Id, b: Id)
    requires a in rests && b in rests
  {
    rests[a] > rests[b] || (rests[a] == rests[b] && Less(a, b))
  }

  lemma BeforeIsTotal(rests: map<Id, real>, a: Id, b: Id)
    requires a in rests && b in rests
    ensures a == b || Before(rests, a, b) || Before(rests, b, a)
    ensures !(Before(rests, a, b) && Before(rests, b, a)) && !(a == b && Before(rests, a, b))
  {
    LessIsTotal(a, b);
  }

  lemma BeforeIsTransitive(rests: map<Id, real>, a: Id, b: Id, c: Id)
    requires a in rests && b in rests && c in rests && Before(rests, a, b) && Before(rests, b, c)
    ensures Before(rests, a, c)
  {
    if rests[a] == rests[b] == rests[c] {
      LessIsTransitive(a, b, c);
    }
  }

  function Insert(rests: map<Id, real>, order: seq<Id>, x: Id): (r: seq<Id>)
    requires x in rests && forall y :: y in order ==> y in rests
    ensures forall y :: y in r <==> y in order || y == x
    ensures |r| == |order| + 1
  {
    if order == [] then [x]
    else if Before(rests, x, order[0]) then [x] + order
    else [order[0]] + Insert(rests, order[1..], x)
  }

  function Sorted(rests: map<Id, real>, keys: seq<Id>): (order: seq<Id>)
    requires forall y :: y in keys ==> y in rests
    ensures forall y :: y in order <==> y in keys
    ensures |order| == |keys|
  {
    if keys == [] then [] else Insert(rests, Sorted(rests, keys[1..]), keys[0])
  }

  predicate Ordered(rests: map<Id, real>, order: seq<Id>)
    requires forall y :: y in order ==> y in rests
  {
    forall i, j :: 0 <= i < j < |order| ==> Before(rests, order[i], order[j])
  }

  predicate Distinct(keys: seq<Id>) {
    forall i, j :: 0 <= i < j < |keys| ==> keys[i] != keys[j]
  }

  lemma {:induction false} InsertKeepsOrder(rests: map<Id, real>, order: seq<Id>, x: Id)
    requires x in rests && (forall y :: y in order ==> y in rests) && Ordered(rests, order) && x !in order
    ensures Ordered(rests, Insert(rests, order, x))
  {
    if order != [] {
      BeforeIsTotal(rests, x, order[0]);
      if Before(rests, x, order[0]) {
        forall j | 0 <= j < |order|
          ensures Before(rests, x, order[j])
        {
          if j > 0 {
            BeforeIsTransitive(rests, x, order[0], order[j]);
          }
        }
      } else {
        InsertKeepsOrder(rests, order[1..], x);
        var rest := Insert(rests, order[1..], x);
        forall j | 0 <= j < |rest|
          ensures Before(rests, order[0], rest[j])
        {
          assert rest[j] in rest;
          if rest[j] != x {
            var k :| 0 <= k < |order[1..]| && order[1..][k] == rest[j];
            assert order[k + 1] == rest[j];
          }
        }
      }
    }
  }

  lemma {:induction false} SortedIsOrdered(rests: map<Id, real>, keys: seq<Id>)
    requires (forall y :: y in keys ==> y in rests) && Distinct(keys)
    ensures Ordered(rests, Sorted(rests, keys))
  {
    if keys != [] {
      SortedIsOrdered(rests, keys[1..]);
      assert keys[0] !in keys[1..];
      InsertKeepsOrder(rests, Sorted(rests, keys[1..]), keys[0]);
    }
  }

  /** The lines that come before `x`. */
  function Ahead(rests: map<Id, real>, x: Id): set<Id>
    requires x in rests
  {
    set y | y in rests && Before(rests, y, x)
  }

  /** The first `count` lines in that order. */
  function Favoured(rests: map<Id, real>, count: nat): set<Id> {
    set x | x in rests && |Ahead(rests, x)| < count
  }

  lemma {:induction false} DistinctCount(keys: seq<Id>)
    requires Distinct(keys)
    ensures |(set y | y in keys)| == |keys|
  {
    if keys != [] {
      DistinctCount(keys[1..]);
      assert keys[0] !in keys[1..];
      assert (set y | y in keys) == (set y | y in keys[1..]) + {keys[0]};
    }
  }

  lemma OrderedIsDistinct(rests: map<Id, real>, order: seq<Id>)
    requires (forall y :: y in order ==> y in rests) && Ordered(rests, order)
    ensures Distinct(order)
  {
    forall i, j | 0 <= i < j < |order|
      ensures order[i] != order[j]
    {
      BeforeIsTotal(rests, order[i], order[j]);
    }
  }

  lemma AheadIsPrefix(rests: map<Id, real>, order: seq<Id>, i: nat)
    requires (forall y :: y in order <==> y in rests) && Ordered(rests, order) && i < |order|
    ensures Ahead(rests, order[i]) == set y | y in order[..i]
    ensures |Ahead(rests, order[i])| == i
  {
    OrderedIsDistinct(rests, order);
    forall y | y in rests
      ensures Before(rests, y, order[i]) <==> y in order[..i]
    {
      var k :| 0 <= k < |order| && order[k] == y;
      BeforeIsTotal(rests, order[k], order[i]);
      assert k < i ==> order[..i][k] == y;
    }
    DistinctCount(order[..i]);
  }

  /** The favoured lines are the start of any listing in order, and there are as many as asked for. */
  lemma FavouredIsPrefix(rests: map<Id, real>, order: seq<Id>, count: nat)
    requires (forall y :: y in order <==> y in rests) && Ordered(rests, order) && count <= |order|
    ensures Favoured(rests, count) == set y | y in order[..count]
    ensures |Favoured(rests, count)| == count
  {
    OrderedIsDistinct(rests, order);
    forall x | x in rests
      ensures |Ahead(rests, x)| < count <==> x in order[..count]
    {
      var k :| 0 <= k < |order| && order[k] == x;
      AheadIsPrefix(rests, order, k);
      assert k < count ==> order[..count][k] == x;
    }
    DistinctCount(order[..count]);
  }

  // Shares.

  function Quota(total: nat, factor: real, denominator: real): real
    requires denominator > 0.0
  {
    total as real * factor / denominator
  }

  function Quotas(factors: map<Id, real>, total: nat, denominator: real): map<Id, real>
    requires denominator > 0.0
  {
    map x | x in factors :: Quota(total, factors[x], denominator)
  }

  function Floors(quotas: map<Id, real>): map<Id, int> {
    map x | x in quotas :: quotas[x].Floor
  }

  function Rests(quotas: map<Id, real>): map<Id, real> {
    map x | x in quotas :: quotas[x] - quotas[x].Floor as real
  }

  ghost predicate Allocatable(factors: map<Id, real>) {
    (forall x :: x in factors ==> factors[x] >= 0.0) && Sum(factors.Keys, factors) > 0.0
  }

  ghost function QuotasOf(factors: map<Id, real>, total: nat): map<Id, real>
    requires Allocatable(factors)
  {
    Quotas(factors, total, Sum(factors.Keys, factors))
  }

  /** The units that rounding down has left over. */
  ghost function LeftOver(factors: map<Id, real>, total: nat): int
    requires Allocatable(factors)
  {
    total - Units(factors.Keys, Floors(QuotasOf(factors, total)))
  }

  ghost predicate GetsExtra(factors: map<Id, real>, total: nat, x: Id)
    requires Allocatable(factors) && x in factors
  {
    |Ahead(Rests(QuotasOf(factors, total)), x)| < LeftOver(factors, total)
  }

  /** What each line is charged, in units: its quota rounded down, and one of the left-over units if its turn comes. */
  ghost function Share(factors: map<Id, real>, total: nat, x: Id): int
    requires Allocatable(factors) && x in factors
  {
    QuotasOf(factors, total)[x].Floor + if GetsExtra(factors, total, x) then 1 else 0
  }

  ghost function Shares(factors: map<Id, real>, total: nat): map<Id, int>
    requires Allocatable(factors)
  {
    map x | x in factors :: Share(factors, total, x)
  }

  lemma QuotaScales(total: nat, factor: real, denominator: real)
    requires denominator > 0.0
    ensures Quota(total, factor, denominator) == (total as real / denominator) * factor
  {
  }

  lemma QuotaOrder(total: nat, a: real, b: real, denominator: real)
    requires denominator > 0.0 && a <= b
    ensures Quota(total, a, denominator) <= Quota(total, b, denominator)
    ensures Quota(total, 0.0, denominator) == 0.0
    ensures total > 0 && a < b ==> Quota(total, a, denominator) < Quota(total, b, denominator)
  {
    QuotaScales(total, a, denominator);
    QuotaScales(total, b, denominator);
    var c := total as real / denominator;
    assert c >= 0.0 && (total > 0 ==> c > 0.0);
    assert c * (b - a) >= 0.0 && (c > 0.0 && a < b ==> c * (b - a) > 0.0);
  }

  /** The quotas add up to the total. */
  lemma QuotasAddUp(factors: map<Id, real>, total: nat)
    requires Allocatable(factors)
    ensures Sum(factors.Keys, QuotasOf(factors, total)) == total as real
  {
    var denominator := Sum(factors.Keys, factors);
    var c := total as real / denominator;
    var quotas := QuotasOf(factors, total);
    forall x | x in factors
      ensures ScaledAt(factors, quotas, c, x)
    {
      QuotaScales(total, factors[x], denominator);
    }
    SumScaled(factors.Keys, factors, quotas, c);
    TimesThenOver(total as real, denominator);
  }

  ghost function WithRest(factors: map<Id, real>, total: nat): set<Id>
    requires Allocatable(factors)
  {
    set x | x in factors && Rests(QuotasOf(factors, total))[x] > 0.0
  }

  /** There are fewer left-over units than lines with a rest, unless there are none of either. */
  lemma LeftOverIsSmall(factors: map<Id, real>, total: nat)
    requires Allocatable(factors)
    ensures 0 <= LeftOver(factors, total) <= |WithRest(factors, total)| <= |factors|
    ensures WithRest(factors, total) != {} ==> LeftOver(factors, total) < |WithRest(factors, total)|
  {
    var quotas := QuotasOf(factors, total);
    var floors, rests := Floors(quotas), Rests(quotas);
    var whole := map x | x in floors :: floors[x] as real;
    QuotasAddUp(factors, total);
    UnitsAsReal(factors.Keys, floors, whole);
    SumPlus(factors.Keys, whole, rests, quotas);
    SumOfRests(factors.Keys, rests, WithRest(factors, total));
    assert LeftOver(factors, total) as real == Sum(factors.Keys, rests);
    SubsetIsSmaller(WithRest(factors, total), factors.Keys);
  }

  lemma SubsetIsSmaller<T>(a: set<T>, b: set<T>)
    requires a <= b
    ensures |a| <= |b|
  {
    assert b == a + (b - a);
  }

  lemma {:induction false} Listing(s: set<Id>) returns (keys: seq<Id>)
    ensures Distinct(keys) && forall y :: y in keys <==> y in s
    decreases |s|
  {
    if s == {} {
      keys := [];
    } else {
      var x :| x in s;
      var rest := Listing(s - {x});
      keys := [x] + rest;
    }
  }

  lemma FavouredCount(rests: map<Id, real>, count: nat)
    requires count <= |rests|
    ensures |Favoured(rests, count)| == count
  {
    var keys := Listing(rests.Keys);
    DistinctCount(keys);
    assert (set y | y in keys) == rests.Keys;
    SortedIsOrdered(rests, keys);
    FavouredIsPrefix(rests, Sorted(rests, keys), count);
  }

  lemma ShareIsFavoured(factors: map<Id, real>, total: nat, x: Id)
    requires Allocatable(factors) && x in factors && LeftOver(factors, total) >= 0
    ensures var quotas := QuotasOf(factors, total);
            Shares(factors, total)[x] ==
              Floors(quotas)[x] + if x in Favoured(Rests(quotas), LeftOver(factors, total)) then 1 else 0
  {
  }

  /** The shares add up to the whole charge. */
  lemma SharesAddUp(factors: map<Id, real>, total: nat)
    requires Allocatable(factors)
    ensures Units(factors.Keys, Shares(factors, total)) == total
  {
    LeftOverIsSmall(factors, total);
    var quotas := QuotasOf(factors, total);
    var floors, rests, count := Floors(quotas), Rests(quotas), LeftOver(factors, total);
    assert rests.Keys == factors.Keys;
    FavouredCount(rests, count);
    forall x | x in factors
      ensures Shares(factors, total)[x] == floors[x] + if x in Favoured(rests, count) then 1 else 0
    {
      ShareIsFavoured(factors, total, x);
    }
    UnitsBumped(factors.Keys, floors, Shares(factors, total), Favoured(rests, count));
  }

  /** A line without a rest never gets a left-over unit. */
  lemma ExtraOnlyForRests(factors: map<Id, real>, total: nat, x: Id)
    requires Allocatable(factors) && x in factors && GetsExtra(factors, total, x)
    ensures Rests(QuotasOf(factors, total))[x] > 0.0
  {
    LeftOverIsSmall(factors, total);
    var rests := Rests(QuotasOf(factors, total));
    if rests[x] == 0.0 {
      SubsetIsSmaller(WithRest(factors, total), Ahead(rests, x));
      assert false;
    }
  }

  /** Every share is within one unit of its exact quota, and never negative. */
  lemma ShareIsClose(factors: map<Id, real>, total: nat, x: Id)
    requires Allocatable(factors) && x in factors
    ensures QuotasOf(factors, total)[x] - 1.0 < Share(factors, total, x) as real < QuotasOf(factors, total)[x] + 1.0
    ensures Share(factors, total, x) >= 0
  {
    var q := QuotasOf(factors, total)[x];
    assert q.Floor as real <= q < q.Floor as real + 1.0;
    if GetsExtra(factors, total, x) {
      ExtraOnlyForRests(factors, total, x);
    }
    QuotaOrder(total, 0.0, factors[x], Sum(factors.Keys, factors));
  }

  lemma ZeroFactorZeroShare(factors: map<Id, real>, total: nat, x: Id)
    requires Allocatable(factors) && x in factors && factors[x] == 0.0
    ensures Share(factors, total, x) == 0
  {
    QuotaOrder(total, 0.0, 0.0, Sum(factors.Keys, factors));
    assert QuotasOf(factors, total)[x] == 0.0 && (0.0 as real).Floor == 0;
    if GetsExtra(factors, total, x) {
      ExtraOnlyForRests(factors, total, x);
    }
  }

  /** A larger factor never gets a smaller share. */
  lemma LargerFactorNotLess(factors: map<Id, real>, total: nat, x: Id, y: Id)
    requires Allocatable(factors) && x in factors && y in factors && factors[x] < factors[y]
    ensures Share(factors, total, x) <= Share(factors, total, y)
  {
    var quotas := QuotasOf(factors, total);
    var rests := Rests(quotas);
    QuotaOrder(total, factors[x], factors[y], Sum(factors.Keys, factors));
    LeftOverIsSmall(factors, total);
    assert quotas[x].Floor <= quotas[y].Floor;
    if quotas[x].Floor == quotas[y].Floor && GetsExtra(factors, total, x) {
      ExtraOnlyForRests(factors, total, x);
      AheadOfMore(factors, total, x, y);
    }
  }

  lemma AheadOfMore(factors: map<Id, real>, total: nat, x: Id, y: Id)
    requires Allocatable(factors) && x in factors && y in factors && factors[x] < factors[y]
    requires QuotasOf(factors, total)[x].Floor == QuotasOf(factors, total)[y].Floor
    requires Rests(QuotasOf(factors, total))[x] > 0.0
    ensures |Ahead(Rests(QuotasOf(factors, total)), y)| <= |Ahead(Rests(QuotasOf(factors, total)), x)|
  {
    var rests := Rests(QuotasOf(factors, total));
    QuotaOrder(total, factors[x], factors[y], Sum(factors.Keys, factors));
    if total == 0 {
      ZeroTotal(factors, x);
    }
    assert Before(rests, y, x);
    forall z | z in Ahead(rests, y)
      ensures z in Ahead(rests, x)
    {
      BeforeIsTransitive(rests, z, y, x);
    }
    SubsetIsSmaller(Ahead(rests, y), Ahead(rests, x));
  }

  lemma ZeroTotal(factors: map<Id, real>, x: Id)
    requires Allocatable(factors) && x in factors
    ensures Rests(QuotasOf(factors, 0))[x] == 0.0
  {
    QuotaScales(0, factors[x], Sum(factors.Keys, factors));
  }

  // The calculation, line by line.

  datatype Basis = CustomsValue | Weight | Volume | Quantity

  datatype AllocationLine = AllocationLine(id: Id, item: string, customsValue: real, quantity: real, weight: Option<real>, volume: Option<real>)

  datatype Code = ChargeInvalid | LinesRequired | ScaleRange | DuplicateLine | SourceMissing | FactorInvalid | DenominatorZero

  function Factor(line: AllocationLine, basis: Basis): Option<real> {
    match basis
    case CustomsValue => Some(line.customsValue)
    case Weight => line.weight
    case Volume => line.volume
    case Quantity => Some(line.quantity)
  }

  predicate Measured(line: AllocationLine, basis: Basis) {
    Factor(line, basis).Some? && Factor(line, basis).value >= 0.0
  }

  predicate AllMeasured(lines: seq<AllocationLine>, basis: Basis) {
    forall k {:trigger lines[k]} :: 0 <= k < |lines| ==> Measured(lines[k], basis)
  }

  /** The factor of every line, whatever order the lines are listed in. */
  function Factors(lines: seq<AllocationLine>, basis: Basis): map<Id, real>
    requires AllMeasured(lines, basis)
  {
    if lines == [] then map[]
    else Factors(lines[..|lines| - 1], basis)[lines[|lines| - 1].id := Factor(lines[|lines| - 1], basis).value]
  }

  predicate DistinctIds(lines: seq<AllocationLine>) {
    forall j, k {:trigger lines[j], lines[k]} :: 0 <= j < k < |lines| ==> lines[j].id != lines[k].id
  }

  function Ids(lines: seq<AllocationLine>): set<Id> {
    set l | l in lines :: l.id
  }

  lemma {:induction false} FactorsKeys(lines: seq<AllocationLine>, basis: Basis)
    requires AllMeasured(lines, basis)
    ensures Factors(lines, basis).Keys == Ids(lines)
    ensures forall x :: x in Factors(lines, basis) ==> Factors(lines, basis)[x] >= 0.0
  {
    if lines != [] {
      var before, last := lines[..|lines| - 1], lines[|lines| - 1];
      FactorsKeys(before, basis);
      assert lines == before + [last];
      assert Ids(lines) == Ids(before) + {last.id};
      assert Measured(last, basis);
    }
  }

  lemma {:induction false} FactorsValues(lines: seq<AllocationLine>, basis: Basis, k: nat)
    requires AllMeasured(lines, basis) && DistinctIds(lines) && k < |lines|
    ensures lines[k].id in Factors(lines, basis) && Factors(lines, basis)[lines[k].id] == Factor(lines[k], basis).value
  {
    if k < |lines| - 1 {
      FactorsValues(lines[..|lines| - 1], basis, k);
      assert lines[k].id != lines[|lines| - 1].id;
    }
  }

  lemma SameFactors(lines: seq<AllocationLine>, lines': seq<AllocationLine>, basis: Basis)
    requires multiset(lines) == multiset(lines') && DistinctIds(lines) && DistinctIds(lines')
    requires AllMeasured(lines, basis) && AllMeasured(lines', basis)
    ensures Factors(lines, basis) == Factors(lines', basis)
  {
    FactorsKeys(lines, basis);
    FactorsKeys(lines', basis);
    assert forall l :: l in lines <==> l in multiset(lines);
    assert forall l :: l in lines' <==> l in multiset(lines');
    forall l | l in lines
      ensures Factors(lines, basis)[l.id] == Factor(l, basis).value
      ensures Factors(lines', basis)[l.id] == Factor(l, basis).value
    {
      var j :| 0 <= j < |lines| && lines[j] == l;
      var k :| 0 <= k < |lines'| && lines'[k] == l;
      FactorsValues(lines, basis, j);
      FactorsValues(lines', basis, k);
    }
  }

  /** What the calculation asks of its input. */
  ghost predicate Accepted(total: real, lines: seq<AllocationLine>, basis: Basis, scale: nat) {
    && total >= 0.0 && lines != [] && scale <= 6 && DistinctIds(lines) && AllMeasured(lines, basis)
    && Sum(Factors(lines, basis).Keys, Factors(lines, basis)) > 0.0
  }

  lemma AcceptedIsAllocatable(total: real, lines: seq<AllocationLine>, basis: Basis, scale: nat)
    requires Accepted(total, lines, basis, scale)
    ensures Allocatable(Factors(lines, basis)) && Money(total, scale, HalfUp) >= 0
  {
    FactorsKeys(lines, basis);
    MoneyNotNegative(total, scale, HalfUp);
  }

  method CheckDistinct(lines: seq<AllocationLine>) returns (ok: bool)
    ensures ok <==> DistinctIds(lines)
  {
    var seen: set<Id> := {};
    for n := 0 to |lines|
      invariant DistinctIds(lines[..n]) && seen == set k | 0 <= k < n :: lines[k].id
    {
      if lines[n].id in seen {
        return false;
      }
      seen := seen + {lines[n].id};
      assert lines[..n + 1] == lines[..n] + [lines[n]];
    }
    assert lines[..|lines|] == lines;
    return true;
  }

  /** The factors of the lines and their sum. */
  method SumFactors(lines: seq<AllocationLine>, basis: Basis)
    returns (r: Result<map<Id, real>, Code>, denominator: real)
    requires DistinctIds(lines)
    ensures r.Ok? <==> AllMeasured(lines, basis)
    ensures r.Ok? ==> r.value == Factors(lines, basis) && denominator == Sum(r.value.Keys, r.value)
  {
    var factors: map<Id, real> := map[];
    denominator := 0.0;
    for n := 0 to |lines|
      invariant AllMeasured(lines[..n], basis) && factors == Factors(lines[..n], basis)
      invariant denominator == Sum(factors.Keys, factors)
    {
      var factor := Factor(lines[n], basis);
      if factor.None? {
        return Err(SourceMissing), denominator;
      }
      if factor.value < 0.0 {
        return Err(FactorInvalid), denominator;
      }
      assert lines[..n + 1][..n] == lines[..n];
      OneFactorMore(lines, basis, n);
      factors := factors[lines[n].id := factor.value];
      denominator := denominator + factor.value;
    }
    assert lines[..|lines|] == lines;
    return Ok(factors), denominator;
  }

  lemma NewId(lines: seq<AllocationLine>, n: nat)
    requires DistinctIds(lines) && n < |lines|
    ensures lines[n].id !in Ids(lines[..n])
  {
    forall l | l in lines[..n]
      ensures l.id != lines[n].id
    {
      var k :| 0 <= k < n && lines[k] == l;
    }
  }

  lemma OneFactorMore(lines: seq<AllocationLine>, basis: Basis, n: nat)
    requires DistinctIds(lines) && n < |lines| && AllMeasured(lines[..n + 1], basis)
    requires AllMeasured(lines[..n], basis)
    ensures var f, x := Factors(lines[..n], basis), lines[n].id;
            var f' := f[x := Factor(lines[n], basis).value];
            x !in f && Sum(f'.Keys, f') == Sum(f.Keys, f) + Factor(lines[n], basis).value
  {
    var first := lines[..n];
    forall j, k | 0 <= j < k < |first|
      ensures first[j].id != first[k].id
    {
      assert lines[j].id != lines[k].id;
    }
    FactorsKeys(first, basis);
    NewId(lines, n);
    var f, x := Factors(first, basis), lines[n].id;
    var f' := f[x := Factor(lines[n], basis).value];
    SumPick(f'.Keys, f', x);
    assert f'.Keys - {x} == f.Keys;
    SumCongruent(f.Keys, f, f');
  }

  lemma {:induction false} SumCongruent(s: set<Id>, f: map<Id, real>, g: map<Id, real>)
    requires s <= f.Keys && s <= g.Keys && forall x :: x in s ==> f[x] == g[x]
    ensures Sum(s, f) == Sum(s, g)
    decreases |s|
  {
    if s != {} {
      var x :| x in s;
      SumPick(s, f, x);
      SumPick(s, g, x);
      SumCongruent(s - {x}, f, g);
    }
  }

  /** The units of all lines together. */
  method SumUnits(keys: seq<Id>, f: map<Id, int>) returns (total: int)
    requires Distinct(keys) && forall y :: y in keys <==> y in f
    ensures total == Units(f.Keys, f)
  {
    total := 0;
    ghost var seen: set<Id> := {};
    for n := 0 to |keys|
      invariant seen == (set k | 0 <= k < n :: keys[k]) && seen <= f.Keys && total == Units(seen, f)
    {
      UnitsPick(seen + {keys[n]}, f, keys[n]);
      assert seen + {keys[n]} - {keys[n]} == seen;
      seen := seen + {keys[n]};
      total := total + f[keys[n]];
    }
    assert seen == f.Keys;
  }

  /** One more unit for each of the first `count` lines. */
  method GiveLeftOver(order: seq<Id>, floors: map<Id, int>, count: nat) returns (result: map<Id, int>)
    requires Distinct(order) && (forall y :: y in order <==> y in floors) && count <= |order|
    ensures result.Keys == floors.Keys
    ensures forall x :: x in floors ==> result[x] == floors[x] + if x in order[..count] then 1 else 0
  {
    result := floors;
    for n := 0 to count
      invariant result.Keys == floors.Keys
      invariant forall x :: x in floors ==> result[x] == floors[x] + if x in order[..n] then 1 else 0
    {
      assert order[n] !in order[..n];
      assert order[..n + 1] == order[..n] + [order[n]];
      result := result[order[n] := result[order[n]] + 1];
    }
  }

  method AllocateFixedCharge(total: real, lines: seq<AllocationLine>, basis: Basis, scale: nat)
    returns (r: Result<map<Id, int>, Code>)
    ensures r.Ok? <==> Accepted(total, lines, basis, scale)
    ensures r.Ok? ==> Money(total, scale, HalfUp) >= 0 && Allocatable(Factors(lines, basis))
                      && r.value == Shares(Factors(lines, basis), Money(total, scale, HalfUp))
  {
    if total < 0.0 { return Err(ChargeInvalid); }
    if lines == [] { return Err(LinesRequired); }
    if scale > 6 { return Err(ScaleRange); }
    var distinct := CheckDistinct(lines);
    if !distinct { return Err(DuplicateLine); }
    var checked, denominator := SumFactors(lines, basis);
    if checked.Err? { return Err(checked.error); }
    if denominator <= 0.0 { return Err(DenominatorZero); }
    AcceptedIsAllocatable(total, lines, basis, scale);
    var units, factors := Money(total, scale, HalfUp), checked.value;
    var keys := seq(|lines|, k requires 0 <= k < |lines| => lines[k].id);
    KeysAreListed(lines, basis, keys);
    r := AllocateUnits(units, factors, denominator, keys);
  }

  lemma KeysAreListed(lines: seq<AllocationLine>, basis: Basis, keys: seq<Id>)
    requires AllMeasured(lines, basis) && DistinctIds(lines)
    requires |keys| == |lines| && forall k :: 0 <= k < |lines| ==> keys[k] == lines[k].id
    ensures Distinct(keys) && forall y :: y in keys <==> y in Factors(lines, basis)
  {
    FactorsKeys(lines, basis);
    forall j, k | 0 <= j < k < |keys|
      ensures keys[j] != keys[k]
    {
      assert lines[j].id != lines[k].id;
    }
    forall k | 0 <= k < |keys|
      ensures keys[k] in Ids(lines)
    {
      assert lines[k] in lines;
    }
    forall y | y in Ids(lines)
      ensures y in keys
    {
      var l :| l in lines && l.id == y;
      var k :| 0 <= k < |lines| && lines[k] == l;
      assert keys[k] == y;
    }
  }

  method AllocateUnits(units: nat, factors: map<Id, real>, denominator: real, keys: seq<Id>)
    returns (r: Result<map<Id, int>, Code>)
    requires Allocatable(factors) && denominator == Sum(factors.Keys, factors)
    requires Distinct(keys) && forall y :: y in keys <==> y in factors
    ensures r == Ok(Shares(factors, units))
  {
    var quotas := Quotas(factors, units, denominator);
    var floors, rests := Floors(quotas), Rests(quotas);
    assert floors.Keys == factors.Keys && rests.Keys == factors.Keys;
    var given := SumUnits(keys, floors);
    var order := Sorted(rests, keys);
    SortedRests(factors, units, keys);
    OrderedShares(factors, units, order);
    var result := GiveLeftOver(order, floors, units - given);
    GivenIsShares(factors, units, order, result);
    return Ok(result);
  }

  lemma SortedRests(factors: map<Id, real>, units: nat, keys: seq<Id>)
    requires Allocatable(factors) && Distinct(keys) && forall y :: y in keys <==> y in factors
    ensures var rests := Rests(QuotasOf(factors, units));
            && rests.Keys == factors.Keys
            && Ordered(rests, Sorted(rests, keys)) && Distinct(Sorted(rests, keys))
  {
    var rests := Rests(QuotasOf(factors, units));
    assert rests.Keys == factors.Keys;
    SortedIsOrdered(rests, keys);
    OrderedIsDistinct(rests, Sorted(rests, keys));
  }

  lemma GivenIsShares(factors: map<Id, real>, units: nat, order: seq<Id>, result: map<Id, int>)
    requires Allocatable(factors) && 0 <= LeftOver(factors, units) <= |order| && result.Keys == factors.Keys
    requires forall x {:trigger Share(factors, units, x)} :: x in factors ==>
               Share(factors, units, x) == Floors(QuotasOf(factors, units))[x] + if x in order[..LeftOver(factors, units)] then 1 else 0
    requires forall x :: x in factors ==>
               result[x] == Floors(QuotasOf(factors, units))[x] + if x in order[..LeftOver(factors, units)] then 1 else 0
    ensures result == Shares(factors, units)
  {
    forall x | x in factors
      ensures result[x] == Shares(factors, units)[x]
    {
      assert Shares(factors, units)[x] == Share(factors, units, x);
    }
  }

  /** The lines to favour are at the start of the sorted lines. */
  lemma OrderedShares(factors: map<Id, real>, units: nat, order: seq<Id>)
    requires Allocatable(factors) && (forall y :: y in order <==> y in factors)
    requires Ordered(Rests(QuotasOf(factors, units)), order)
    ensures 0 <= LeftOver(factors, units) <= |order|
    ensures forall x {:trigger Share(factors, units, x)} :: x in factors ==>
              Share(factors, units, x) == Floors(QuotasOf(factors, units))[x] + if x in order[..LeftOver(factors, units)] then 1 else 0
  {
    var rests, count := Rests(QuotasOf(factors, units)), LeftOver(factors, units);
    LeftOverIsSmall(factors, units);
    OrderedIsDistinct(rests, order);
    DistinctCount(order);
    assert (set y | y in order) == factors.Keys;
    FavouredIsPrefix(rests, order, count);
    forall x | x in factors
      ensures GetsExtra(factors, units, x) <==> x in order[..count]
    {
      assert GetsExtra(factors, units, x) <==> x in Favoured(rests, count);
    }
  }

  function IdOf(): AllocationLine -> Id {
    (l: AllocationLine) => l.id
  }

  lemma {:induction false} DistinctIsDifferent(lines: seq<AllocationLine>)
    ensures DistinctIds(lines) <==> AllDifferent(Mapped(IdOf(), lines))
  {
    forall k | 0 <= k < |lines|
      ensures Mapped(IdOf(), lines)[k] == lines[k].id
    {
      MappedAt(IdOf(), lines, k);
    }
  }

  /** Listing the lines in another order accepts and allocates the same. */
  lemma {:induction false} LineOrderIsIrrelevant(total: real, lines: seq<AllocationLine>, lines': seq<AllocationLine>, basis: Basis, scale: nat)
    requires multiset(lines) == multiset(lines')
    ensures Accepted(total, lines, basis, scale) <==> Accepted(total, lines', basis, scale)
    ensures Accepted(total, lines, basis, scale) ==> Factors(lines, basis) == Factors(lines', basis)
  {
    SameElements(lines, lines');
    MappedPermutes(IdOf(), lines, lines');
    DifferentPermutes(Mapped(IdOf(), lines), Mapped(IdOf(), lines'));
    DistinctIsDifferent(lines);
    DistinctIsDifferent(lines');
    SameMeasured(lines, lines', basis);
    if DistinctIds(lines) && AllMeasured(lines, basis) {
      SameFactors(lines, lines', basis);
    }
  }

  lemma SameMeasured(lines: seq<AllocationLine>, lines': seq<AllocationLine>, basis: Basis)
    requires forall l :: l in lines <==> l in lines'
    ensures AllMeasured(lines, basis) <==> AllMeasured(lines', basis)
  {
    assert AllMeasured(lines, basis) <==> forall l :: l in lines ==> Measured(l, basis);
    assert AllMeasured(lines', basis) <==> forall l :: l in lines' ==> Measured(l, basis);
  }

  // Shares in terms of the lines.

  /** The measure of a line under each basis is that line's own. */
  lemma MeasureIs(lines: seq<AllocationLine>, basis: Basis, k: nat)
    requires AllMeasured(lines, basis) && DistinctIds(lines) && k < |lines|
    ensures lines[k].id in Factors(lines, basis)
    ensures var l, measure := lines[k], Factors(lines, basis)[lines[k].id];
            && (basis == CustomsValue ==> measure == l.customsValue) && (basis == Quantity ==> measure == l.quantity)
            && (basis == Weight ==> Some(measure) == l.weight) && (basis == Volume ==> Some(measure) == l.volume)
  {
    FactorsValues(lines, basis, k);
  }

  /** A quota is the total in proportion to the measure. */
  lemma QuotaIsProportional(factors: map<Id, real>, total: nat, x: Id)
    requires Allocatable(factors) && x in factors
    ensures QuotasOf(factors, total)[x] * Sum(factors.Keys, factors) == total as real * factors[x]
  {
    TimesThenOver(total as real * factors[x], Sum(factors.Keys, factors));
  }

  /** Of two lines, one with a left-over unit and one without, the first has the larger rest, or the same and the smaller name. */
  lemma LargestRestsWin(factors: map<Id, real>, total: nat, x: Id, y: Id)
    requires Allocatable(factors) && x in factors && y in factors
    requires var quotas := QuotasOf(factors, total);
             Share(factors, total, x) > quotas[x].Floor && Share(factors, total, y) == quotas[y].Floor
    ensures var quotas := QuotasOf(factors, total);
            var restX, restY := quotas[x] - quotas[x].Floor as real, quotas[y] - quotas[y].Floor as real;
            restX > restY || (restX == restY && Less(x, y))
  {
    var rests := Rests(QuotasOf(factors, total));
    BeforeIsTotal(rests, x, y);
    if !Before(rests, x, y) {
      AheadGrows(rests, y, x);
    }
  }

  /** What comes before the earlier of two lines comes before the later one. */
  lemma AheadGrows(rests: map<Id, real>, y: Id, x: Id)
    requires y in rests && x in rests && (y == x || Before(rests, y, x))
    ensures |Ahead(rests, y)| <= |Ahead(rests, x)|
  {
    forall z | z in Ahead(rests, y)
      ensures z in Ahead(rests, x)
    {
      if y != x {
        BeforeIsTransitive(rests, z, y, x);
      }
    }
    SubsetIsSmaller(Ahead(rests, y), Ahead(rests, x));
  }
}
