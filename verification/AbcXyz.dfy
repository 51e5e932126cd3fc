/**
 ABC classes by cumulative revenue, XYZ classes by demand variation, and the nine segments of
 the items that have both. An item without usable history keeps its reason instead.
 */
module AbcXyz {
  import opened Wrappers
  import Allocation
  import opened Permutations
  import Rounding

  type Id = Allocation.Id

  /** The measures of one item, with the counts that hold for each axis. */
  datatype Metric = Metric(
    item: Id, abcSource: int, abcInvalid: int, abcWeeks: int, xyzSource: int, xyzInvalid: int, xyzWeeks: int,
    revenue: real, demand: real, squares: real)

  datatype Reason = InvalidSource | InsufficientHistory | NothingSold

  datatype Abc = A | B | C
  datatype Xyz = X | Y | Z
  datatype Segment = Segment(abc: Abc, xyz: Xyz)

  const SEGMENTS: seq<Segment> :=
    [Segment(A, X), Segment(A, Y), Segment(A, Z), Segment(B, X), Segment(B, Y), Segment(B, Z),
     Segment(C, X), Segment(C, Y), Segment(C, Z)]

  function AllSegments(): set<Segment> {
    set s | s in SEGMENTS
  }

  datatype Limits = Limits(weeks: int, aShare: real, bShare: real, xMax: real, yMax: real) {
    predicate Ok() {
      weeks >= 1 && 0.0 < aShare < bShare < 1.0 && 0.0 <= xMax < yMax
    }
  }

  function AbcReason(m: Metric): Option<Reason> {
    if m.abcInvalid > 0 then Some(InvalidSource)
    else if m.abcSource == 0 || m.abcWeeks == 0 then Some(InsufficientHistory)
    else if m.revenue <= 0.0 then Some(NothingSold)
    else None
  }

  function XyzReason(m: Metric): Option<Reason> {
    if m.xyzInvalid > 0 then Some(InvalidSource)
    else if m.xyzSource == 0 || m.xyzWeeks == 0 then Some(InsufficientHistory)
    else if m.demand <= 0.0 then Some(NothingSold)
    else None
  }

  /** The squared coefficient of variation of weekly demand. */
  function Cv2(m: Metric, weeks: int): real
    requires m.demand > 0.0 && weeks >= 1
  {
    var mean := m.demand / weeks as real;
    var spread := m.squares / weeks as real - mean * mean;
    Positive(m.demand, weeks as real);
    (if spread > 0.0 then spread else 0.0) / (mean * mean)
  }

  lemma Positive(a: real, b: real)
    requires a > 0.0 && b > 0.0
    ensures a / b > 0.0 && (a / b) * (a / b) > 0.0
  {
  }

  function XyzClass(m: Metric, p: Limits): Xyz
    requires XyzReason(m).None? && p.Ok()
  {
    if Cv2(m, p.weeks) <= p.xMax then X else if Cv2(m, p.weeks) <= p.yMax then Y else Z
  }

  /** The revenue of every item that has an ABC class. */
  function Revenues(metrics: map<Id, Metric>): map<Id, real> {
    map x | x in metrics && AbcReason(metrics[x]).None? :: metrics[x].revenue
  }

  ghost function TotalRevenue(revenues: map<Id, real>): real {
    Allocation.Sum(revenues.Keys, revenues)
  }

  /** The share of revenue earned by the items that sell more. */
  ghost function ShareBefore(revenues: map<Id, real>, x: Id): real
    requires x in revenues && TotalRevenue(revenues) > 0.0
  {
    Allocation.Sum(Allocation.Ahead(revenues, x), revenues) / TotalRevenue(revenues)
  }

  function ByShare(share: real, p: Limits): Abc {
    if share < p.aShare then A else if share < p.bShare then B else C
  }

  ghost function AbcClass(revenues: map<Id, real>, p: Limits, x: Id): Abc
    requires x in revenues && TotalRevenue(revenues) > 0.0
  {
    ByShare(ShareBefore(revenues, x), p)
  }

  /** The items with both classes. */
  function Complete(metrics: map<Id, Metric>): set<Id> {
    set x | x in metrics && AbcReason(metrics[x]).None? && XyzReason(metrics[x]).None?
  }

  ghost function SegmentOf(metrics: map<Id, Metric>, p: Limits, x: Id): Segment
    requires x in Complete(metrics) && TotalRevenue(Revenues(metrics)) > 0.0 && p.Ok()
  {
    Segment(AbcClass(Revenues(metrics), p, x), XyzClass(metrics[x], p))
  }

  datatype ItemResult = ItemResult(abc: Option<Abc>, xyz: Option<Xyz>, segment: Option<Segment>)

  ghost function ItemOf(metrics: map<Id, Metric>, p: Limits, x: Id): ItemResult
    requires x in metrics && TotalRevenue(Revenues(metrics)) > 0.0 && p.Ok()
  {
    var abc := if x in Revenues(metrics) then Some(AbcClass(Revenues(metrics), p, x)) else None;
    var xyz := if XyzReason(metrics[x]).None? then Some(XyzClass(metrics[x], p)) else None;
    ItemResult(abc, xyz, if abc.Some? && xyz.Some? then Some(Segment(abc.value, xyz.value)) else None)
  }

  ghost function ItemsOf(metrics: map<Id, Metric>, p: Limits): map<Id, ItemResult>
    requires TotalRevenue(Revenues(metrics)) > 0.0 && p.Ok()
  {
    map x | x in metrics :: ItemOf(metrics, p, x)
  }

  /** The items of one segment. */
  function Part(segments: map<Id, Segment>, s: set<Id>, segment: Segment): set<Id> {
    set x | x in s && x in segments && segments[x] == segment
  }

  datatype Classification = Classification(
    eligible: nat, classified: nat, unclassified: nat, items: map<Id, ItemResult>,
    counts: map<Segment, nat>, revenue: map<Segment, real>)

  ghost function SegmentsOf(metrics: map<Id, Metric>, p: Limits): map<Id, Segment>
    requires TotalRevenue(Revenues(metrics)) > 0.0 && p.Ok()
  {
    map x | x in Complete(metrics) :: SegmentOf(metrics, p, x)
  }

  /** What a classification of these metrics is, whatever order they come in. */
  ghost function ClassificationOf(metrics: map<Id, Metric>, p: Limits): Classification
    requires TotalRevenue(Revenues(metrics)) > 0.0 && p.Ok()
  {
    var segments, revenues := SegmentsOf(metrics, p), Revenues(metrics);
    Classification(
      |metrics|, |Complete(metrics)|, |metrics.Keys - Complete(metrics)|,
      ItemsOf(metrics, p),
      map s | s in AllSegments() :: |Part(segments, Complete(metrics), s)|,
      map s | s in AllSegments() :: Allocation.Sum(Part(segments, Complete(metrics), s), revenues))
  }

  // Prefixes of the items in order of revenue.

  ghost predicate Listed(revenues: map<Id, real>, order: seq<Id>) {
    && (forall y :: y in order <==> y in revenues) && Allocation.Ordered(revenues, order)
    && forall x :: x in revenues ==> revenues[x] > 0.0
  }

  ghost function Firsts(order: seq<Id>, k: nat): set<Id>
    requires k <= |order|
  {
    set y | y in order[..k]
  }

  lemma FirstsGrow(order: seq<Id>, k: nat)
    requires k < |order|
    ensures Firsts(order, k + 1) == Firsts(order, k) + {order[k]}
    ensures Allocation.Distinct(order) ==> order[k] !in Firsts(order, k)
  {
    assert order[..k + 1] == order[..k] + [order[k]];
  }

  /** The revenue of the first `k` items. */
  ghost function Prefix(revenues: map<Id, real>, order: seq<Id>, k: nat): real
    requires Listed(revenues, order) && k <= |order|
  {
    Allocation.Sum(Firsts(order, k), revenues)
  }

  lemma PrefixGrows(revenues: map<Id, real>, order: seq<Id>, k: nat)
    requires Listed(revenues, order) && k < |order|
    ensures Prefix(revenues, order, k + 1) == Prefix(revenues, order, k) + revenues[order[k]]
    ensures revenues[order[k]] > 0.0
  {
    Allocation.OrderedIsDistinct(revenues, order);
    FirstsGrow(order, k);
    var s := Firsts(order, k);
    Allocation.SumPick(s + {order[k]}, revenues, order[k]);
    assert s + {order[k]} - {order[k]} == s;
  }

  lemma PrefixEnds(revenues: map<Id, real>, order: seq<Id>)
    requires Listed(revenues, order)
    ensures Prefix(revenues, order, 0) == 0.0 && Prefix(revenues, order, |order|) == TotalRevenue(revenues)
  {
    assert Firsts(order, 0) == {};
    assert order[..|order|] == order;
    assert Firsts(order, |order|) == revenues.Keys;
  }

  lemma {:induction false} PrefixOrder(revenues: map<Id, real>, order: seq<Id>, j: nat, k: nat)
    requires Listed(revenues, order) && j <= k <= |order|
    ensures Prefix(revenues, order, j) <= Prefix(revenues, order, k)
  {
    if j < k {
      PrefixOrder(revenues, order, j, k - 1);
      PrefixGrows(revenues, order, k - 1);
    }
  }

  /** What comes before an item is the prefix that ends at it. */
  lemma ShareIsPrefix(revenues: map<Id, real>, order: seq<Id>, k: nat)
    requires Listed(revenues, order) && k < |order| && TotalRevenue(revenues) > 0.0
    ensures ShareBefore(revenues, order[k]) == Prefix(revenues, order, k) / TotalRevenue(revenues)
  {
    Allocation.AheadIsPrefix(revenues, order, k);
    assert Allocation.Ahead(revenues, order[k]) == Firsts(order, k);
  }

  lemma Product(a: real, b: real)
    requires b > 0.0
    ensures a > 0.0 ==> a * b > 0.0
    ensures a >= 0.0 ==> a * b >= 0.0
  {
  }

  lemma Difference(x: real, y: real, z: real)
    ensures (x - y) * z == x * z - y * z
  {
  }

  /** The part of the total revenue that a share stands for. */
  ghost function Goal(share: real, total: real): real {
    share * total
  }

  lemma BelowShare(part: real, total: real, share: real)
    requires total > 0.0
    ensures part / total < share <==> part < Goal(share, total)
  {
    var q := part / total;
    Rounding.TimesThenOver(part, total);
    Difference(share, q, total);
    Difference(q, share, total);
    Product(share - q, total);
    Product(q - share, total);
  }

  lemma GoalIsWithin(share: real, total: real)
    requires 0.0 < share < 1.0 && total > 0.0
    ensures 0.0 < Goal(share, total) < total
  {
    Product(share, total);
    Product(1.0 - share, total);
    Difference(1.0, share, total);
  }

  lemma {:induction false} LeastPrefix(revenues: map<Id, real>, order: seq<Id>, goal: real, from: nat) returns (n: nat)
    requires Listed(revenues, order) && from <= |order| && goal <= Prefix(revenues, order, |order|)
    requires forall k :: 0 <= k < from ==> Prefix(revenues, order, k) < goal
    ensures n <= |order| && Prefix(revenues, order, n) >= goal
    ensures forall k :: 0 <= k < n ==> Prefix(revenues, order, k) < goal
    decreases |order| - from
  {
    if Prefix(revenues, order, from) >= goal {
      n := from;
    } else {
      n := LeastPrefix(revenues, order, goal, from + 1);
    }
  }

  /**
   In order of revenue, the items below a share are exactly the shortest prefix that earns it:
   class A for the first share, classes A and B together for the second.
   */
  lemma ShortestPrefix(revenues: map<Id, real>, order: seq<Id>, share: real) returns (n: nat)
    requires Listed(revenues, order) && TotalRevenue(revenues) > 0.0 && 0.0 < share < 1.0
    ensures 0 < n <= |order|
    ensures forall k :: 0 <= k < |order| ==> (ShareBefore(revenues, order[k]) < share <==> k < n)
    ensures Prefix(revenues, order, n) >= Goal(share, TotalRevenue(revenues))
    ensures forall k :: 0 <= k < n ==> Prefix(revenues, order, k) < Goal(share, TotalRevenue(revenues))
  {
    var total := TotalRevenue(revenues);
    PrefixEnds(revenues, order);
    GoalIsWithin(share, total);
    n := PrefixOfGoal(revenues, order, total, Goal(share, total));
    forall k | 0 <= k < |order|
      ensures ShareBefore(revenues, order[k]) < share <==> k < n
    {
      BelowGoal(revenues, order, share, k);
    }
  }

  lemma PrefixOfGoal(revenues: map<Id, real>, order: seq<Id>, total: real, goal: real) returns (n: nat)
    requires Listed(revenues, order) && total == TotalRevenue(revenues) && 0.0 < goal < total
    ensures 0 < n <= |order| && Prefix(revenues, order, n) >= goal
    ensures forall k :: 0 <= k < n ==> Prefix(revenues, order, k) < goal
    ensures forall k :: n <= k <= |order| ==> Prefix(revenues, order, k) >= goal
  {
    PrefixEnds(revenues, order);
    n := LeastPrefix(revenues, order, goal, 0);
    forall k | n <= k <= |order|
      ensures Prefix(revenues, order, k) >= goal
    {
      PrefixOrder(revenues, order, n, k);
    }
  }

  lemma BelowGoal(revenues: map<Id, real>, order: seq<Id>, share: real, k: nat)
    requires Listed(revenues, order) && TotalRevenue(revenues) > 0.0 && k < |order|
    ensures ShareBefore(revenues, order[k]) < share <==> Prefix(revenues, order, k) < Goal(share, TotalRevenue(revenues))
  {
    ShareIsPrefix(revenues, order, k);
    BelowShare(Prefix(revenues, order, k), TotalRevenue(revenues), share);
  }

  // The nine segments share out the complete items.

  ghost function Counted(segments: map<Id, Segment>, s: set<Id>, list: seq<Segment>): nat {
    if list == [] then 0 else Counted(segments, s, list[..|list| - 1]) + |Part(segments, s, list[|list| - 1])|
  }

  ghost function Earned(segments: map<Id, Segment>, s: set<Id>, revenues: map<Id, real>, list: seq<Segment>): real
    requires s <= revenues.Keys
  {
    if list == [] then 0.0
    else Earned(segments, s, revenues, list[..|list| - 1]) + Allocation.Sum(Part(segments, s, list[|list| - 1]), revenues)
  }

  predicate EachOnce(list: seq<Segment>) {
    forall i, j :: 0 <= i < j < |list| ==> list[i] != list[j]
  }

  lemma {:induction false} OneItemMore(segments: map<Id, Segment>, s: set<Id>, revenues: map<Id, real>, list: seq<Segment>, x: Id)
    requires x !in s && x in segments && s + {x} <= revenues.Keys && EachOnce(list)
    ensures Counted(segments, s + {x}, list) == Counted(segments, s, list) + if segments[x] in list then 1 else 0
    ensures Earned(segments, s + {x}, revenues, list) == Earned(segments, s, revenues, list) + if segments[x] in list then revenues[x] else 0.0
  {
    if list != [] {
      var before, last := list[..|list| - 1], list[|list| - 1];
      OneItemMore(segments, s, revenues, before, x);
      PartWith(segments, s, revenues, last, x);
      assert list == before + [last];
    }
  }

  lemma PartWith(segments: map<Id, Segment>, s: set<Id>, revenues: map<Id, real>, segment: Segment, x: Id)
    requires x !in s && x in segments && s + {x} <= revenues.Keys
    ensures var p, p' := Part(segments, s, segment), Part(segments, s + {x}, segment);
            if segments[x] == segment then
              |p'| == |p| + 1 && Allocation.Sum(p', revenues) == Allocation.Sum(p, revenues) + revenues[x]
            else p' == p
  {
    var p, p' := Part(segments, s, segment), Part(segments, s + {x}, segment);
    if segments[x] == segment {
      assert p' == p + {x};
      Allocation.SumPick(p', revenues, x);
      assert p' - {x} == p;
    } else {
      assert p' == p;
    }
  }

  lemma {:induction false} NothingCounted(segments: map<Id, Segment>, revenues: map<Id, real>, list: seq<Segment>)
    ensures Counted(segments, {}, list) == 0 && Earned(segments, {}, revenues, list) == 0.0
  {
    if list != [] {
      NothingCounted(segments, revenues, list[..|list| - 1]);
      assert Part(segments, {}, list[|list| - 1]) == {};
    }
  }

  /** Every complete item counts in exactly one segment, with its revenue. */
  lemma {:induction false} SegmentsShareOut(segments: map<Id, Segment>, s: set<Id>, revenues: map<Id, real>)
    requires s <= segments.Keys && s <= revenues.Keys
    ensures Counted(segments, s, SEGMENTS) == |s|
    ensures Earned(segments, s, revenues, SEGMENTS) == Allocation.Sum(s, revenues)
    decreases |s|
  {
    if s == {} {
      NothingCounted(segments, revenues, SEGMENTS);
    } else {
      var x :| x in s;
      SegmentsShareOut(segments, s - {x}, revenues);
      EverySegment(segments[x]);
      OneItemMore(segments, s - {x}, revenues, SEGMENTS, x);
      assert s - {x} + {x} == s;
      Allocation.SumPick(s, revenues, x);
    }
  }

  lemma EverySegment(segment: Segment)
    ensures segment in SEGMENTS && EachOnce(SEGMENTS)
  {
    var i := (match segment.abc case A => 0 case B => 3 case C => 6) + (match segment.xyz case X => 0 case Y => 1 case Z => 2);
    assert SEGMENTS[i] == segment;
  }

  /** Eligible items are classified or not, and the segments count and earn what the classified ones do. */
  lemma TotalsAddUp(metrics: map<Id, Metric>, p: Limits)
    requires TotalRevenue(Revenues(metrics)) > 0.0 && p.Ok()
    ensures var c := ClassificationOf(metrics, p);
            && c.eligible == |metrics| == c.classified + c.unclassified && c.items.Keys == metrics.Keys
            && Counted(SegmentsOf(metrics, p), Complete(metrics), SEGMENTS) == c.classified
            && Earned(SegmentsOf(metrics, p), Complete(metrics), Revenues(metrics), SEGMENTS)
               == Allocation.Sum(Complete(metrics), Revenues(metrics))
  {
    SegmentsShareOut(SegmentsOf(metrics, p), Complete(metrics), Revenues(metrics));
    assert metrics.Keys == Complete(metrics) + (metrics.Keys - Complete(metrics));
    assert |metrics.Keys| == |Complete(metrics)| + |metrics.Keys - Complete(metrics)|;
  }

  // The calculation.

  datatype Code = SourceEmpty | LimitsInvalid | ItemInvalid | CountInvalid | RevenueEmpty

  function Metrics(rows: seq<Metric>): map<Id, Metric> {
    if rows == [] then map[] else Metrics(rows[..|rows| - 1])[rows[|rows| - 1].item := rows[|rows| - 1]]
  }

  predicate DistinctItems(rows: seq<Metric>) {
    forall j, k {:trigger rows[j], rows[k]} :: 0 <= j < k < |rows| ==> rows[j].item != rows[k].item
  }

  predicate CountsOk(m: Metric) {
    m.abcSource >= 0 && m.abcInvalid >= 0 && m.abcWeeks >= 0 && m.xyzSource >= 0 && m.xyzInvalid >= 0 && m.xyzWeeks >= 0
  }

  ghost predicate Accepted(rows: seq<Metric>, p: Limits) {
    && rows != [] && p.Ok() && DistinctItems(rows) && (forall m :: m in rows ==> CountsOk(m))
    && TotalRevenue(Revenues(Metrics(rows))) > 0.0
  }

  lemma {:induction false} MetricsAre(rows: seq<Metric>)
    requires DistinctItems(rows)
    ensures forall m :: m in rows <==> m.item in Metrics(rows) && Metrics(rows)[m.item] == m
    ensures forall x :: x in Metrics(rows) ==> Metrics(rows)[x].item == x && Metrics(rows)[x] in rows
  {
    if rows != [] {
      var before, last := rows[..|rows| - 1], rows[|rows| - 1];
      assert rows == before + [last];
      MetricsAre(before);
      NewItem(rows);
    }
  }

  lemma NewItem(rows: seq<Metric>)
    requires DistinctItems(rows) && rows != []
    ensures forall m :: m in rows[..|rows| - 1] ==> m.item != rows[|rows| - 1].item
  {
    forall m | m in rows[..|rows| - 1]
      ensures m.item != rows[|rows| - 1].item
    {
      var k :| 0 <= k < |rows| - 1 && rows[k] == m;
    }
  }

  method CheckRows(rows: seq<Metric>) returns (code: Option<Code>)
    ensures code.None? <==> DistinctItems(rows) && forall m :: m in rows ==> CountsOk(m)
  {
    var seen: set<Id> := {};
    for n := 0 to |rows|
      invariant DistinctItems(rows[..n]) && (forall m :: m in rows[..n] ==> CountsOk(m))
      invariant seen == set k | 0 <= k < n :: rows[k].item
    {
      var m := rows[n];
      assert m in rows && rows[..n + 1] == rows[..n] + [m];
      if m.item in seen { return Some(ItemInvalid); }
      if !CountsOk(m) { return Some(CountInvalid); }
      seen := seen + {m.item};
    }
    assert rows[..|rows|] == rows;
    return None;
  }

  /** The items that have an ABC class, once each. */
  method Candidates(rows: seq<Metric>) returns (keys: seq<Id>)
    requires DistinctItems(rows)
    ensures Allocation.Distinct(keys) && forall y :: y in keys <==> y in Revenues(Metrics(rows))
  {
    keys := [];
    for n := 0 to |rows|
      invariant forall y :: y in keys <==> exists k :: 0 <= k < n && rows[k].item == y && AbcReason(rows[k]).None?
      invariant Allocation.Distinct(keys)
    {
      if AbcReason(rows[n]).None? {
        assert rows[n].item !in keys;
        keys := keys + [rows[n].item];
      }
    }
    MetricsAre(rows);
    forall y
      ensures y in keys <==> y in Revenues(Metrics(rows))
    {
      if y in keys {
        var k :| 0 <= k < |rows| && rows[k].item == y && AbcReason(rows[k]).None?;
        assert rows[k] in rows;
      }
      if y in Revenues(Metrics(rows)) {
        var m := Metrics(rows)[y];
        var k :| 0 <= k < |rows| && rows[k] == m;
      }
    }
  }

  method SumRevenue(revenues: map<Id, real>, order: seq<Id>) returns (total: real)
    requires Listed(revenues, order)
    ensures total == TotalRevenue(revenues)
  {
    total := 0.0;
    PrefixEnds(revenues, order);
    for k := 0 to |order|
      invariant total == Prefix(revenues, order, k)
    {
      PrefixGrows(revenues, order, k);
      total := total + revenues[order[k]];
    }
  }

  lemma ClassByPrefix(revenues: map<Id, real>, order: seq<Id>, total: real, p: Limits, k: nat, cumulative: real)
    requires Listed(revenues, order) && total == TotalRevenue(revenues) > 0.0 && k < |order|
    requires cumulative == Prefix(revenues, order, k)
    ensures order[k] in revenues && ByShare(cumulative / total, p) == AbcClass(revenues, p, order[k])
  {
    ShareIsPrefix(revenues, order, k);
  }

  /** The class of the next item, by the share of the revenue that comes before it. */
  method GradeNext(revenues: map<Id, real>, order: seq<Id>, total: real, p: Limits, k: nat, cumulative: real) returns (grade: Abc)
    requires Listed(revenues, order) && total == TotalRevenue(revenues) > 0.0 && k < |order|
    requires cumulative == Prefix(revenues, order, k)
    ensures order[k] in revenues && grade == AbcClass(revenues, p, order[k])
  {
    ClassByPrefix(revenues, order, total, p, k, cumulative);
    grade := ByShare(cumulative / total, p);
  }

  ghost predicate Graded(revenues: map<Id, real>, p: Limits, classes: map<Id, Abc>)
    requires TotalRevenue(revenues) > 0.0
  {
    forall x :: x in classes ==> x in revenues && classes[x] == AbcClass(revenues, p, x)
  }

  lemma GradedToo(revenues: map<Id, real>, p: Limits, classes: map<Id, Abc>, x: Id, grade: Abc)
    requires TotalRevenue(revenues) > 0.0 && Graded(revenues, p, classes)
    requires x in revenues && grade == AbcClass(revenues, p, x)
    ensures Graded(revenues, p, classes[x := grade])
  {
  }

  /** Goes down the items by revenue; each is judged by what the items before it earn. */
  method ClassifyAbc(revenues: map<Id, real>, order: seq<Id>, total: real, p: Limits) returns (classes: map<Id, Abc>)
    requires Listed(revenues, order) && total == TotalRevenue(revenues) > 0.0
    ensures classes.Keys == revenues.Keys && forall x :: x in revenues ==> classes[x] == AbcClass(revenues, p, x)
  {
    var cumulative := 0.0;
    classes := map[];
    PrefixEnds(revenues, order);
    assert Firsts(order, 0) == {};
    for k := 0 to |order|
      invariant cumulative == Prefix(revenues, order, k)
      invariant classes.Keys == Firsts(order, k) && Graded(revenues, p, classes)
    {
      var grade := GradeNext(revenues, order, total, p, k, cumulative);
      GradedToo(revenues, p, classes, order[k], grade);
      PrefixGrows(revenues, order, k);
      FirstsGrow(order, k);
      classes := classes[order[k] := grade];
      cumulative := cumulative + revenues[order[k]];
    }
    assert order[..|order|] == order;
    assert Firsts(order, |order|) == revenues.Keys;
  }

  /** Counts the items of each segment and adds up what they earn. */
  method CountSegments(segments: map<Id, Segment>, revenues: map<Id, real>, order: seq<Id>)
    returns (counts: map<Segment, nat>, earned: map<Segment, real>)
    requires Allocation.Distinct(order) && (forall y :: y in order <==> y in revenues) && segments.Keys <= revenues.Keys
    ensures CountedSoFar(segments, revenues, segments.Keys, counts, earned)
  {
    counts, earned := map s | s in AllSegments() :: 0, map s | s in AllSegments() :: 0.0;
    ghost var done: set<Id> := {};
    NoneCountedYet(segments, revenues, counts, earned);
    for k := 0 to |order|
      invariant done == Among(segments, order, k) && CountedSoFar(segments, revenues, done, counts, earned)
    {
      OneAmong(segments, order, k);
      if order[k] in segments {
        counts, earned := CountItem(segments, revenues, done, counts, earned, order[k]);
        done := done + {order[k]};
      }
    }
    AllAmong(segments, revenues, order);
  }

  function Among(segments: map<Id, Segment>, order: seq<Id>, k: nat): set<Id>
    requires k <= |order|
  {
    set x | x in segments && x in order[..k]
  }

  lemma OneAmong(segments: map<Id, Segment>, order: seq<Id>, k: nat)
    requires k < |order| && Allocation.Distinct(order)
    ensures Among(segments, order, k + 1) == Among(segments, order, k) + if order[k] in segments then {order[k]} else {}
    ensures order[k] !in Among(segments, order, k)
  {
    assert order[..k + 1] == order[..k] + [order[k]];
  }

  lemma AllAmong(segments: map<Id, Segment>, revenues: map<Id, real>, order: seq<Id>)
    requires (forall y :: y in order <==> y in revenues) && segments.Keys <= revenues.Keys
    ensures Among(segments, order, |order|) == segments.Keys
  {
    assert order[..|order|] == order;
  }

  ghost predicate CountedSoFar(segments: map<Id, Segment>, revenues: map<Id, real>, done: set<Id>,
                               counts: map<Segment, nat>, earned: map<Segment, real>) {
    && done <= segments.Keys && done <= revenues.Keys
    && counts.Keys == AllSegments() && earned.Keys == AllSegments()
    && (forall s :: s in counts ==> counts[s] == |Part(segments, done, s)|)
    && forall s :: s in earned ==> earned[s] == Allocation.Sum(Part(segments, done, s), revenues)
  }

  lemma NoneCountedYet(segments: map<Id, Segment>, revenues: map<Id, real>, counts: map<Segment, nat>, earned: map<Segment, real>)
    requires counts == map s | s in AllSegments() :: 0
    requires earned == map s | s in AllSegments() :: 0.0
    ensures CountedSoFar(segments, revenues, {}, counts, earned)
  {
    assert forall s :: Part(segments, {}, s) == {};
  }

  method CountItem(segments: map<Id, Segment>, revenues: map<Id, real>, ghost done: set<Id>,
                   counts: map<Segment, nat>, earned: map<Segment, real>, x: Id)
    returns (counts': map<Segment, nat>, earned': map<Segment, real>)
    requires CountedSoFar(segments, revenues, done, counts, earned)
    requires x in segments && x in revenues && x !in done
    ensures CountedSoFar(segments, revenues, done + {x}, counts', earned')
  {
    var segment := segments[x];
    EverySegment(segment);
    forall s | s in AllSegments()
      ensures var p, p' := Part(segments, done, s), Part(segments, done + {x}, s);
              if segment == s then
                |p'| == |p| + 1 && Allocation.Sum(p', revenues) == Allocation.Sum(p, revenues) + revenues[x]
              else p' == p
    {
      PartWith(segments, done, revenues, s, x);
    }
    counts', earned' := counts[segment := counts[segment] + 1], earned[segment := earned[segment] + revenues[x]];
  }

  method Classify(rows: seq<Metric>, p: Limits) returns (r: Result<Classification, Code>)
    ensures r.Ok? <==> Accepted(rows, p)
    ensures r.Ok? ==> r.value == ClassificationOf(Metrics(rows), p)
  {
    if rows == [] { return Err(SourceEmpty); }
    if !p.Ok() { return Err(LimitsInvalid); }
    var code := CheckRows(rows);
    if code.Some? { return Err(code.value); }
    var metrics := Metrics(rows);
    var revenues := Revenues(metrics);
    var keys := Candidates(rows);
    var order := Allocation.Sorted(revenues, keys);
    Allocation.SortedIsOrdered(revenues, keys);
    assert Listed(revenues, order);
    var total := SumRevenue(revenues, order);
    if total <= 0.0 { return Err(RevenueEmpty); }
    r := ClassifyMetrics(metrics, order, total, p);
  }

  method ClassifyMetrics(metrics: map<Id, Metric>, order: seq<Id>, total: real, p: Limits) returns (r: Result<Classification, Code>)
    requires p.Ok() && Listed(Revenues(metrics), order) && total == TotalRevenue(Revenues(metrics)) > 0.0
    ensures r == Ok(ClassificationOf(metrics, p))
  {
    var revenues := Revenues(metrics);
    var abc := ClassifyAbc(revenues, order, total, p);
    var xyz := map x | x in metrics && XyzReason(metrics[x]).None? :: XyzClass(metrics[x], p);
    var segments := map x | x in abc && x in xyz :: Segment(abc[x], xyz[x]);
    SegmentsAre(metrics, p, abc, xyz, segments);
    Allocation.OrderedIsDistinct(revenues, order);
    var counts, earned := CountSegments(segments, revenues, order);
    var items := map x | x in metrics ::
      ItemResult(if x in abc then Some(abc[x]) else None, if x in xyz then Some(xyz[x]) else None,
                 if x in segments then Some(segments[x]) else None);
    ItemsAre(metrics, p, abc, xyz, segments, items);
    CountsAre(metrics, p, counts, earned);
    return Ok(Classification(|metrics|, |segments|, |metrics.Keys - segments.Keys|, items, counts, earned));
  }

  lemma SegmentsAre(metrics: map<Id, Metric>, p: Limits, abc: map<Id, Abc>, xyz: map<Id, Xyz>, segments: map<Id, Segment>)
    requires p.Ok() && TotalRevenue(Revenues(metrics)) > 0.0
    requires abc.Keys == Revenues(metrics).Keys && forall x :: x in abc ==> abc[x] == AbcClass(Revenues(metrics), p, x)
    requires xyz == map x | x in metrics && XyzReason(metrics[x]).None? :: XyzClass(metrics[x], p)
    requires segments == map x | x in abc && x in xyz :: Segment(abc[x], xyz[x])
    ensures segments.Keys == Complete(metrics) && segments == SegmentsOf(metrics, p)
  {
    assert segments.Keys == Complete(metrics);
    forall x | x in segments
      ensures segments[x] == SegmentOf(metrics, p, x)
    {
    }
  }

  lemma ItemsAre(metrics: map<Id, Metric>, p: Limits, abc: map<Id, Abc>, xyz: map<Id, Xyz>, segments: map<Id, Segment>,
                 items: map<Id, ItemResult>)
    requires p.Ok() && TotalRevenue(Revenues(metrics)) > 0.0
    requires abc.Keys == Revenues(metrics).Keys && forall x :: x in abc ==> abc[x] == AbcClass(Revenues(metrics), p, x)
    requires xyz == map x | x in metrics && XyzReason(metrics[x]).None? :: XyzClass(metrics[x], p)
    requires segments == map x | x in abc && x in xyz :: Segment(abc[x], xyz[x])
    requires items == map x | x in metrics ::
               ItemResult(if x in abc then Some(abc[x]) else None, if x in xyz then Some(xyz[x]) else None,
                          if x in segments then Some(segments[x]) else None)
    ensures items == ItemsOf(metrics, p)
  {
    forall x | x in metrics
      ensures items[x] == ItemsOf(metrics, p)[x]
    {
      ItemIs(metrics, p, abc, xyz, segments, x);
    }
  }

  lemma ItemIs(metrics: map<Id, Metric>, p: Limits, abc: map<Id, Abc>, xyz: map<Id, Xyz>, segments: map<Id, Segment>, x: Id)
    requires p.Ok() && TotalRevenue(Revenues(metrics)) > 0.0 && x in metrics
    requires abc.Keys == Revenues(metrics).Keys && (x in abc ==> abc[x] == AbcClass(Revenues(metrics), p, x))
    requires x in xyz <==> XyzReason(metrics[x]).None?
    requires x in xyz ==> xyz[x] == XyzClass(metrics[x], p)
    requires x in segments <==> x in abc && x in xyz
    requires x in segments ==> segments[x] == Segment(abc[x], xyz[x])
    ensures ItemOf(metrics, p, x) ==
              ItemResult(if x in abc then Some(abc[x]) else None, if x in xyz then Some(xyz[x]) else None,
                         if x in segments then Some(segments[x]) else None)
  {
  }

  lemma CountsAre(metrics: map<Id, Metric>, p: Limits, counts: map<Segment, nat>, earned: map<Segment, real>)
    requires p.Ok() && TotalRevenue(Revenues(metrics)) > 0.0
    requires CountedSoFar(SegmentsOf(metrics, p), Revenues(metrics), Complete(metrics), counts, earned)
    ensures counts == ClassificationOf(metrics, p).counts && earned == ClassificationOf(metrics, p).revenue
  {
  }

  function ItemsIn(): Metric -> Id {
    (m: Metric) => m.item
  }

  lemma {:induction false} DistinctIsDifferent(rows: seq<Metric>)
    ensures DistinctItems(rows) <==> AllDifferent(Mapped(ItemsIn(), rows))
  {
    forall k | 0 <= k < |rows|
      ensures Mapped(ItemsIn(), rows)[k] == rows[k].item
    {
      MappedAt(ItemsIn(), rows, k);
    }
  }

  lemma SameMetrics(rows: seq<Metric>, rows': seq<Metric>)
    requires (forall m :: m in rows <==> m in rows') && DistinctItems(rows) && DistinctItems(rows')
    ensures Metrics(rows) == Metrics(rows')
  {
    MetricsAre(rows);
    MetricsAre(rows');
    forall x
      ensures x in Metrics(rows) ==> x in Metrics(rows') && Metrics(rows')[x] == Metrics(rows)[x]
      ensures x in Metrics(rows') ==> x in Metrics(rows)
    {
      if x in Metrics(rows) {
        assert Metrics(rows)[x] in rows';
      }
      if x in Metrics(rows') {
        assert Metrics(rows')[x] in rows;
      }
    }
  }

  /** Listing the rows in another order accepts and classifies them the same. */
  lemma {:induction false} RowOrderIsIrrelevant(rows: seq<Metric>, rows': seq<Metric>, p: Limits)
    requires multiset(rows) == multiset(rows')
    ensures Accepted(rows, p) <==> Accepted(rows', p)
    ensures Accepted(rows, p) ==> ClassificationOf(Metrics(rows), p) == ClassificationOf(Metrics(rows'), p)
  {
    SameElements(rows, rows');
    MappedPermutes(ItemsIn(), rows, rows');
    DifferentPermutes(Mapped(ItemsIn(), rows), Mapped(ItemsIn(), rows'));
    DistinctIsDifferent(rows);
    DistinctIsDifferent(rows');
    if DistinctItems(rows) {
      SameMetrics(rows, rows');
    }
  }

  // The XYZ class without division.

  /** Squared weeks times the variance of weekly demand, from the sums. */
  function SpreadOfSums(m: Metric, weeks: int): real {
    weeks as real * m.squares - m.demand * m.demand
  }

  lemma OverAndBack(a: real, n: real)
    requires n > 0.0
    ensures n * (a / n) == a
  {
  }

  lemma SquareOver(a: real, n: real)
    requires n > 0.0
    ensures n * n * ((a / n) * (a / n)) == a * a
  {
    OverAndBack(a, n);
    var q := a / n;
    assert n * n * (q * q) == (n * q) * (n * q);
  }

  lemma SpreadOver(squares: real, demand: real, n: real)
    requires n > 0.0
    ensures n * n * (squares / n - (demand / n) * (demand / n)) == n * squares - demand * demand
  {
    SquareOver(demand, n);
    OverAndBack(squares, n);
    var u, v := squares / n, (demand / n) * (demand / n);
    assert n * n * (u - v) == n * (n * u) - n * n * v;
  }

  lemma AtMostQuotient(a: real, b: real, c: real)
    requires b > 0.0
    ensures a / b <= c <==> a <= c * b
  {
    var q := a / b;
    assert q * b == a;
    if q <= c {
      assert (c - q) * b >= 0.0;
    } else {
      assert (q - c) * b > 0.0;
    }
  }

  lemma AtMostScaled(a: real, b: real, k: real)
    requires k > 0.0
    ensures a <= b <==> k * a <= k * b
  {
    if a <= b {
      assert k * (b - a) >= 0.0;
    } else {
      assert k * (a - b) > 0.0;
    }
  }

  lemma Moved(k: real, c: real, a: real)
    ensures k * (c * a) == c * (k * a)
  {
  }

  lemma PositiveSquare(n: real)
    requires n > 0.0
    ensures n * n > 0.0
  {
  }

  lemma PositiveScaled(spread: real, nn: real, total: real)
    requires nn > 0.0 && nn * spread == total
    ensures spread > 0.0 <==> total > 0.0
    ensures nn * (if spread > 0.0 then spread else 0.0) == if total > 0.0 then total else 0.0
  {
    if spread > 0.0 {
      PositiveProduct(nn, spread);
    } else {
      PositiveProduct(nn, -spread);
    }
  }

  lemma PositiveProduct(a: real, b: real)
    requires a > 0.0 && b >= 0.0
    ensures a * b >= 0.0 && (b > 0.0 ==> a * b > 0.0)
  {
  }

  /** A quotient against a limit, both scaled. */
  lemma ScaledQuotient(top: real, bottom: real, limit: real, nn: real, top': real, bottom': real)
    requires bottom > 0.0 && nn > 0.0 && nn * top == top' && nn * bottom == bottom'
    ensures top / bottom <= limit <==> top' <= limit * bottom'
  {
    AtMostQuotient(top, bottom, limit);
    AtMostScaled(top, limit * bottom, nn);
    Moved(nn, limit, bottom);
  }

  /** Variation within a limit, in terms of the sums: zero when the squares are too small for any variation. */
  lemma WithinLimit(m: Metric, weeks: int, limit: real)
    requires m.demand > 0.0 && weeks >= 1
    ensures Cv2(m, weeks) <= limit <==>
              (if SpreadOfSums(m, weeks) > 0.0 then SpreadOfSums(m, weeks) else 0.0) <= limit * (m.demand * m.demand)
  {
    var n := weeks as real;
    var mean := m.demand / n;
    var spread := m.squares / n - mean * mean;
    Positive(m.demand, n);
    PositiveSquare(n);
    SpreadOver(m.squares, m.demand, n);
    SquareOver(m.demand, n);
    PositiveScaled(spread, n * n, SpreadOfSums(m, weeks));
    ScaledQuotient(if spread > 0.0 then spread else 0.0, mean * mean, limit, n * n,
                   if SpreadOfSums(m, weeks) > 0.0 then SpreadOfSums(m, weeks) else 0.0, m.demand * m.demand);
  }

  /** The XYZ class by the sums of demand and of its squares. */
  lemma XyzIs(m: Metric, p: Limits)
    requires XyzReason(m).None? && p.Ok()
    ensures var spread := if SpreadOfSums(m, p.weeks) > 0.0 then SpreadOfSums(m, p.weeks) else 0.0;
            && (XyzClass(m, p) == X <==> spread <= p.xMax * (m.demand * m.demand))
            && (XyzClass(m, p) == Z <==> spread > p.yMax * (m.demand * m.demand))
  {
    WithinLimit(m, p.weeks, p.xMax);
    WithinLimit(m, p.weeks, p.yMax);
  }

  /** An item has both classes exactly when nothing is wrong with either history. */
  lemma CompleteIs(metrics: map<Id, Metric>, x: Id)
    requires x in metrics
    ensures var m := metrics[x];
            x in Complete(metrics) <==>
              && m.abcInvalid <= 0 && m.abcSource != 0 && m.abcWeeks != 0 && m.revenue > 0.0
              && m.xyzInvalid <= 0 && m.xyzSource != 0 && m.xyzWeeks != 0 && m.demand > 0.0
  {
  }

  /** The ABC class by what the items before this one earn: less than the first share of the total, or less than the second. */
  lemma AbcIs(revenues: map<Id, real>, order: seq<Id>, p: Limits, k: nat)
    requires Listed(revenues, order) && TotalRevenue(revenues) > 0.0 && k < |order| && p.Ok()
    ensures order[k] in revenues
    ensures AbcClass(revenues, p, order[k]) == A <==> Prefix(revenues, order, k) < Goal(p.aShare, TotalRevenue(revenues))
    ensures AbcClass(revenues, p, order[k]) == C <==> !(Prefix(revenues, order, k) < Goal(p.bShare, TotalRevenue(revenues)))
  {
    BelowGoal(revenues, order, p.aShare, k);
    BelowGoal(revenues, order, p.bShare, k);
  }

  /** What a classification says of one item. */
  lemma ItemSays(metrics: map<Id, Metric>, p: Limits, x: Id)
    requires TotalRevenue(Revenues(metrics)) > 0.0 && p.Ok() && x in metrics
    ensures var m, items := metrics[x], ClassificationOf(metrics, p).items;
            && x in items
            && (items[x].abc.Some? <==> m.abcInvalid <= 0 && m.abcSource != 0 && m.abcWeeks != 0 && m.revenue > 0.0)
            && (items[x].xyz.Some? <==> m.xyzInvalid <= 0 && m.xyzSource != 0 && m.xyzWeeks != 0 && m.demand > 0.0)
            && (items[x].abc.Some? ==> x in Revenues(metrics) && items[x].abc.value == AbcClass(Revenues(metrics), p, x))
            && (items[x].xyz.Some? ==> XyzReason(m).None? && items[x].xyz.value == XyzClass(m, p))
            && (items[x].segment.Some? <==> items[x].abc.Some? && items[x].xyz.Some?)
            && (items[x].segment.Some? ==> items[x].segment.value == Segment(items[x].abc.value, items[x].xyz.value))
  {
  }

  lemma InSegment(metrics: map<Id, Metric>, p: Limits, segment: Segment, x: Id)
    requires TotalRevenue(Revenues(metrics)) > 0.0 && p.Ok()
    ensures x in ItemsOf(metrics, p) && ItemsOf(metrics, p)[x].segment == Some(segment) <==>
              x in Part(SegmentsOf(metrics, p), Complete(metrics), segment)
  {
  }

  lemma SegmentCounts(metrics: map<Id, Metric>, p: Limits, segment: Segment)
    requires TotalRevenue(Revenues(metrics)) > 0.0 && p.Ok()
    ensures var c, part := ClassificationOf(metrics, p), Part(SegmentsOf(metrics, p), Complete(metrics), segment);
            && c.items == ItemsOf(metrics, p) && part <= Revenues(metrics).Keys
            && segment in c.counts && c.counts[segment] == |part|
            && segment in c.revenue && c.revenue[segment] == Allocation.Sum(part, Revenues(metrics))
  {
    EverySegment(segment);
  }

  /** The items of one segment. */
  ghost function Inside(items: map<Id, ItemResult>, segment: Segment): set<Id> {
    set x | x in items && items[x].segment == Some(segment)
  }

  /** What a classification says of one segment: how many items have it, and what they earn. */
  lemma SegmentSays(metrics: map<Id, Metric>, p: Limits, segment: Segment)
    requires TotalRevenue(Revenues(metrics)) > 0.0 && p.Ok()
    ensures var c := ClassificationOf(metrics, p);
            var inside := Inside(c.items, segment);
            && inside <= Revenues(metrics).Keys
            && segment in c.counts && c.counts[segment] == |inside|
            && segment in c.revenue && c.revenue[segment] == Allocation.Sum(inside, Revenues(metrics))
  {
    SegmentCounts(metrics, p, segment);
    var part := Part(SegmentsOf(metrics, p), Complete(metrics), segment);
    assert Inside(ItemsOf(metrics, p), segment) == part by {
      forall x
        ensures x in Inside(ItemsOf(metrics, p), segment) <==> x in part
      {
        InSegment(metrics, p, segment, x);
      }
    }
  }

  /** Classified are the items with both classes. */
  lemma ClassifiedAre(metrics: map<Id, Metric>, p: Limits)
    requires TotalRevenue(Revenues(metrics)) > 0.0 && p.Ok()
    ensures var c := ClassificationOf(metrics, p);
            c.classified == |set x | x in c.items && c.items[x].abc.Some? && c.items[x].xyz.Some?|
  {
    var c := ClassificationOf(metrics, p);
    assert (set x | x in c.items && c.items[x].abc.Some? && c.items[x].xyz.Some?) == Complete(metrics);
  }
}
