/** What an expanded observation holds, and when there is one, in terms of the rows of the source. */
module ObservationMeaning {
  import opened Wrappers
  import opened TextOrder
  import opened ObservationStorage

  // Counting rows.

  function Count<T>(rows: seq<T>, keep: T -> bool): nat {
    if rows == [] then 0 else Count(rows[..|rows| - 1], keep) + if keep(rows[|rows| - 1]) then 1 else 0
  }

  lemma {:induction false} CountJoin<T>(a: seq<T>, b: seq<T>, keep: T -> bool)
    ensures Count(a + b, keep) == Count(a, keep) + Count(b, keep)
  {
    if b == [] {
      assert a + b == a;
    } else {
      CountJoin(a, b[..|b| - 1], keep);
      assert (a + b)[..|a + b| - 1] == a + b[..|b| - 1];
    }
  }

  lemma CountOne<T>(x: T, keep: T -> bool)
    ensures Count([x], keep) == if keep(x) then 1 else 0
  {
    assert [x][..0] == [];
  }

  lemma CountLast<T>(rows: seq<T>, x: T, keep: T -> bool)
    ensures Count(rows + [x], keep) == Count(rows, keep) + if keep(x) then 1 else 0
  {
    assert (rows + [x])[..|rows|] == rows;
  }

  /** A row that is kept, when only one is, is the only one. */
  lemma {:induction false} OnlyOne<T>(rows: seq<T>, keep: T -> bool, j: nat, k: nat)
    requires Count(rows, keep) <= 1 && j < |rows| && k < |rows| && keep(rows[j]) && keep(rows[k])
    ensures j == k
  {
    var n := |rows| - 1;
    if j < n && k < n {
      OnlyOne(rows[..n], keep, j, k);
    } else if j != k {
      CountPositive(rows[..n], keep, if j < n then j else k);
    }
  }

  lemma {:induction false} CountPositive<T>(rows: seq<T>, keep: T -> bool, k: nat)
    requires k < |rows| && keep(rows[k])
    ensures Count(rows, keep) > 0
  {
    if k < |rows| - 1 {
      CountPositive(rows[..|rows| - 1], keep, k);
    }
  }

  // The filters of an expansion.

  lemma {:induction false} OfIs<T>(rows: seq<T>, itemOf: T -> Id, item: Id, x: T)
    ensures multiset(Of(rows, itemOf, item))[x] == if itemOf(x) == item then multiset(rows)[x] else 0
  {
    if rows != [] {
      var before, last := rows[..|rows| - 1], rows[|rows| - 1];
      OfIs(before, itemOf, item, x);
      assert rows == before + [last];
    }
  }

  lemma {:induction false} OfCount<T>(rows: seq<T>, itemOf: T -> Id, item: Id, keep: T -> bool)
    requires forall x :: x in rows ==> keep(x) == (itemOf(x) == item)
    ensures |Of(rows, itemOf, item)| == Count(rows, keep)
  {
    if rows != [] {
      OfCount(rows[..|rows| - 1], itemOf, item, keep);
    }
  }

  lemma {:induction false} OfHolds<T>(rows: seq<T>, itemOf: T -> Id, item: Id)
    ensures forall x :: x in Of(rows, itemOf, item) <==> x in rows && itemOf(x) == item
  {
    if rows != [] {
      var before, last := rows[..|rows| - 1], rows[|rows| - 1];
      OfHolds(before, itemOf, item);
      assert rows == before + [last];
    }
  }

  lemma {:induction false} RulesAre(rules: seq<Rule>, uom: string)
    ensures |RulesOf(rules, uom)| == Count(rules, (r: Rule) => r.uom == uom)
    ensures forall r :: r in RulesOf(rules, uom) <==> r in rules && r.uom == uom
  {
    if rules != [] {
      var before, last := rules[..|rules| - 1], rules[|rules| - 1];
      RulesAre(before, uom);
      assert rules == before + [last];
    }
  }

  lemma {:induction false} ApplicableAre(policies: seq<Policy>, date: Date)
    ensures |Applicable(policies, date)| == Count(policies, (p: Policy) => p.from <= date < p.until)
    ensures forall p :: p in Applicable(policies, date) <==> p in policies && p.from <= date < p.until
  {
    if policies != [] {
      var before, last := policies[..|policies| - 1], policies[|policies| - 1];
      ApplicableAre(before, date);
      assert policies == before + [last];
    }
  }

  lemma {:induction false} StartingAre(calendar: seq<Bucket>, date: Date)
    ensures |StartingAt(calendar, date)| == Count(calendar, (b: Bucket) => b.start == date)
    ensures forall k :: 0 <= k < |StartingAt(calendar, date)| ==> calendar[StartingAt(calendar, date)[k]].start == date
  {
    if calendar != [] {
      var n := |calendar| - 1;
      StartingAre(calendar[..n], date);
    }
  }

  // The schedule.

  predicate InPeriodOrder(schedule: seq<Policy>) {
    forall j, k :: 0 <= j < k < |schedule| ==> !Earlier(schedule[k], schedule[j])
  }

  lemma EarlierIsTransitive(a: Policy, b: Policy, c: Policy)
    requires !Earlier(b, a) && !Earlier(c, b)
    ensures !Earlier(c, a)
  {
    LessIsTotal(a.id, b.id);
    LessIsTotal(b.id, c.id);
    if Less(a.id, b.id) && Less(b.id, c.id) {
      LessIsTransitive(a.id, b.id, c.id);
    }
    LessIsTotal(a.id, c.id);
  }

  lemma EarlierIsStrict(a: Policy, b: Policy)
    requires Earlier(a, b)
    ensures !Earlier(b, a)
  {
    LessIsTotal(a.id, b.id);
  }

  lemma {:induction false} InsertIsOrdered(sorted: seq<Policy>, p: Policy)
    requires InPeriodOrder(sorted)
    ensures InPeriodOrder(InsertPolicy(sorted, p))
  {
    if sorted != [] {
      var before, last := sorted[..|sorted| - 1], sorted[|sorted| - 1];
      assert sorted == before + [last];
      if Earlier(p, last) {
        InsertIsOrdered(before, p);
        InsertKeeps(before, p);
        EarlierIsStrict(p, last);
        var shorter := InsertPolicy(before, p);
        forall j | 0 <= j < |shorter|
          ensures !Earlier(last, shorter[j])
        {
          assert shorter[j] in multiset(shorter);
          if shorter[j] != p {
            var k :| 0 <= k < |before| && before[k] == shorter[j];
            assert sorted[k] == before[k];
          }
        }
      } else {
        forall j | 0 <= j < |sorted|
          ensures !Earlier(p, sorted[j])
        {
          if j < |before| {
            EarlierIsTransitive(sorted[j], last, p);
          }
        }
      }
    }
  }

  lemma AppendedMultiset(before: seq<Policy>, last: Policy)
    ensures multiset(before + [last]) == multiset(before) + multiset{last}
  {
  }

  lemma {:induction false} SortOrders(policies: seq<Policy>)
    ensures InPeriodOrder(SortPolicies(policies))
  {
    if policies != [] {
      SortOrders(policies[..|policies| - 1]);
      InsertIsOrdered(SortPolicies(policies[..|policies| - 1]), policies[|policies| - 1]);
    }
  }

  lemma {:induction false} InsertKeeps(sorted: seq<Policy>, p: Policy)
    ensures multiset(InsertPolicy(sorted, p)) == multiset(sorted) + multiset{p}
  {
    if sorted != [] && Earlier(p, sorted[|sorted| - 1]) {
      InsertKeeps(sorted[..|sorted| - 1], p);
      assert sorted == sorted[..|sorted| - 1] + [sorted[|sorted| - 1]];
    }
  }

  lemma {:induction false} SortKeeps(policies: seq<Policy>)
    ensures multiset(SortPolicies(policies)) == multiset(policies)
  {
    if policies != [] {
      SortKeeps(policies[..|policies| - 1]);
      InsertKeeps(SortPolicies(policies[..|policies| - 1]), policies[|policies| - 1]);
      AppendedMultiset(policies[..|policies| - 1], policies[|policies| - 1]);
      assert policies == policies[..|policies| - 1] + [policies[|policies| - 1]];
    }
  }

  lemma SortIsOrdered(policies: seq<Policy>)
    ensures InPeriodOrder(SortPolicies(policies)) && multiset(SortPolicies(policies)) == multiset(policies)
  {
    SortOrders(policies);
    SortKeeps(policies);
  }

  lemma {:induction false} SortCounts(policies: seq<Policy>, keep: Policy -> bool)
    ensures Count(SortPolicies(policies), keep) == Count(policies, keep)
  {
    if policies != [] {
      SortCounts(policies[..|policies| - 1], keep);
      InsertCounts(SortPolicies(policies[..|policies| - 1]), policies[|policies| - 1], keep);
    }
  }

  lemma {:induction false} InsertCounts(sorted: seq<Policy>, p: Policy, keep: Policy -> bool)
    ensures Count(InsertPolicy(sorted, p), keep) == Count(sorted, keep) + if keep(p) then 1 else 0
  {
    if sorted == [] || !Earlier(p, sorted[|sorted| - 1]) {
      CountLast(sorted, p, keep);
    } else {
      InsertCounts(sorted[..|sorted| - 1], p, keep);
      CountLast(InsertPolicy(sorted[..|sorted| - 1], p), sorted[|sorted| - 1], keep);
    }
  }

  lemma {:induction false} OfThenCount(rows: seq<Policy>, item: Id, keep: Policy -> bool)
    ensures Count(Of(rows, PolicyItem(), item), keep) == Count(rows, (p: Policy) => p.item == item && keep(p))
  {
    if rows != [] {
      var before, last := rows[..|rows| - 1], rows[|rows| - 1];
      OfThenCount(before, item, keep);
      CountLast(Of(before, PolicyItem(), item), last, keep);
    }
  }

  // Demand.

  predicate IsDemand(d: Demand, item: Id, uom: string, week: int) {
    d.item == item && d.uom == uom && d.week == week
  }

  /** The last row of the source for a week. */
  predicate LastDemand(demands: seq<Demand>, item: Id, uom: string, week: int, d: Demand) {
    exists n :: 0 <= n < |demands| && demands[n] == d && IsDemand(d, item, uom, week)
                && forall m :: n < m < |demands| ==> !IsDemand(demands[m], item, uom, week)
  }

  predicate HasDemand(demands: seq<Demand>, item: Id, uom: string, week: int) {
    exists d :: d in demands && IsDemand(d, item, uom, week)
  }

  lemma LaterOther(before: seq<Demand>, last: Demand, item: Id, uom: string, week: int, d: Demand)
    requires LastDemand(before, item, uom, week, d) && !IsDemand(last, item, uom, week)
    ensures LastDemand(before + [last], item, uom, week, d)
  {
    var n :| 0 <= n < |before| && before[n] == d && IsDemand(d, item, uom, week)
             && forall m :: n < m < |before| ==> !IsDemand(before[m], item, uom, week);
    assert (before + [last])[n] == d;
  }

  lemma LastOne(before: seq<Demand>, last: Demand, item: Id, uom: string, week: int)
    requires IsDemand(last, item, uom, week)
    ensures LastDemand(before + [last], item, uom, week, last) && HasDemand(before + [last], item, uom, week)
  {
    assert (before + [last])[|before|] == last;
    assert last in before + [last];
  }

  lemma HasDemandStays(before: seq<Demand>, last: Demand, item: Id, uom: string, week: int)
    requires !IsDemand(last, item, uom, week)
    ensures HasDemand(before + [last], item, uom, week) <==> HasDemand(before, item, uom, week)
  {
    if d :| d in before && IsDemand(d, item, uom, week) {
      assert d in before + [last];
    }
  }

  lemma OfLast(before: seq<Demand>, last: Demand, item: Id)
    ensures Of(before + [last], DemandItem(), item) == Of(before, DemandItem(), item) + if last.item == item then [last] else []
  {
    assert (before + [last])[..|before|] == before;
  }

  lemma DemandAtLast(own: seq<Demand>, last: Demand, uom: string, week: int)
    ensures DemandAt(own + [last], uom, week) == if last.uom == uom && last.week == week then Some(last) else DemandAt(own, uom, week)
  {
    assert (own + [last])[..|own|] == own;
  }

  lemma {:induction false} DemandAtIs(demands: seq<Demand>, item: Id, uom: string, week: int)
    ensures var found := DemandAt(Of(demands, DemandItem(), item), uom, week);
            && (found.Some? <==> HasDemand(demands, item, uom, week))
            && (found.Some? ==> LastDemand(demands, item, uom, week, found.value))
  {
    if demands != [] {
      var before, last := demands[..|demands| - 1], demands[|demands| - 1];
      assert demands == before + [last];
      DemandAtIs(before, item, uom, week);
      var own := Of(before, DemandItem(), item);
      OfLast(before, last, item);
      DemandAtLast(own, last, uom, week);
      if IsDemand(last, item, uom, week) {
        LastOne(before, last, item, uom, week);
      } else {
        HasDemandStays(before, last, item, uom, week);
        if DemandAt(own, uom, week).Some? {
          LaterOther(before, last, item, uom, week, DemandAt(own, uom, week).value);
        }
      }
    }
  }

  lemma {:induction false} FutureIs(demands: seq<Demand>, item: Id, uom: string, calendar: seq<Bucket>)
    ensures var future := FutureDemand(Of(demands, DemandItem(), item), uom, calendar);
            && (future.Some? <==> forall b :: b in calendar ==> HasDemand(demands, item, uom, b.week))
            && (future.Some? ==> |future.value| == |calendar|)
            && (future.Some? ==> forall k :: 0 <= k < |calendar| ==> LastDemand(demands, item, uom, calendar[k].week, future.value[k]))
  {
    if calendar != [] {
      var before, last := calendar[..|calendar| - 1], calendar[|calendar| - 1];
      assert calendar == before + [last];
      FutureIs(demands, item, uom, before);
      DemandAtIs(demands, item, uom, last.week);
    }
  }

  // The expansion.

  /** Everything an expansion asks of the source: one authority for each part, and a demand for each week that is left. */
  ghost predicate Authoritative(r: Reference, source: Source, k: nat) {
    && k < |source.calendar| && source.calendar[k] == r.bucket && r.bucket.start == r.date
    && Count(source.calendar, (b: Bucket) => b.start == r.date) == 1
    && Count(source.policies, (p: Policy) => p.item == r.item && p.from <= r.date < p.until) == 1
    && Count(source.controls, (c: Control) => c.item == r.item) == 1
    && Count(source.rules, (x: Rule) => x.uom == r.uom) == 1
    && forall b :: b in source.calendar[k..] ==> HasDemand(source.demands, r.item, r.uom, b.week)
  }

  lemma {:induction false} ApplicableCount(r: Reference, source: Source)
    ensures |Applicable(SortPolicies(Of(source.policies, PolicyItem(), r.item)), r.date)|
            == Count(source.policies, (p: Policy) => p.item == r.item && p.from <= r.date < p.until)
  {
    var own := Of(source.policies, PolicyItem(), r.item);
    var keep := (p: Policy) => p.from <= r.date < p.until;
    ApplicableAre(SortPolicies(own), r.date);
    SortCounts(own, keep);
    OfThenCount(source.policies, r.item, keep);
    SameCount(source.policies, (p: Policy) => p.item == r.item && keep(p), (p: Policy) => p.item == r.item && p.from <= r.date < p.until);
    SameCount(SortPolicies(own), keep, (p: Policy) => p.from <= r.date < p.until);
  }

  lemma {:induction false} SameCount<T>(rows: seq<T>, keep: T -> bool, keep': T -> bool)
    requires forall x :: x in rows ==> keep(x) == keep'(x)
    ensures Count(rows, keep) == Count(rows, keep')
  {
    if rows != [] {
      SameCount(rows[..|rows| - 1], keep, keep');
    }
  }

  lemma {:induction false} ControlCount(r: Reference, source: Source)
    ensures |Of(source.controls, ControlItem(), r.item)| == Count(source.controls, (c: Control) => c.item == r.item)
  {
    OfCount(source.controls, ControlItem(), r.item, (c: Control) => c.item == r.item);
  }

  /** The position of the bucket that starts on the date, if there is only one. */
  lemma {:induction false} BucketIs(calendar: seq<Bucket>, date: Date, k: nat)
    requires Count(calendar, (b: Bucket) => b.start == date) == 1 && k < |calendar| && calendar[k].start == date
    ensures StartingAt(calendar, date) == [k]
  {
    StartingAre(calendar, date);
    OnlyOne(calendar, (b: Bucket) => b.start == date, StartingAt(calendar, date)[0], k);
  }

  lemma {:induction false} CountsAre(r: Reference, source: Source)
    ensures |StartingAt(source.calendar, r.date)| == Count(source.calendar, (b: Bucket) => b.start == r.date)
    ensures |Applicable(SortPolicies(Of(source.policies, PolicyItem(), r.item)), r.date)|
            == Count(source.policies, (p: Policy) => p.item == r.item && p.from <= r.date < p.until)
    ensures |Of(source.controls, ControlItem(), r.item)| == Count(source.controls, (c: Control) => c.item == r.item)
    ensures |RulesOf(source.rules, r.uom)| == Count(source.rules, (x: Rule) => x.uom == r.uom)
  {
    StartingAre(source.calendar, r.date);
    ApplicableCount(r, source);
    ControlCount(r, source);
    RulesAre(source.rules, r.uom);
  }

  lemma {:induction false} ExpandedIsAuthoritative(r: Reference, source: Source) returns (k: nat)
    requires Expand(Compact(r), source).Some?
    ensures Authoritative(r, source, k)
  {
    CountsAre(r, source);
    StartingAre(source.calendar, r.date);
    k := StartingAt(source.calendar, r.date)[0];
    FutureIs(source.demands, r.item, r.uom, source.calendar[k..]);
  }

  lemma {:induction false} AuthoritativeIsExpanded(r: Reference, source: Source, k: nat)
    requires Authoritative(r, source, k)
    ensures Expand(Compact(r), source).Some?
  {
    CountsAre(r, source);
    BucketIs(source.calendar, r.date, k);
    FutureIs(source.demands, r.item, r.uom, source.calendar[k..]);
  }

  /** A reference is expanded exactly when the source is the one authority for it. */
  lemma {:induction false} ExpandAccepts(r: Reference, source: Source)
    ensures Expand(Compact(r), source).Some? <==> exists k :: Authoritative(r, source, k)
  {
    if Expand(Compact(r), source).Some? {
      var k := ExpandedIsAuthoritative(r, source);
    }
    if k: nat :| Authoritative(r, source, k) {
      AuthoritativeIsExpanded(r, source, k);
    }
  }

  /** What the expansion holds: the one policy, control and rule, */
  lemma {:induction false} AuthoritiesAre(r: Reference, source: Source)
    requires Expand(Compact(r), source).Some?
    ensures var e := Expand(Compact(r), source).value;
            && e.Expanded? && e.ref == r && e.shared == source.shared
            && e.policy in source.policies && e.policy.item == r.item && e.policy.from <= r.date < e.policy.until
            && e.control in source.controls && e.control.item == r.item && e.rule in source.rules && e.rule.uom == r.uom
  {
    PolicyIsOne(r, source);
    OthersAreOne(r, source);
  }

  /** the whole schedule of the item in order, */
  lemma {:induction false} ScheduleIs(r: Reference, source: Source)
    requires Expand(Compact(r), source).Some?
    ensures var e := Expand(Compact(r), source).value;
            && e.Expanded? && InPeriodOrder(e.schedule)
            && forall p :: multiset(e.schedule)[p] == if p.item == r.item then multiset(source.policies)[p] else 0
  {
    var own := Of(source.policies, PolicyItem(), r.item);
    SortIsOrdered(own);
    forall p
      ensures multiset(SortPolicies(own))[p] == if p.item == r.item then multiset(source.policies)[p] else 0
    {
      OfIs(source.policies, PolicyItem(), r.item, p);
    }
  }

  /** the calendar from the date on, and each week's last demand. */
  lemma {:induction false} FutureOf(r: Reference, source: Source)
    requires Expand(Compact(r), source).Some?
    ensures var e := Expand(Compact(r), source).value;
            && e.Expanded? && e.calendar != [] && e.calendar[0] == r.bucket && e.calendar[0].start == r.date
            && |e.calendar| <= |source.calendar| && e.calendar == source.calendar[|source.calendar| - |e.calendar|..]
            && |e.future| == |e.calendar|
            && forall k :: 0 <= k < |e.calendar| ==> LastDemand(source.demands, r.item, r.uom, e.calendar[k].week, e.future[k])
  {
    StartingAre(source.calendar, r.date);
    FutureIs(source.demands, r.item, r.uom, source.calendar[StartingAt(source.calendar, r.date)[0]..]);
  }

  lemma {:induction false} PolicyIsOne(r: Reference, source: Source)
    ensures forall p :: p in Applicable(SortPolicies(Of(source.policies, PolicyItem(), r.item)), r.date) ==>
              p in source.policies && p.item == r.item && p.from <= r.date < p.until
  {
    var own := Of(source.policies, PolicyItem(), r.item);
    SortIsOrdered(own);
    OfHolds(source.policies, PolicyItem(), r.item);
    ApplicableAre(SortPolicies(own), r.date);
    forall p | p in SortPolicies(own)
      ensures p in own
    {
      assert p in multiset(SortPolicies(own));
    }
  }

  lemma {:induction false} OthersAreOne(r: Reference, source: Source)
    ensures forall c :: c in Of(source.controls, ControlItem(), r.item) ==> c in source.controls && c.item == r.item
    ensures forall x :: x in RulesOf(source.rules, r.uom) ==> x in source.rules && x.uom == r.uom
  {
    OfHolds(source.controls, ControlItem(), r.item);
    RulesAre(source.rules, r.uom);
  }
}
