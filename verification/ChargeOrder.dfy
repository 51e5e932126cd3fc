/** The order of the charges of a line, and of the lanes of a shipment, does not matter. */
module ChargeOrder {
  import opened Wrappers
  import opened Rounding
  import opened Permutations
  import opened LandedCost
  import opened LaneCharges

  function ComponentOf(r: Request): Charge -> Component {
    c => if ChargeOk(r, c) then ChargeComponent(r, c) else Component("", 0, false, false, false)
  }

  function KindOf(): Component -> string {
    (c: Component) => c.kind
  }

  function With(r: Request, charges: seq<Charge>): Request {
    r.(charges := charges)
  }

  /** A charge is converted by the terms of its request, not by the other charges. */
  lemma {:induction false} SameComponent(r: Request, charges: seq<Charge>, c: Charge)
    ensures ChargeOk(With(r, charges), c) <==> ChargeOk(r, c)
    ensures ChargeOk(r, c) ==> ChargeComponent(With(r, charges), c) == ComponentOf(r)(c)
  {
    var r' := With(r, charges);
    assert Exchangeable(r', c.currency) == Exchangeable(r, c.currency);
    if Exchangeable(r, c.currency) {
      assert Exchanged(r', c.amount, c.currency) == Exchanged(r, c.amount, c.currency);
    }
  }

  lemma {:induction false} ComponentsAreMapped(r: Request, all: seq<Charge>, charges: seq<Charge>)
    requires forall c :: c in charges ==> ChargeOk(With(r, all), c)
    ensures ChargeComponents(With(r, all), charges) == Mapped(ComponentOf(r), charges)
  {
    if charges != [] {
      ComponentsAreMapped(r, all, charges[..|charges| - 1]);
      SameComponent(r, all, charges[|charges| - 1]);
    }
  }

  lemma {:induction false} TotalPermutes(a: seq<Component>, b: seq<Component>, part: Part)
    requires multiset(a) == multiset(b)
    ensures Total(a, part) == Total(b, part)
    decreases |a|
  {
    if a == [] {
      assert b == [];
    } else {
      var k := TakeOut(a, b);
      TotalPermutes(a[..|a| - 1], b[..k] + b[k + 1..], part);
      TotalOfTwo(b[..k], b[k + 1..], part);
      TotalOfTwo(b[..k] + [b[k]], b[k + 1..], part);
      TotalOfTwo(b[..k], [b[k]], part);
      SingleTotal(b[k], part);
    }
  }

  lemma {:induction false} DistinctKinds(cs: seq<Component>)
    ensures Distinct(cs) <==> AllDifferent(Mapped(KindOf(), cs))
  {
    forall k | 0 <= k < |cs|
      ensures Mapped(KindOf(), cs)[k] == cs[k].kind
    {
      MappedAt(KindOf(), cs, k);
    }
  }

  lemma {:induction false} DistinctPermuted(a: seq<Component>, b: seq<Component>)
    requires multiset(a) == multiset(b)
    ensures Distinct(a) <==> Distinct(b)
  {
    MappedPermutes(KindOf(), a, b);
    DifferentPermutes(Mapped(KindOf(), a), Mapped(KindOf(), b));
    DistinctKinds(a);
    DistinctKinds(b);
  }

  lemma {:induction false} ByKindOfElements(a: seq<Component>, b: seq<Component>)
    requires Distinct(a) && Distinct(b) && forall c :: c in a ==> c in b
    ensures forall kind :: kind in ByKind(a) ==> kind in ByKind(b) && ByKind(b)[kind] == ByKind(a)[kind]
  {
    ByKindHolds(a);
    ByKindHolds(b);
  }

  lemma {:induction false} ByKindPermutes(a: seq<Component>, b: seq<Component>)
    requires multiset(a) == multiset(b) && Distinct(a)
    ensures Distinct(b) && ByKind(a) == ByKind(b)
  {
    DistinctPermuted(a, b);
    SameElements(a, b);
    ByKindOfElements(a, b);
    ByKindOfElements(b, a);
    assert ByKind(a).Keys == ByKind(b).Keys;
  }

  lemma {:induction false} SameBlocking(r: Request, a: seq<Charge>, b: seq<Charge>)
    requires multiset(a) == multiset(b)
    ensures Blocking(With(r, a)) == Blocking(With(r, b))
    ensures Wellformed(With(r, a)) == Wellformed(With(r, b))
  {
    SameElements(a, b);
    var ra, rb := With(r, a), With(r, b);
    forall currency
      ensures Exchangeable(ra, currency) == Exchangeable(rb, currency)
    {
    }
  }

  lemma {:induction false} SameBase(r: Request, a: seq<Charge>, b: seq<Charge>)
    requires multiset(a) == multiset(b)
    ensures BaseOk(With(r, a)) <==> BaseOk(With(r, b))
    ensures BaseOk(With(r, a)) ==> multiset(Base(With(r, a))) == multiset(Base(With(r, b)))
  {
    var ra, rb := With(r, a), With(r, b);
    SameElements(a, b);
    forall c
      ensures ChargeOk(ra, c) <==> ChargeOk(rb, c)
    {
      SameComponent(r, a, c);
      SameComponent(r, b, c);
    }
    SameTransaction(r, a);
    SameTransaction(r, b);
    if BaseOk(ra) {
      ComponentsAreMapped(r, a, a);
      ComponentsAreMapped(r, b, b);
      MappedPermutes(ComponentOf(r), a, b);
    }
  }

  lemma SameTransaction(r: Request, a: seq<Charge>)
    ensures Converted(With(r, a), r.transactionValue, r.transactionCurrency) == Converted(r, r.transactionValue, r.transactionCurrency)
  {
    var r' := With(r, a);
    assert Exchangeable(r', r.transactionCurrency) == Exchangeable(r, r.transactionCurrency);
    if Exchangeable(r, r.transactionCurrency) {
      assert Exchanged(r', r.transactionValue, r.transactionCurrency) == Exchanged(r, r.transactionValue, r.transactionCurrency);
    }
  }

  lemma SameRule(r: Request, a: seq<Charge>, b: seq<Charge>, rule: TariffRule, customs: int)
    ensures RuleOk(With(r, a), rule) == RuleOk(With(r, b), rule)
    ensures RuleOk(With(r, a), rule) ==>
              Duty(With(r, a), rule, customs) == Duty(With(r, b), rule, customs)
              && DutyComponents(With(r, a), rule, customs) == DutyComponents(With(r, b), rule, customs)
  {
    if RuleOk(With(r, a), rule) {
      assert Unclamped(With(r, a), rule, Amount(customs, r.scale)) == Unclamped(With(r, b), rule, Amount(customs, r.scale));
    }
  }

  lemma SameTax(r: Request, a: seq<Charge>, b: seq<Charge>, tax: TaxProfile, base: int)
    ensures VatComponents(With(r, a), tax, base) == VatComponents(With(r, b), tax, base)
  {
    assert Taxed(With(r, a), tax, base) == Taxed(With(r, b), tax, base);
  }

  lemma JoinedPermutes<A>(a: seq<A>, b: seq<A>, c: seq<A>, d: seq<A>)
    requires multiset(a) == multiset(b)
    ensures multiset(a + c + d) == multiset(b + c + d)
  {
  }

  lemma {:induction false} SameCustoms(r: Request, a: seq<Charge>, b: seq<Charge>)
    requires multiset(a) == multiset(b) && Ready(With(r, a)) && Ready(With(r, b))
    ensures CustomsOf(With(r, a)) == CustomsOf(With(r, b))
    ensures multiset(Base(With(r, a))) == multiset(Base(With(r, b)))
  {
    SameBase(r, a, b);
    TotalPermutes(Base(With(r, a)), Base(With(r, b)), InCustoms);
  }

  lemma {:induction false} SameVatBase(r: Request, a: seq<Charge>, b: seq<Charge>)
    requires Ready(With(r, a)) && Ready(With(r, b)) && CustomsOf(With(r, a)) == CustomsOf(With(r, b))
    ensures VatBaseOf(With(r, a)) == VatBaseOf(With(r, b))
  {
    SameRule(r, a, b, r.tariff.value, CustomsOf(With(r, a)));
    NoExcise(With(r, a));
    NoExcise(With(r, b));
  }

  lemma {:induction false} SameComponents(r: Request, a: seq<Charge>, b: seq<Charge>)
    requires multiset(a) == multiset(b) && Ready(With(r, a)) && Ready(With(r, b))
    ensures multiset(Components(With(r, a))) == multiset(Components(With(r, b)))
  {
    var ra, rb := With(r, a), With(r, b);
    SameCustoms(r, a, b);
    SameVatBase(r, a, b);
    SameRule(r, a, b, r.tariff.value, CustomsOf(ra));
    SameTax(r, a, b, r.tax.value, VatBaseOf(ra));
    JoinedPermutes(Base(ra), Base(rb), DutyComponents(ra, r.tariff.value, CustomsOf(ra)),
                   VatComponents(ra, r.tax.value, VatBaseOf(ra)));
  }

  lemma {:induction false} SameReady(r: Request, a: seq<Charge>, b: seq<Charge>)
    requires multiset(a) == multiset(b) && Ready(With(r, a))
    ensures Ready(With(r, b))
  {
    SameBlocking(r, a, b);
    SameBase(r, a, b);
    SameRule(r, a, b, r.tariff.value, 0);
  }

  lemma {:induction false} FinishedPermutes(a: seq<Component>, b: seq<Component>, customs: int)
    requires multiset(a) == multiset(b)
    ensures Finished(a, customs) == Finished(b, customs)
  {
    DistinctPermuted(a, b);
    if Distinct(a) {
      ByKindPermutes(a, b);
      TotalPermutes(a, b, InGross);
      TotalPermutes(a, b, InRecoverable);
    }
  }

  lemma {:induction false} SameAssessed(r: Request, a: seq<Charge>, b: seq<Charge>)
    requires multiset(a) == multiset(b) && Ready(With(r, a)) && Ready(With(r, b))
    ensures Assessed(With(r, a)) == Assessed(With(r, b))
  {
    SameCustoms(r, a, b);
    SameComponents(r, a, b);
    FinishedPermutes(Components(With(r, a)), Components(With(r, b)), CustomsOf(With(r, a)));
  }

  /** Listing the charges of a line in another order leaves its assessment as it is. */
  lemma {:induction false} ChargeOrderIsIrrelevant(r: Request, a: seq<Charge>, b: seq<Charge>)
    requires multiset(a) == multiset(b)
    ensures Assessed(With(r, a)) == Assessed(With(r, b))
  {
    SameBlocking(r, a, b);
    if Ready(With(r, a)) {
      SameReady(r, a, b);
      SameAssessed(r, a, b);
    } else if Ready(With(r, b)) {
      SameReady(r, b, a);
    }
  }

  function LaneKindOf(): Lane -> string {
    (lane: Lane) => lane.kind
  }

  lemma {:induction false} DistinctLanes(lanes: seq<Lane>)
    ensures (forall i, j :: 0 <= i < j < |lanes| ==> lanes[i].kind != lanes[j].kind)
            <==> AllDifferent(Mapped(LaneKindOf(), lanes))
  {
    forall k | 0 <= k < |lanes|
      ensures Mapped(LaneKindOf(), lanes)[k] == lanes[k].kind
    {
      MappedAt(LaneKindOf(), lanes, k);
    }
  }

  lemma {:induction false} SameLaneChecks(s: Shipment, lanes: seq<Lane>, lanes': seq<Lane>)
    requires multiset(lanes) == multiset(lanes')
    ensures LaneKinds(lanes) == LaneKinds(lanes')
    ensures LanesOk(s, lanes) == LanesOk(s, lanes')
    ensures Preflown(s) ==> Covers(s, lanes) == Covers(s, lanes')
  {
    SameElements(lanes, lanes');
    assert LaneKinds(lanes) == LaneKinds(lanes');
    MappedPermutes(LaneKindOf(), lanes, lanes');
    DifferentPermutes(Mapped(LaneKindOf(), lanes), Mapped(LaneKindOf(), lanes'));
    DistinctLanes(lanes);
    DistinctLanes(lanes');
    assert forall l: Line :: Covered(l, lanes, s.exemptions) == Covered(l, lanes', s.exemptions);
  }

  lemma {:induction false} SameCharged(s: Shipment, customs: seq<int>, lanes: seq<Lane>, lanes': seq<Lane>, k: nat)
    requires |customs| == |s.lines| && k < |s.lines| && multiset(lanes) == multiset(lanes')
    ensures Assessed(Charged(s, customs, lanes, k)) == Assessed(Charged(s, customs, lanes', k))
  {
    var l := s.lines[k];
    var f := ChargeOf(s, customs, l.id);
    MappedPermutes(f, lanes, lanes');
    ChargeOrderIsIrrelevant(l.request, l.request.charges + Mapped(f, lanes), l.request.charges + Mapped(f, lanes'));
  }

  /** Listing the lanes in another order changes no line's assessment, and no acceptance. */
  lemma {:induction false} LaneOrderIsIrrelevant(s: Shipment, lanes: seq<Lane>, lanes': seq<Lane>)
    requires multiset(lanes) == multiset(lanes')
    ensures Projected(s, lanes) == Projected(s, lanes')
  {
    SameLaneChecks(s, lanes, lanes');
    if LanesOk(s, lanes) && Preflown(s) && Covers(s, lanes) {
      var customs := CustomsValues(s);
      SameElements(lanes, lanes');
      forall k | 0 <= k < |s.lines|
        ensures Assessed(Charged(s, customs, lanes, k)) == Assessed(Charged(s, customs, lanes', k))
      {
        SameCharged(s, customs, lanes, lanes', k);
      }
      assert AllAssessed(s, customs, lanes) <==> AllAssessed(s, customs, lanes');
      if AllAllocate(s, customs, lanes) && AllAssessed(s, customs, lanes) {
        assert Projected(s, lanes).value.assessments == Projected(s, lanes').value.assessments;
      }
    }
  }
}
