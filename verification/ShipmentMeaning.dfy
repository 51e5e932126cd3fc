/** Which shipments are allocated: the conditions a caller can check, for all lanes and lines together. */
module ShipmentMeaning {
  import opened Wrappers
  import opened Rounding
  import opened Permutations
  import Allocation
  import opened LandedCost
  import opened LaneCharges
  import opened CostMeaning

  predicate LaneIsUsable(s: Shipment, lane: Lane) {
    && BoundsOk(lane) && lane.perShipment && lane.amount.Some? && lane.amount.value >= 0.0 && lane.rate.None?
    && (lane.currency == s.costCurrency
        || ((lane.currency, s.costCurrency) in s.quotes && s.quotes[(lane.currency, s.costCurrency)] > 0.0))
  }

  /** No lane repeats another lane, an exemption or a line's own charge. */
  predicate Apart(s: Shipment, lanes: seq<Lane>) {
    && (forall i, j :: 0 <= i < j < |lanes| ==> lanes[i].kind != lanes[j].kind)
    && (forall lane :: lane in lanes ==> lane.kind !in s.exemptions)
    && (forall lane, l, c :: lane in lanes && l in s.lines && c in l.request.charges ==> c.kind != lane.kind)
  }

  predicate AllCalculable(s: Shipment) {
    forall l :: l in s.lines ==> Assessed(l.request).Some? && Assessed(l.request).value.Calculable?
  }

  ghost predicate AllCovered(s: Shipment, lanes: seq<Lane>) {
    forall l, kind :: l in s.lines ==> (HasKind(s, lanes, l, kind) <==> kind in INPUT_CHARGE_TYPES)
  }

  predicate AllMeasurable(s: Shipment) {
    forall l :: l in s.lines ==> Measure(s, l).Some? && Measure(s, l).value >= 0.0
  }

  lemma {:induction false} CoveredLine(s: Shipment, lanes: seq<Lane>, l: Line)
    ensures Covered(l, lanes, s.exemptions) == INPUT_CHARGE_TYPES <==>
              forall kind :: HasKind(s, lanes, l, kind) <==> kind in INPUT_CHARGE_TYPES
  {
    forall kind
      ensures kind in Covered(l, lanes, s.exemptions) <==> HasKind(s, lanes, l, kind)
    {
      CoveredIs(l, lanes, s.exemptions, kind);
    }
  }

  lemma {:induction false} CoversAre(s: Shipment, lanes: seq<Lane>)
    requires Preflown(s)
    ensures Covers(s, lanes) <==> lanes != [] && AllCalculable(s) && AllCovered(s, lanes)
  {
    forall l | l in s.lines
      ensures Covered(l, lanes, s.exemptions) == INPUT_CHARGE_TYPES <==>
                forall kind :: HasKind(s, lanes, l, kind) <==> kind in INPUT_CHARGE_TYPES
    {
      CoveredLine(s, lanes, l);
    }
  }

  lemma {:induction false} LanesOkAre(s: Shipment, lanes: seq<Lane>)
    ensures LanesOk(s, lanes) <==> Apart(s, lanes) && forall lane :: lane in lanes ==> BoundsOk(lane)
  {
    forall lane | lane in lanes
      ensures lane.kind in LaneKinds(lanes)
    {
    }
    forall l, c | l in s.lines && c in l.request.charges
      ensures c.kind in Kinds(l.request.charges)
    {
    }
  }

  // The allocation of one lane.

  lemma {:induction false} MeasuredLine(s: Shipment, customs: seq<int>, k: nat)
    requires |customs| == |s.lines| && k < |s.lines|
    requires s.basis.CustomsValue? ==> Measure(s, s.lines[k]) == Some(Amount(customs[k], s.scale))
    ensures Allocation.Measured(AllocationLines(s, customs)[k], s.basis) <==>
              Measure(s, s.lines[k]).Some? && Measure(s, s.lines[k]).value >= 0.0
  {
  }

  lemma {:induction false} CustomsMeasure(s: Shipment, k: nat)
    requires Preflown(s) && AllCalculable(s) && k < |s.lines| && s.basis.CustomsValue?
    ensures Measure(s, s.lines[k]) == Some(Amount(CustomsValues(s)[k], s.scale))
  {
    assert s.lines[k] in s.lines;
  }

  lemma {:induction false} MeasuredAre(s: Shipment)
    requires Preflown(s) && AllCalculable(s)
    ensures Allocation.AllMeasured(AllocationLines(s, CustomsValues(s)), s.basis) <==> AllMeasurable(s)
  {
    var lines := AllocationLines(s, CustomsValues(s));
    forall k | 0 <= k < |s.lines|
      ensures Allocation.Measured(lines[k], s.basis) <==> Measure(s, s.lines[k]).Some? && Measure(s, s.lines[k]).value >= 0.0
    {
      if s.basis.CustomsValue? {
        CustomsMeasure(s, k);
      }
      MeasuredLine(s, CustomsValues(s), k);
    }
    if Allocation.AllMeasured(lines, s.basis) {
      forall l | l in s.lines
        ensures Measure(s, l).Some? && Measure(s, l).value >= 0.0
      {
        var k :| 0 <= k < |s.lines| && s.lines[k] == l;
        assert Allocation.Measured(lines[k], s.basis);
      }
    }
    if AllMeasurable(s) {
      forall k | 0 <= k < |lines|
        ensures Allocation.Measured(lines[k], s.basis)
      {
        assert s.lines[k] in s.lines;
      }
    }
  }

  /** The measures of the lines, as a caller knows them. */
  ghost predicate AreMeasures(s: Shipment, measures: map<Id, real>) {
    && measures.Keys == LineIds(s.lines)
    && forall l :: l in s.lines && Measure(s, l).Some? ==> measures[l.id] == Measure(s, l).value
  }

  lemma {:induction false} SameIds(s: Shipment, customs: seq<int>)
    requires |customs| == |s.lines| && DifferentIds(s.lines)
    ensures Allocation.DistinctIds(AllocationLines(s, customs))
  {
    var lines := AllocationLines(s, customs);
    forall j, k | 0 <= j < k < |lines|
      ensures lines[j].id != lines[k].id
    {
      assert s.lines[j].id != s.lines[k].id;
    }
  }

  lemma {:induction false} FactorsAre(s: Shipment, measures: map<Id, real>)
    requires DifferentIds(s.lines) && Preflown(s) && AllCalculable(s) && AllMeasurable(s) && AreMeasures(s, measures)
    ensures var lines := AllocationLines(s, CustomsValues(s));
            Allocation.AllMeasured(lines, s.basis) && Allocation.Factors(lines, s.basis) == measures
  {
    MeasuredAre(s);
    SameIds(s, CustomsValues(s));
    forall k | 0 <= k < |s.lines|
      ensures s.lines[k].id in measures && Measure(s, s.lines[k]) == Some(measures[s.lines[k].id])
      ensures s.basis.CustomsValue? ==> measures[s.lines[k].id] == Amount(CustomsValues(s)[k], s.scale)
    {
      assert s.lines[k] in s.lines && s.lines[k].id in LineIds(s.lines);
      if s.basis.CustomsValue? {
        CustomsMeasure(s, k);
      }
    }
    MeasuresAre(s, CustomsValues(s), measures);
  }

  lemma TotalNotBelowZero(s: Shipment, lane: Lane)
    requires LaneTotal(s, lane).Some?
    ensures LaneTotal(s, lane).value >= 0 && Amount(LaneTotal(s, lane).value, s.scale) >= 0.0
  {
    LaneTotalHeld(s, lane);
    ExchangeNotNegative(s, lane.amount.value, lane.currency);
    if lane.minimum.Some? {
      ExchangeNotNegative(s, lane.minimum.value, lane.currency);
    }
    if lane.maximum.Some? {
      ExchangeNotNegative(s, lane.maximum.value, lane.currency);
    }
    ZeroAmount(s.scale);
    AmountIsMonotone(0, LaneTotal(s, lane).value, s.scale);
  }

  lemma ExchangeNotNegative(s: Shipment, amount: real, currency: string)
    requires Exchange(s, amount, currency).Some?
    ensures Exchange(s, amount, currency).value >= 0
  {
    ExchangeIs(s, amount, currency);
    var rate := LaneRate(s, currency);
    assert Times(amount, rate) >= 0.0;
    MoneyNotNegative(Times(amount, rate), s.scale, s.mode);
  }

  lemma {:induction false} AllocatesAre(s: Shipment, lane: Lane, measures: map<Id, real>)
    requires Uniform(s) && Preflown(s) && AllCalculable(s) && AreMeasures(s, measures) && BoundsOk(lane)
    ensures Allocates(s, CustomsValues(s), lane) <==>
              LaneIsUsable(s, lane) && AllMeasurable(s) && Allocation.Sum(measures.Keys, measures) > 0.0
  {
    LaneTotalAccepts(s, lane);
    MeasuredAre(s);
    SameIds(s, CustomsValues(s));
    if AllMeasurable(s) {
      FactorsAre(s, measures);
    }
    if LaneTotal(s, lane).Some? {
      TotalNotBelowZero(s, lane);
    }
  }

  // The lines with their parts.

  lemma {:induction false} ChargedCharges(s: Shipment, customs: seq<int>, lanes: seq<Lane>, k: nat)
    requires |customs| == |s.lines| && k < |s.lines|
    ensures var own, all, id := s.lines[k].request.charges, Charged(s, customs, lanes, k).charges, s.lines[k].id;
            && |all| == |own| + |lanes| && (forall n :: 0 <= n < |own| ==> all[n] == own[n])
            && forall n :: 0 <= n < |lanes| ==> all[|own| + n] == LaneCharge(s, lanes[n], PartOf(s, customs, lanes[n], id))
  {
    forall n | 0 <= n < |lanes|
      ensures |Mapped(ChargeOf(s, customs, s.lines[k].id), lanes)| == |lanes|
      ensures Mapped(ChargeOf(s, customs, s.lines[k].id), lanes)[n] ==
                LaneCharge(s, lanes[n], PartOf(s, customs, lanes[n], s.lines[k].id))
    {
      MappedAt(ChargeOf(s, customs, s.lines[k].id), lanes, n);
    }
  }

  lemma LaneChargeIsUsable(s: Shipment, customs: seq<int>, lane: Lane, id: Id, r: Request)
    requires |customs| == |s.lines| && r.costCurrency == s.costCurrency && lane.kind in INPUT_CHARGE_TYPES
    ensures ChargeIsUsable(r, LaneCharge(s, lane, PartOf(s, customs, lane, id)))
  {
    PartNotNegative(s, customs, lane, id);
    ZeroAmount(s.scale);
    AmountIsMonotone(0, PartOf(s, customs, lane, id), s.scale);
  }

  /** Other charges that can be exchanged and do not repeat a kind leave a line calculable. */
  lemma WithOtherCharges(own: Request, charges: seq<Charge>)
    requires Assessed(own).Some? && Assessed(own).value.Calculable?
    requires forall c :: c in charges ==> ChargeIsUsable(own, c)
    requires forall i, j :: 0 <= i < j < |charges| ==> charges[i].kind != charges[j].kind
    ensures Assessed(own.(charges := charges)).Some?
  {
    var r := own.(charges := charges);
    CalculatedAccepts(own);
    CalculatedAccepts(r);
    assert RuleIsUsable(own, own.tariff.value) && RuleIsUsable(r, r.tariff.value);
    forall c | c in charges
      ensures ChargeIsUsable(r, c)
    {
      assert ChargeIsUsable(own, c);
    }
  }

  lemma {:induction false} ChargedAreUsable(s: Shipment, customs: seq<int>, lanes: seq<Lane>, k: nat)
    requires |customs| == |s.lines| && k < |s.lines| && s.lines[k].request.costCurrency == s.costCurrency
    requires forall c :: c in s.lines[k].request.charges ==> ChargeIsUsable(s.lines[k].request, c)
    requires forall lane :: lane in lanes ==> lane.kind in INPUT_CHARGE_TYPES
    ensures forall c :: c in Charged(s, customs, lanes, k).charges ==> ChargeIsUsable(s.lines[k].request, c)
  {
    var own, all := s.lines[k].request, Charged(s, customs, lanes, k).charges;
    ChargedCharges(s, customs, lanes, k);
    forall c | c in all
      ensures ChargeIsUsable(own, c)
    {
      var n :| 0 <= n < |all| && all[n] == c;
      if n < |own.charges| {
        assert own.charges[n] in own.charges;
      } else {
        LaneChargeIsUsable(s, customs, lanes[n - |own.charges|], s.lines[k].id, own);
      }
    }
  }

  lemma {:induction false} ChargedAreApart(s: Shipment, customs: seq<int>, lanes: seq<Lane>, k: nat)
    requires |customs| == |s.lines| && k < |s.lines| && Apart(s, lanes)
    requires var own := s.lines[k].request.charges; forall i, j :: 0 <= i < j < |own| ==> own[i].kind != own[j].kind
    ensures var all := Charged(s, customs, lanes, k).charges; forall i, j :: 0 <= i < j < |all| ==> all[i].kind != all[j].kind
  {
    var own, all := s.lines[k].request.charges, Charged(s, customs, lanes, k).charges;
    ChargedCharges(s, customs, lanes, k);
    forall i, j | 0 <= i < j < |all|
      ensures all[i].kind != all[j].kind
    {
      if i < |own| <= j {
        assert lanes[j - |own|] in lanes && s.lines[k] in s.lines && own[i] in own;
      } else if |own| <= i {
        assert lanes[i - |own|].kind != lanes[j - |own|].kind;
      }
    }
  }

  /** A line that can be calculated can still be calculated with its parts of lanes of other kinds. */
  lemma {:induction false} StillCalculable(s: Shipment, customs: seq<int>, lanes: seq<Lane>, k: nat)
    requires |customs| == |s.lines| && k < |s.lines| && s.lines[k].request.costCurrency == s.costCurrency
    requires Assessed(s.lines[k].request).Some? && Assessed(s.lines[k].request).value.Calculable?
    requires Apart(s, lanes) && forall lane :: lane in lanes ==> lane.kind in INPUT_CHARGE_TYPES
    ensures Assessed(Charged(s, customs, lanes, k)).Some?
  {
    CalculatedAccepts(s.lines[k].request);
    ChargedAreUsable(s, customs, lanes, k);
    ChargedAreApart(s, customs, lanes, k);
    WithOtherCharges(s.lines[k].request, Charged(s, customs, lanes, k).charges);
  }

  lemma {:induction false} AllStillCalculable(s: Shipment, lanes: seq<Lane>)
    requires Uniform(s) && Preflown(s) && AllCalculable(s) && AllCovered(s, lanes) && Apart(s, lanes)
    ensures AllAssessed(s, CustomsValues(s), lanes)
  {
    forall lane | lane in lanes
      ensures lane.kind in INPUT_CHARGE_TYPES
    {
      assert s.lines[0] in s.lines && HasKind(s, lanes, s.lines[0], lane.kind);
    }
    forall k | 0 <= k < |s.lines|
      ensures Assessed(Charged(s, CustomsValues(s), lanes, k)).Some?
    {
      assert s.lines[k] in s.lines && s.lines[k].request.costCurrency == s.costCurrency;
      StillCalculable(s, CustomsValues(s), lanes, k);
    }
  }

  /**
   A shipment is allocated exactly when there are lanes and each can be charged, they stay apart from
   each other and from the lines' own charges, every line can be calculated and has every kind of
   charge, and the lines can be measured and measure something. Nothing else stops it later.
   */
  lemma {:induction false} ShipmentCompletes(s: Shipment, lanes: seq<Lane>, measures: map<Id, real>)
    requires Uniform(s) && AreMeasures(s, measures)
    ensures Projected(s, lanes).Some? && Projected(s, lanes).value.Complete? <==>
              && lanes != [] && Apart(s, lanes) && (forall lane :: lane in lanes ==> LaneIsUsable(s, lane))
              && AllCalculable(s) && AllCovered(s, lanes)
              && AllMeasurable(s) && Allocation.Sum(measures.Keys, measures) > 0.0
  {
    LanesOkAre(s, lanes);
    if LanesOk(s, lanes) && Preflown(s) {
      CoversAre(s, lanes);
      if Covers(s, lanes) {
        AllStillCalculable(s, lanes);
        forall lane | lane in lanes
          ensures Allocates(s, CustomsValues(s), lane) <==>
                    LaneIsUsable(s, lane) && AllMeasurable(s) && Allocation.Sum(measures.Keys, measures) > 0.0
        {
          AllocatesAre(s, lane, measures);
        }
        assert lanes[0] in lanes;
      }
    }
  }
}
