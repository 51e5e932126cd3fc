/** Charges of a transport lane spread over the lines of one shipment, and the lines assessed with them. */
module LaneCharges {
  import opened Wrappers
  import opened Rounding
  import opened Permutations
  import Allocation
  import opened LandedCost

  type Id = Allocation.Id

  datatype Lane = Lane(
    kind: string, amount: Option<real>, rate: Option<real>, currency: string, minimum: Option<real>, maximum: Option<real>,
    customs: bool, perShipment: bool)

  /** A line with what its source records resolve to; a physical measure is that of the whole quantity. */
  datatype Line = Line(id: Id, item: string, request: Request, weight: Option<real>, volume: Option<real>)

  datatype Shipment = Shipment(
    lines: seq<Line>, exemptions: set<string>, basis: Allocation.Basis,
    costCurrency: string, quotes: map<(string, string), real>, scale: nat, mode: Mode)

  /** Either nothing is allocated, or every line is assessed with its part of every lane charge. */
  datatype Outcome = Incomplete | Complete(assessments: seq<Assessment>)

  /** The lines share the terms of their shipment, and their charges the kinds they may have. */
  predicate Uniform(s: Shipment) {
    && s.lines != [] && s.scale <= 6
    && DifferentIds(s.lines)
    && forall k {:trigger s.lines[k]} :: 0 <= k < |s.lines| ==>
         var r := s.lines[k].request;
         r.costCurrency == s.costCurrency && r.quotes == s.quotes && r.scale == s.scale && r.mode == s.mode
  }

  function Kinds(charges: seq<Charge>): set<string> {
    set c | c in charges :: c.kind
  }

  function LaneKinds(lanes: seq<Lane>): set<string> {
    set l | l in lanes :: l.kind
  }

  // One lane.

  predicate BoundsOk(lane: Lane) {
    && (lane.minimum.Some? ==> lane.minimum.value >= 0.0) && (lane.maximum.Some? ==> lane.maximum.value >= 0.0)
    && (lane.minimum.Some? && lane.maximum.Some? ==> lane.minimum.value <= lane.maximum.value)
  }

  function Exchange(s: Shipment, amount: real, currency: string): Option<int> {
    if amount < 0.0 then None
    else if currency == s.costCurrency then Some(Money(amount, s.scale, s.mode))
    else if (currency, s.costCurrency) in s.quotes && s.quotes[(currency, s.costCurrency)] > 0.0 then
      Some(Money(Times(amount, s.quotes[(currency, s.costCurrency)]), s.scale, s.mode))
    else None
  }

  /** The lane's charge for the whole shipment: converted, then held between its converted bounds. */
  function LaneTotal(s: Shipment, lane: Lane): Option<int> {
    if !lane.perShipment || lane.amount.None? || lane.rate.Some? then None
    else
      match Exchange(s, lane.amount.value, lane.currency)
      case None => None
      case Some(total) =>
        var low := if lane.minimum.Some? then Exchange(s, lane.minimum.value, lane.currency) else Some(total);
        var high := if lane.maximum.Some? then Exchange(s, lane.maximum.value, lane.currency) else None;
        if low.None? || (lane.maximum.Some? && high.None?) then None
        else
          var raised := if low.value > total then low.value else total;
          Some(if high.Some? && high.value < raised then high.value else raised)
  }

  /** The lines as the allocation sees them: customs values are those before any lane charge. */
  function AllocationLines(s: Shipment, customs: seq<int>): (lines: seq<Allocation.AllocationLine>)
    requires |customs| == |s.lines|
    ensures |lines| == |s.lines|
  {
    seq(|s.lines|, k requires 0 <= k < |s.lines| =>
      var l := s.lines[k];
      Allocation.AllocationLine(l.id, l.item, Amount(customs[k], s.scale), l.request.quantity,
                                if s.basis.Weight? then l.weight else None, if s.basis.Volume? then l.volume else None))
  }

  ghost predicate Allocates(s: Shipment, customs: seq<int>, lane: Lane)
    requires |customs| == |s.lines|
  {
    && LaneTotal(s, lane).Some?
    && Allocation.Accepted(Amount(LaneTotal(s, lane).value, s.scale), AllocationLines(s, customs), s.basis, s.scale)
  }

  /** The lane's charge of each line, in units. */
  ghost function Parts(s: Shipment, customs: seq<int>, lane: Lane): map<Id, int>
    requires |customs| == |s.lines| && Allocates(s, customs, lane)
  {
    var lines, total := AllocationLines(s, customs), Amount(LaneTotal(s, lane).value, s.scale);
    Allocation.AcceptedIsAllocatable(total, lines, s.basis, s.scale);
    Allocation.Shares(Allocation.Factors(lines, s.basis), Money(total, s.scale, HalfUp))
  }

  function LaneCharge(s: Shipment, lane: Lane, units: int): Charge {
    Charge(lane.kind, Amount(units, s.scale), s.costCurrency, lane.customs, true, false)
  }

  ghost function PartOf(s: Shipment, customs: seq<int>, lane: Lane, id: Id): int
    requires |customs| == |s.lines|
  {
    if Allocates(s, customs, lane) && id in Parts(s, customs, lane) then Parts(s, customs, lane)[id] else 0
  }

  ghost function ChargeOf(s: Shipment, customs: seq<int>, id: Id): Lane -> Charge
    requires |customs| == |s.lines|
  {
    lane => LaneCharge(s, lane, PartOf(s, customs, lane, id))
  }

  /** A line's request with its part of each lane charge behind its own charges. */
  ghost function Charged(s: Shipment, customs: seq<int>, lanes: seq<Lane>, k: nat): Request
    requires |customs| == |s.lines| && k < |s.lines|
  {
    var l := s.lines[k];
    l.request.(charges := l.request.charges + Mapped(ChargeOf(s, customs, l.id), lanes))
  }

  /** The parts of a lane charge add up to the charge, whatever was allocated before. */
  lemma {:induction false} PartsAddUp(s: Shipment, customs: seq<int>, lane: Lane)
    requires |customs| == |s.lines| && Allocates(s, customs, lane)
    ensures Allocation.Units(Parts(s, customs, lane).Keys, Parts(s, customs, lane)) == LaneTotal(s, lane).value
    ensures forall k :: 0 <= k < |s.lines| ==> s.lines[k].id in Parts(s, customs, lane)
  {
    var lines, total := AllocationLines(s, customs), Amount(LaneTotal(s, lane).value, s.scale);
    Allocation.AcceptedIsAllocatable(total, lines, s.basis, s.scale);
    var factors := Allocation.Factors(lines, s.basis);
    MoneyKeepsUnits(LaneTotal(s, lane).value, s.scale, HalfUp);
    Allocation.SharesAddUp(factors, Money(total, s.scale, HalfUp));
    Allocation.FactorsKeys(lines, s.basis);
    assert Parts(s, customs, lane).Keys == factors.Keys;
    forall k | 0 <= k < |s.lines|
      ensures s.lines[k].id in factors
    {
      assert lines[k] in lines && lines[k].id == s.lines[k].id;
    }
  }

  // The whole shipment.

  function Covered(l: Line, lanes: seq<Lane>, exemptions: set<string>): set<string> {
    LaneKinds(lanes) + Kinds(l.request.charges) + exemptions
  }

  /** What is refused before anything is assessed. */
  predicate LanesOk(s: Shipment, lanes: seq<Lane>) {
    && (forall i, j :: 0 <= i < j < |lanes| ==> lanes[i].kind != lanes[j].kind)
    && (forall l :: l in s.lines ==> LaneKinds(lanes) !! Kinds(l.request.charges))
    && (forall lane :: lane in lanes ==> BoundsOk(lane))
    && s.exemptions !! LaneKinds(lanes)
  }

  predicate Preflown(s: Shipment) {
    forall l :: l in s.lines ==> Assessed(l.request).Some?
  }

  /** Every line can be assessed and every kind of charge is covered. */
  predicate Covers(s: Shipment, lanes: seq<Lane>)
    requires Preflown(s)
  {
    && lanes != []
    && (forall l :: l in s.lines ==> Covered(l, lanes, s.exemptions) == INPUT_CHARGE_TYPES)
    && (forall l :: l in s.lines ==> Assessed(l.request).value.Calculable?)
  }

  function CustomsValues(s: Shipment): (customs: seq<int>)
    requires Preflown(s)
    ensures |customs| == |s.lines|
  {
    seq(|s.lines|, k requires 0 <= k < |s.lines| =>
      match Assessed(s.lines[k].request).value
      case Calculable(_, customs, _, _, _) => customs
      case Blocked(_) => 0)
  }

  ghost predicate AllAllocate(s: Shipment, customs: seq<int>, lanes: seq<Lane>)
    requires |customs| == |s.lines|
  {
    forall lane :: lane in lanes ==> Allocates(s, customs, lane)
  }

  ghost predicate AllAssessed(s: Shipment, customs: seq<int>, lanes: seq<Lane>)
    requires |customs| == |s.lines|
  {
    forall k {:trigger s.lines[k]} :: 0 <= k < |s.lines| ==> Assessed(Charged(s, customs, lanes, k)).Some?
  }

  ghost function Projected(s: Shipment, lanes: seq<Lane>): Option<Outcome> {
    if !LanesOk(s, lanes) || !Preflown(s) then None
    else if !Covers(s, lanes) then Some(Incomplete)
    else
      var customs := CustomsValues(s);
      if AllAllocate(s, customs, lanes) && AllAssessed(s, customs, lanes) then
        Some(Complete(seq(|s.lines|, k requires 0 <= k < |s.lines| && AllAssessed(s, customs, lanes) =>
          assert s.lines[k] == s.lines[k]; Assessed(Charged(s, customs, lanes, k)).value)))
      else None
  }

  // What an assessment shows of a charge.

  lemma {:induction false} ByKindHolds(cs: seq<Component>)
    requires Distinct(cs)
    ensures forall c :: c in cs ==> c.kind in ByKind(cs) && ByKind(cs)[c.kind] == c
    ensures forall kind :: kind in ByKind(cs) ==> ByKind(cs)[kind] in cs && ByKind(cs)[kind].kind == kind
  {
    if cs != [] {
      var before, last := cs[..|cs| - 1], cs[|cs| - 1];
      assert cs == before + [last];
      ByKindHolds(before);
      forall c | c in before
        ensures c.kind != last.kind
      {
        var k :| 0 <= k < |before| && before[k] == c;
        assert cs[k].kind != cs[|cs| - 1].kind;
      }
    }
  }

  lemma {:induction false} ChargeIsThere(r: Request, charges: seq<Charge>, c: Charge)
    requires c in charges && forall d :: d in charges ==> ChargeOk(r, d)
    ensures ChargeComponent(r, c) in ChargeComponents(r, charges)
  {
    var before, last := charges[..|charges| - 1], charges[|charges| - 1];
    assert charges == before + [last];
    if c != last {
      ChargeIsThere(r, before, c);
    }
  }

  lemma AssessedShowsCharge(r: Request, c: Charge)
    requires Assessed(r).Some? && Assessed(r).value.Calculable? && c in r.charges
    ensures ChargeOk(r, c) && c.kind in Assessed(r).value.components
    ensures Assessed(r).value.components[c.kind] == ChargeComponent(r, c)
  {
    ChargeIsThere(r, r.charges, c);
    ByKindHolds(Components(r));
  }

  /** A part of a lane charge is in the cost currency and rounded already: it is charged as it is. */
  lemma PartIsChargedExactly(r: Request, s: Shipment, lane: Lane, units: nat)
    requires r.costCurrency == s.costCurrency && r.scale == s.scale
    requires ChargeOk(r, LaneCharge(s, lane, units))
    ensures ChargeComponent(r, LaneCharge(s, lane, units)) == Component(lane.kind, units, lane.customs, true, false)
  {
    MoneyKeepsUnits(units, s.scale, r.mode);
  }

  lemma {:induction false} LaneIsCharged(s: Shipment, customs: seq<int>, lanes: seq<Lane>, k: nat, j: nat)
    requires |customs| == |s.lines| && k < |s.lines| && j < |lanes|
    ensures LaneCharge(s, lanes[j], PartOf(s, customs, lanes[j], s.lines[k].id)) in Charged(s, customs, lanes, k).charges
  {
    var f := ChargeOf(s, customs, s.lines[k].id);
    MappedAt(f, lanes, j);
    assert Mapped(f, lanes)[j] in Mapped(f, lanes);
  }

  lemma {:induction false} PartNotNegative(s: Shipment, customs: seq<int>, lane: Lane, id: Id)
    requires |customs| == |s.lines|
    ensures PartOf(s, customs, lane, id) >= 0
  {
    if Allocates(s, customs, lane) && id in Parts(s, customs, lane) {
      var lines, total := AllocationLines(s, customs), Amount(LaneTotal(s, lane).value, s.scale);
      Allocation.AcceptedIsAllocatable(total, lines, s.basis, s.scale);
      Allocation.ShareIsClose(Allocation.Factors(lines, s.basis), Money(total, s.scale, HalfUp), id);
    }
  }

  /** A lane charge is in the cost currency, so it blocks nothing. */
  lemma {:induction false} StillUnblocked(s: Shipment, customs: seq<int>, lanes: seq<Lane>, k: nat)
    requires |customs| == |s.lines| && k < |s.lines| && s.lines[k].request.costCurrency == s.costCurrency
    requires Blocking(s.lines[k].request).None?
    ensures Blocking(Charged(s, customs, lanes, k)).None?
  {
    var f := ChargeOf(s, customs, s.lines[k].id);
    var r, r' := s.lines[k].request, Charged(s, customs, lanes, k);
    forall c | c in r'.charges
      ensures Exchangeable(r', c.currency)
    {
      if c in r.charges {
        assert Exchangeable(r, c.currency);
      } else {
        assert c in Mapped(f, lanes);
        var j :| 0 <= j < |lanes| && Mapped(f, lanes)[j] == c;
        MappedAt(f, lanes, j);
      }
    }
  }

  /** In a complete outcome, each line shows exactly its part of each lane charge. */
  lemma {:induction false} LineShowsPart(s: Shipment, lanes: seq<Lane>, k: nat, j: nat)
    requires Uniform(s) && Projected(s, lanes).Some? && Projected(s, lanes).value.Complete?
    requires k < |s.lines| && j < |lanes|
    ensures var assessment := Projected(s, lanes).value.assessments[k];
            && assessment.Calculable?
            && lanes[j].kind in assessment.components
            && assessment.components[lanes[j].kind] ==
                 Component(lanes[j].kind, PartOf(s, CustomsValues(s), lanes[j], s.lines[k].id), lanes[j].customs, true, false)
  {
    var customs := CustomsValues(s);
    var r := Charged(s, customs, lanes, k);
    assert s.lines[k].request.costCurrency == s.costCurrency;
    assert Assessed(r).Some?;
    StillUnblocked(s, customs, lanes, k);
    var units := PartOf(s, customs, lanes[j], s.lines[k].id);
    LaneIsCharged(s, customs, lanes, k, j);
    AssessedShowsCharge(r, LaneCharge(s, lanes[j], units));
    PartNotNegative(s, customs, lanes[j], s.lines[k].id);
    PartIsChargedExactly(r, s, lanes[j], units);
  }

  /** What all lines together are charged under one type. */
  function KindUnits(assessments: seq<Assessment>, kind: string): int {
    if assessments == [] then 0
    else
      var last := assessments[|assessments| - 1];
      KindUnits(assessments[..|assessments| - 1], kind)
      + if last.Calculable? && kind in last.components then last.components[kind].units else 0
  }

  function LineIds(lines: seq<Line>): set<Id> {
    set l | l in lines :: l.id
  }

  predicate ShowsPart(l: Line, parts: map<Id, int>, assessment: Assessment, kind: string) {
    && l.id in parts && assessment.Calculable? && kind in assessment.components
    && assessment.components[kind].units == parts[l.id]
  }

  predicate DifferentIds(lines: seq<Line>) {
    forall j, k {:trigger lines[j], lines[k]} :: 0 <= j < k < |lines| ==> lines[j].id != lines[k].id
  }

  lemma {:induction false} KindUnitsAreParts(lines: seq<Line>, parts: map<Id, int>, assessments: seq<Assessment>, kind: string)
    requires |assessments| == |lines| && DifferentIds(lines)
    requires forall k {:trigger lines[k]} :: 0 <= k < |lines| ==> ShowsPart(lines[k], parts, assessments[k], kind)
    ensures LineIds(lines) <= parts.Keys
    ensures KindUnits(assessments, kind) == Allocation.Units(LineIds(lines), parts)
  {
    if lines != [] {
      var n := |lines| - 1;
      assert ShowsPart(lines[n], parts, assessments[n], kind);
      NewLineId(lines, n);
      KindUnitsAreParts(lines[..n], parts, assessments[..n], kind);
      LastLineId(lines);
      Allocation.UnitsPick(LineIds(lines), parts, lines[n].id);
    }
  }

  lemma LastLineId(lines: seq<Line>)
    requires lines != [] && lines[|lines| - 1].id !in LineIds(lines[..|lines| - 1])
    ensures LineIds(lines) == LineIds(lines[..|lines| - 1]) + {lines[|lines| - 1].id}
    ensures LineIds(lines) - {lines[|lines| - 1].id} == LineIds(lines[..|lines| - 1])
  {
    assert lines == lines[..|lines| - 1] + [lines[|lines| - 1]];
  }

  lemma NewLineId(lines: seq<Line>, n: nat)
    requires n < |lines| && DifferentIds(lines)
    ensures lines[n].id !in LineIds(lines[..n])
  {
    forall l | l in lines[..n]
      ensures l.id != lines[n].id
    {
      var k :| 0 <= k < n && lines[k] == l;
    }
  }

  /** Over all lines, each lane charge is exactly its converted and bounded amount. */
  lemma {:induction false} LaneIsDistributed(s: Shipment, lanes: seq<Lane>, j: nat)
    requires Uniform(s) && Projected(s, lanes).Some? && Projected(s, lanes).value.Complete? && j < |lanes|
    ensures LaneTotal(s, lanes[j]) == Some(KindUnits(Projected(s, lanes).value.assessments, lanes[j].kind))
  {
    var customs, assessments := CustomsValues(s), Projected(s, lanes).value.assessments;
    assert Allocates(s, customs, lanes[j]);
    var parts := Parts(s, customs, lanes[j]);
    PartsAddUp(s, customs, lanes[j]);
    forall k | 0 <= k < |s.lines|
      ensures ShowsPart(s.lines[k], parts, assessments[k], lanes[j].kind)
    {
      LineShowsPart(s, lanes, k, j);
    }
    KindUnitsAreParts(s.lines, parts, assessments, lanes[j].kind);
    PartKeys(s, customs, lanes[j]);
  }

  lemma {:induction false} PartKeys(s: Shipment, customs: seq<int>, lane: Lane)
    requires |customs| == |s.lines| && Allocates(s, customs, lane)
    ensures Parts(s, customs, lane).Keys == LineIds(s.lines)
  {
    var lines := AllocationLines(s, customs);
    Allocation.FactorsKeys(lines, s.basis);
    forall x | x in Allocation.Ids(lines)
      ensures x in LineIds(s.lines)
    {
      var l :| l in lines && l.id == x;
      var k :| 0 <= k < |lines| && lines[k] == l;
      assert s.lines[k] in s.lines;
    }
    forall x | x in LineIds(s.lines)
      ensures x in Allocation.Ids(lines)
    {
      var l :| l in s.lines && l.id == x;
      var k :| 0 <= k < |s.lines| && s.lines[k] == l;
      assert lines[k] in lines;
    }
  }

  // The calculation, lane by lane.

  ghost predicate ChargedWith(s: Shipment, customs: seq<int>, lanes: seq<Lane>, requests: seq<Request>)
    requires |customs| == |s.lines|
  {
    && |requests| == |s.lines| && AllAllocate(s, customs, lanes)
    && forall k {:trigger requests[k]} :: 0 <= k < |s.lines| ==> requests[k] == Charged(s, customs, lanes, k)
  }

  lemma {:induction false} ChargedNext(s: Shipment, customs: seq<int>, lanes: seq<Lane>, n: nat, k: nat)
    requires |customs| == |s.lines| && n < |lanes| && k < |s.lines|
    ensures Charged(s, customs, lanes[..n + 1], k) ==
              Charged(s, customs, lanes[..n], k).(charges :=
                Charged(s, customs, lanes[..n], k).charges
                + [LaneCharge(s, lanes[n], PartOf(s, customs, lanes[n], s.lines[k].id))])
  {
    var f := ChargeOf(s, customs, s.lines[k].id);
    assert lanes[..n + 1][..n] == lanes[..n];
    assert Mapped(f, lanes[..n + 1]) == Mapped(f, lanes[..n]) + [f(lanes[n])];
  }

  lemma {:induction false} NoLanesYet(s: Shipment, customs: seq<int>, k: nat)
    requires |customs| == |s.lines| && k < |s.lines|
    ensures Charged(s, customs, [], k) == s.lines[k].request
  {
    assert s.lines[k].request.charges + [] == s.lines[k].request.charges;
  }

  /** Allocates one lane charge and puts a part of it behind the charges of every line. */
  method ChargeLane(s: Shipment, customs: seq<int>, lane: Lane, requests: seq<Request>, ghost lanes: seq<Lane>, ghost n: nat)
    returns (ok: bool, charged: seq<Request>)
    requires |customs| == |s.lines| && n < |lanes| && lane == lanes[n] && ChargedWith(s, customs, lanes[..n], requests)
    ensures ok <==> Allocates(s, customs, lane)
    ensures ok ==> ChargedWith(s, customs, lanes[..n + 1], charged)
  {
    charged := requests;
    var total := LaneTotal(s, lane);
    if total.None? {
      return false, charged;
    }
    var shares := Allocation.AllocateFixedCharge(Amount(total.value, s.scale), AllocationLines(s, customs), s.basis, s.scale);
    if shares.Err? {
      return false, charged;
    }
    PartsAddUp(s, customs, lane);
    charged := AddParts(s, lane, requests, shares.value);
    PartsAreAdded(s, customs, lanes, n, requests, charged);
    return true, charged;
  }

  method AddParts(s: Shipment, lane: Lane, requests: seq<Request>, parts: map<Id, int>) returns (charged: seq<Request>)
    requires |requests| == |s.lines| && forall k :: 0 <= k < |s.lines| ==> s.lines[k].id in parts
    ensures |charged| == |requests|
    ensures forall k {:trigger charged[k]} :: 0 <= k < |s.lines| ==>
              charged[k] == requests[k].(charges := requests[k].charges + [LaneCharge(s, lane, parts[s.lines[k].id])])
  {
    charged := seq(|requests|, k requires 0 <= k < |requests| && s.lines[k].id in parts =>
      requests[k].(charges := requests[k].charges + [LaneCharge(s, lane, parts[s.lines[k].id])]));
  }

  lemma {:induction false} PartsAreAdded(s: Shipment, customs: seq<int>, lanes: seq<Lane>, n: nat, requests: seq<Request>, charged: seq<Request>)
    requires |customs| == |s.lines| && n < |lanes| && ChargedWith(s, customs, lanes[..n], requests)
    requires Allocates(s, customs, lanes[n]) && |charged| == |requests|
    requires forall k :: 0 <= k < |s.lines| ==> s.lines[k].id in Parts(s, customs, lanes[n])
    requires forall k {:trigger charged[k]} :: 0 <= k < |s.lines| ==>
               charged[k] == requests[k].(charges :=
                 requests[k].charges + [LaneCharge(s, lanes[n], Parts(s, customs, lanes[n])[s.lines[k].id])])
    ensures ChargedWith(s, customs, lanes[..n + 1], charged)
  {
    assert lanes[..n + 1] == lanes[..n] + [lanes[n]];
    forall k | 0 <= k < |s.lines|
      ensures charged[k] == Charged(s, customs, lanes[..n + 1], k)
    {
      assert requests[k] == Charged(s, customs, lanes[..n], k);
      ChargedNext(s, customs, lanes, n, k);
    }
  }

  method ChargeLanes(s: Shipment, customs: seq<int>, lanes: seq<Lane>) returns (ok: bool, requests: seq<Request>)
    requires |customs| == |s.lines|
    ensures ok <==> AllAllocate(s, customs, lanes)
    ensures ok ==> ChargedWith(s, customs, lanes, requests)
  {
    requests := seq(|s.lines|, k requires 0 <= k < |s.lines| => s.lines[k].request);
    forall k | 0 <= k < |s.lines|
      ensures requests[k] == Charged(s, customs, lanes[..0], k)
    {
      NoLanesYet(s, customs, k);
    }
    for n := 0 to |lanes|
      invariant ChargedWith(s, customs, lanes[..n], requests)
    {
      ok, requests := ChargeLane(s, customs, lanes[n], requests, lanes, n);
      if !ok {
        return false, requests;
      }
    }
    assert lanes[..|lanes|] == lanes;
    return true, requests;
  }

  method AssessAll(requests: seq<Request>) returns (r: Option<seq<Assessment>>)
    ensures r.Some? <==> forall k :: 0 <= k < |requests| ==> Assessed(requests[k]).Some?
    ensures r.Some? ==> |r.value| == |requests| && forall k :: 0 <= k < |requests| ==> Some(r.value[k]) == Assessed(requests[k])
  {
    var assessments := [];
    for n := 0 to |requests|
      invariant |assessments| == n
      invariant forall k :: 0 <= k < n ==> Some(assessments[k]) == Assessed(requests[k])
    {
      var assessment := CalculateLandedCost(requests[n]);
      if assessment.None? {
        return None;
      }
      assessments := assessments + [assessment.value];
    }
    return Some(assessments);
  }

  method CalculateShipment(s: Shipment, lanes: seq<Lane>) returns (r: Option<Outcome>)
    ensures r == Projected(s, lanes)
  {
    if !LanesOk(s, lanes) {
      return None;
    }
    var requests := seq(|s.lines|, k requires 0 <= k < |s.lines| => s.lines[k].request);
    var preflight := AssessAll(requests);
    PreflownAll(s, requests);
    if preflight.None? {
      return None;
    }
    if !Covers(s, lanes) {
      return Some(Incomplete);
    }
    r := ChargeAndAssess(s, lanes);
  }

  lemma PreflownAll(s: Shipment, requests: seq<Request>)
    requires |requests| == |s.lines| && forall k :: 0 <= k < |s.lines| ==> requests[k] == s.lines[k].request
    ensures Preflown(s) <==> forall k :: 0 <= k < |requests| ==> Assessed(requests[k]).Some?
  {
    forall l | l in s.lines
      ensures exists k :: 0 <= k < |requests| && requests[k] == l.request
    {
      var k :| 0 <= k < |s.lines| && s.lines[k] == l;
      assert requests[k] == l.request;
    }
    forall k | 0 <= k < |requests|
      ensures s.lines[k] in s.lines && requests[k] == s.lines[k].request
    {
    }
  }

  /** Lane charges are allocated by the customs values of the first assessment, never by later ones. */
  method ChargeAndAssess(s: Shipment, lanes: seq<Lane>) returns (r: Option<Outcome>)
    requires LanesOk(s, lanes) && Preflown(s) && Covers(s, lanes)
    ensures r == Projected(s, lanes)
  {
    var customs := CustomsValues(s);
    var ok, requests := ChargeLanes(s, customs, lanes);
    if !ok {
      return None;
    }
    var assessments := AssessAll(requests);
    AssessedIsCharged(s, customs, lanes, requests);
    if assessments.None? {
      return None;
    }
    assert assessments.value == Projected(s, lanes).value.assessments;
    return Some(Complete(assessments.value));
  }

  lemma {:induction false} AssessedIsCharged(s: Shipment, customs: seq<int>, lanes: seq<Lane>, requests: seq<Request>)
    requires |customs| == |s.lines| && ChargedWith(s, customs, lanes, requests)
    ensures AllAssessed(s, customs, lanes) <==> forall k :: 0 <= k < |requests| ==> Assessed(requests[k]).Some?
    ensures forall k {:trigger requests[k]} :: 0 <= k < |requests| ==> requests[k] == Charged(s, customs, lanes, k)
  {
    if forall k :: 0 <= k < |requests| ==> Assessed(requests[k]).Some? {
      forall k | 0 <= k < |s.lines|
        ensures Assessed(Charged(s, customs, lanes, k)).Some?
      {
        assert requests[k] == Charged(s, customs, lanes, k);
      }
    }
    if AllAssessed(s, customs, lanes) {
      forall k | 0 <= k < |requests|
        ensures Assessed(requests[k]).Some?
      {
        assert s.lines[k] == s.lines[k];
      }
    }
  }
}
