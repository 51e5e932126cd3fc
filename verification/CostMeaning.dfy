/** The amounts of an assessment and of a lane charge, each from what a caller hands in. */
module CostMeaning {
  import opened Wrappers
  import opened Decimals
  import opened Rounding
  import Allocation
  import opened LandedCost
  import opened LaneCharges

  function Rate(r: Request, currency: string): real
    requires Exchangeable(r, currency)
  {
    if currency == r.costCurrency then 1.0 else r.quotes[(currency, r.costCurrency)]
  }

  lemma SameTimesOne(x: real)
    ensures Times(x, 1.0) == x
  {
  }

  lemma ExchangedIs(r: Request, amount: real, currency: string)
    requires Exchangeable(r, currency)
    ensures Exchanged(r, amount, currency) == Times(amount, Rate(r, currency))
  {
    SameTimesOne(amount);
  }

  /** A conversion multiplies by the quoted rate and rounds once. */
  lemma ConvertedIs(r: Request, amount: real, currency: string)
    ensures Converted(r, amount, currency).Some? <==>
              amount >= 0.0 && (currency == r.costCurrency || (currency, r.costCurrency) in r.quotes)
    ensures Converted(r, amount, currency).Some? ==>
              Converted(r, amount, currency).value == Money(Times(amount, Rate(r, currency)), r.scale, r.mode)
  {
    if Converted(r, amount, currency).Some? {
      ExchangedIs(r, amount, currency);
    }
  }

  lemma ChargeComponentIs(r: Request, c: Charge)
    requires ChargeOk(r, c)
    ensures Exchangeable(r, c.currency)
    ensures ChargeComponent(r, c) ==
              Component(c.kind, Money(Times(c.amount, Rate(r, c.currency)), r.scale, r.mode), c.customs, c.gross, c.recoverable)
  {
    ConvertedIs(r, c.amount, c.currency);
  }

  lemma TransactionIs(r: Request)
    requires BaseOk(r)
    ensures Exchangeable(r, r.transactionCurrency)
    ensures Transaction(r) ==
              Component("TRANSACTION_VALUE", Money(Times(r.transactionValue, Rate(r, r.transactionCurrency)), r.scale, r.mode), true, true, false)
  {
    ConvertedIs(r, r.transactionValue, r.transactionCurrency);
  }

  lemma ShowsTransaction(r: Request)
    requires Assessed(r).Some? && Assessed(r).value.Calculable?
    ensures BaseOk(r) && "TRANSACTION_VALUE" in Assessed(r).value.components
    ensures Assessed(r).value.components["TRANSACTION_VALUE"] == Transaction(r)
  {
    var cs := Components(r);
    assert cs[0] == Transaction(r);
    assert Transaction(r) in cs;
    ByKindHolds(cs);
  }

  /** An assessment shows every charge under its type, converted, in the totals it was handed in for. */
  lemma ChargeIsShown(r: Request, c: Charge)
    requires Assessed(r).Some? && Assessed(r).value.Calculable? && c in r.charges
    ensures c.kind in Assessed(r).value.components && Exchangeable(r, c.currency)
    ensures Assessed(r).value.components[c.kind] ==
              Component(c.kind, Money(Times(c.amount, Rate(r, c.currency)), r.scale, r.mode), c.customs, c.gross, c.recoverable)
  {
    AssessedShowsCharge(r, c);
    ChargeComponentIs(r, c);
  }

  lemma TransactionIsShown(r: Request)
    requires Assessed(r).Some? && Assessed(r).value.Calculable?
    ensures "TRANSACTION_VALUE" in Assessed(r).value.components && Exchangeable(r, r.transactionCurrency)
    ensures Assessed(r).value.components["TRANSACTION_VALUE"] ==
              Component("TRANSACTION_VALUE", Money(Times(r.transactionValue, Rate(r, r.transactionCurrency)), r.scale, r.mode), true, true, false)
  {
    ShowsTransaction(r);
    TransactionIs(r);
  }

  // Duty.

  /** The duty before any bound: a rate on the customs value, a rate on the quantity, or both. */
  function ExactDuty(r: Request, rule: TariffRule, customs: int): real
    requires RuleOk(r, rule)
  {
    match rule.duty
    case AdValorem => Amount(customs, r.scale) * rule.adValoremRate.value
    case Specific => r.quantity * rule.specificRate.value
    case Compound => Amount(customs, r.scale) * rule.adValoremRate.value + r.quantity * rule.specificRate.value
  }

  lemma UnclampedIsExact(r: Request, rule: TariffRule, customs: int)
    requires RuleOk(r, rule)
    ensures Unclamped(r, rule, Amount(customs, r.scale)) == ExactDuty(r, rule, customs)
  {
  }

  /** What a value between two bounds is held to. */
  predicate HeldTo(x: real, minimum: Option<real>, maximum: Option<real>, y: real) {
    if minimum.Some? && x < minimum.value then y == minimum.value
    else if maximum.Some? && maximum.value < x then y == maximum.value
    else y == x
  }

  lemma ClampedIsHeld(x: real, minimum: Option<real>, maximum: Option<real>)
    requires minimum.Some? && maximum.Some? ==> minimum.value <= maximum.value
    ensures HeldTo(x, minimum, maximum, AtMost(AtLeast(x, minimum), maximum))
  {
  }

  /** The duty is the exact duty, held between the bounds of the rule and rounded once. */
  lemma DutyIs(r: Request, rule: TariffRule, customs: int, y: real)
    requires RuleOk(r, rule) && HeldTo(ExactDuty(r, rule, customs), rule.minimum, rule.maximum, y)
    ensures Duty(r, rule, customs) == Money(y, r.scale, r.mode)
  {
    UnclampedIsExact(r, rule, customs);
    ClampedIsHeld(ExactDuty(r, rule, customs), rule.minimum, rule.maximum);
    assert AtMost(AtLeast(ExactDuty(r, rule, customs), rule.minimum), rule.maximum) == y;
  }

  /** The duty, if there is one, is shown under a type that says how it came about. */
  lemma DutyIsShown(r: Request)
    requires Assessed(r).Some? && Assessed(r).value.Calculable? && DutyOf(r) != 0
    ensures var components, rule := Assessed(r).value.components, r.tariff.value;
            var kind := if rule.duty.Compound? || DutyOf(r) != Money(ExactDuty(r, rule, CustomsOf(r)), r.scale, r.mode) then "CUSTOMS_DUTY_OTHER"
                        else if rule.duty.AdValorem? then "CUSTOMS_DUTY_AD_VALOREM"
                        else "CUSTOMS_DUTY_SPECIFIC";
            kind in components && components[kind] == Component(kind, DutyOf(r), false, true, false)
  {
    var rule := r.tariff.value;
    var cs, duties := Components(r), DutyComponents(r, rule, CustomsOf(r));
    assert cs[|Base(r)|] == duties[0];
    assert duties[0] in cs;
    ByKindHolds(cs);
    UnclampedIsExact(r, rule, CustomsOf(r));
  }

  // Tax.

  lemma VatOfBase(r: Request, tax: TaxProfile, base: int)
    ensures Vat(r, tax, base) == Money(Times(Amount(base, r.scale), tax.rate), r.scale, r.mode)
  {
  }

  /** Tax is the rate on the customs value, and on the duty if the profile says so, rounded once. */
  lemma VatIs(r: Request)
    requires Ready(r)
    ensures var base := CustomsOf(r) + if r.tax.value.includeDuty then DutyOf(r) else 0;
            VatOf(r) == Vat(r, r.tax.value, base)
  {
    NoExcise(r);
  }

  lemma VatIsShown(r: Request)
    requires Assessed(r).Some? && Assessed(r).value.Calculable? && VatOf(r) != 0
    ensures var components := Assessed(r).value.components;
            && "IMPORT_VAT" in components
            && components["IMPORT_VAT"] == Component("IMPORT_VAT", VatOf(r), false, true, r.tax.value.recoverability.VerifiedRecoverable?)
  {
    VatNotNegative(r);
    var cs := Components(r);
    var vats := VatComponents(r, r.tax.value, VatBaseOf(r));
    assert cs[|cs| - 1] == vats[0];
    assert vats[0] in cs;
    ByKindHolds(cs);
  }

  // Failing closed.

  /** Nothing is calculated while a decision or an exchange rate is missing, and nothing else blocks. */
  lemma CalculatedOnlyWhenVerified(r: Request)
    requires Assessed(r).Some?
    ensures Assessed(r).value.Calculable? <==>
              && r.classified && r.originKnown && r.tariff.Some? && (r.tariff.value.preferential ==> r.eligible)
              && r.tax.Some? && r.tax.value.recoverability != Unverified
              && Exchangeable(r, r.transactionCurrency) && forall c :: c in r.charges ==> Exchangeable(r, c.currency)
  {
  }

  // Totals.

  function KindsIn(components: map<string, Component>, part: Part): set<string> {
    set k | k in components && Counts(components[k], part)
  }

  function UnitsBy(components: map<string, Component>): map<string, int> {
    map k | k in components :: components[k].units
  }

  lemma {:induction false} TotalByKind(cs: seq<Component>, part: Part)
    requires Distinct(cs)
    ensures KindsIn(ByKind(cs), part) <= UnitsBy(ByKind(cs)).Keys
    ensures Total(cs, part) == Allocation.Units(KindsIn(ByKind(cs), part), UnitsBy(ByKind(cs)))
  {
    if cs != [] {
      var before, last := cs[..|cs| - 1], cs[|cs| - 1];
      TotalByKind(before, part);
      NewKind(before, last);
      var kinds, all := KindsIn(ByKind(before), part), KindsIn(ByKind(cs), part);
      UnitsFrame(kinds, UnitsBy(ByKind(before)), UnitsBy(ByKind(cs)));
      if Counts(last, part) {
        assert all == kinds + {last.kind};
        Allocation.UnitsPick(all, UnitsBy(ByKind(cs)), last.kind);
        assert all - {last.kind} == kinds;
      } else {
        assert all == kinds;
      }
    }
  }

  lemma NewKind(before: seq<Component>, last: Component)
    requires Distinct(before + [last])
    ensures last.kind !in ByKind(before)
  {
    forall i, j | 0 <= i < j < |before|
      ensures before[i].kind != before[j].kind
    {
      assert (before + [last])[i] == before[i] && (before + [last])[j] == before[j];
    }
    ByKindHolds(before);
    forall c | c in before
      ensures c.kind != last.kind
    {
      var k :| 0 <= k < |before| && before[k] == c;
      assert (before + [last])[k] == c && (before + [last])[|before|] == last;
    }
  }

  lemma {:induction false} UnitsFrame(s: set<string>, f: map<string, int>, g: map<string, int>)
    requires s <= f.Keys && s <= g.Keys && forall x :: x in s ==> f[x] == g[x]
    ensures Allocation.Units(s, f) == Allocation.Units(s, g)
    decreases |s|
  {
    if s != {} {
      var x :| x in s;
      Allocation.UnitsPick(s, f, x);
      Allocation.UnitsPick(s, g, x);
      UnitsFrame(s - {x}, f, g);
    }
  }

  /** The totals are those of the components shown, each once. */
  lemma TotalsAreShown(r: Request)
    requires Assessed(r).Some? && Assessed(r).value.Calculable?
    ensures var a := Assessed(r).value;
            && KindsIn(a.components, InGross) <= UnitsBy(a.components).Keys
            && KindsIn(a.components, InRecoverable) <= UnitsBy(a.components).Keys
            && KindsIn(a.components, InCustoms) <= UnitsBy(a.components).Keys
            && a.customs == CustomsOf(r) == Allocation.Units(KindsIn(a.components, InCustoms), UnitsBy(a.components))
            && a.gross == Allocation.Units(KindsIn(a.components, InGross), UnitsBy(a.components))
            && a.recoverable == Allocation.Units(KindsIn(a.components, InRecoverable), UnitsBy(a.components))
            && a.net == a.gross - a.recoverable
  {
    TotalByKind(Components(r), InGross);
    TotalByKind(Components(r), InRecoverable);
    TotalByKind(Components(r), InCustoms);
    CustomsOfAll(r);
  }

  /** Neither duty nor tax counts as customs value. */
  lemma CustomsOfAll(r: Request)
    requires Ready(r)
    ensures Total(Components(r), InCustoms) == CustomsOf(r)
  {
    PartTotals(r, InCustoms);
    CustomsIs(r);
  }

  /** Nothing else is shown. */
  lemma NothingElseIsShown(r: Request, kind: string)
    requires Assessed(r).Some? && Assessed(r).value.Calculable? && kind in Assessed(r).value.components
    ensures kind in {"TRANSACTION_VALUE", "CUSTOMS_DUTY_OTHER", "CUSTOMS_DUTY_AD_VALOREM", "CUSTOMS_DUTY_SPECIFIC", "IMPORT_VAT"}
            || exists c :: c in r.charges && c.kind == kind
  {
    ByKindHolds(Components(r));
    KindsOfCharges(r, r.charges);
    assert Assessed(r).value.components[kind] in Components(r);
  }

  lemma {:induction false} KindsOfCharges(r: Request, charges: seq<Charge>)
    requires forall c :: c in charges ==> ChargeOk(r, c)
    ensures forall x :: x in ChargeComponents(r, charges) ==> exists c :: c in charges && c.kind == x.kind
  {
    if charges != [] {
      var before, last := charges[..|charges| - 1], charges[|charges| - 1];
      KindsOfCharges(r, before);
      assert charges == before + [last] && last in charges;
      forall x | x in ChargeComponents(r, charges)
        ensures exists c :: c in charges && c.kind == x.kind
      {
        if x in ChargeComponents(r, before) {
          var c :| c in before && c.kind == x.kind;
          assert c in charges;
        }
      }
    }
  }

  // Lanes.

  function LaneRate(s: Shipment, currency: string): real {
    if currency == s.costCurrency then 1.0
    else if (currency, s.costCurrency) in s.quotes then s.quotes[(currency, s.costCurrency)]
    else 0.0
  }

  lemma ExchangeIs(s: Shipment, amount: real, currency: string)
    requires Exchange(s, amount, currency).Some?
    ensures Exchange(s, amount, currency).value == Money(Times(amount, LaneRate(s, currency)), s.scale, s.mode)
    ensures LaneRate(s, currency) > 0.0
  {
    SameTimesOne(amount);
  }

  function Held(x: int, low: Option<int>, high: Option<int>): int {
    var raised := if low.Some? && low.value > x then low.value else x;
    if high.Some? && high.value < raised then high.value else raised
  }

  function ExchangeBound(s: Shipment, lane: Lane, bound: Option<real>): Option<int> {
    if bound.Some? then Exchange(s, bound.value, lane.currency) else None
  }

  lemma LaneTotalHeld(s: Shipment, lane: Lane)
    requires LaneTotal(s, lane).Some?
    ensures lane.perShipment && lane.amount.Some? && lane.rate.None? && Exchange(s, lane.amount.value, lane.currency).Some?
    ensures (lane.minimum.Some? ==> ExchangeBound(s, lane, lane.minimum).Some?) && (lane.maximum.Some? ==> ExchangeBound(s, lane, lane.maximum).Some?)
    ensures LaneTotal(s, lane).value ==
              Held(Exchange(s, lane.amount.value, lane.currency).value, ExchangeBound(s, lane, lane.minimum), ExchangeBound(s, lane, lane.maximum))
  {
  }

  /** Holding before a monotone conversion is holding after it. */
  lemma HeldFollows(x: real, minimum: Option<real>, maximum: Option<real>, y: real, tx: int, low: Option<int>, high: Option<int>, ty: int)
    requires HeldTo(x, minimum, maximum, y) && low.Some? == minimum.Some? && high.Some? == maximum.Some?
    requires minimum.Some? && maximum.Some? ==> minimum.value <= maximum.value && low.value <= high.value
    requires minimum.Some? ==> (minimum.value <= x ==> low.value <= tx) && (x <= minimum.value ==> tx <= low.value)
    requires maximum.Some? ==> (maximum.value <= x ==> high.value <= tx) && (x <= maximum.value ==> tx <= high.value)
    requires (y == x ==> ty == tx) && (minimum.Some? && y == minimum.value ==> ty == low.value)
    requires maximum.Some? && y == maximum.value ==> ty == high.value
    ensures Held(tx, low, high) == ty
  {
  }

  /** A lane's charge is its amount, held between its bounds, converted and rounded once. */
  lemma LaneTotalIs(s: Shipment, lane: Lane, y: real)
    requires BoundsOk(lane) && LaneTotal(s, lane).Some?
    requires lane.amount.Some? ==> HeldTo(lane.amount.value, lane.minimum, lane.maximum, y)
    ensures lane.perShipment && lane.amount.Some? && lane.rate.None?
    ensures LaneTotal(s, lane) == Exchange(s, y, lane.currency)
  {
    LaneTotalHeld(s, lane);
    var x := lane.amount.value;
    var low, high := ExchangeBound(s, lane, lane.minimum), ExchangeBound(s, lane, lane.maximum);
    if lane.minimum.Some? {
      ExchangeFollows(s, lane, lane.minimum.value, x);
    }
    if lane.maximum.Some? {
      ExchangeFollows(s, lane, lane.maximum.value, x);
      if lane.minimum.Some? {
        ExchangeFollows(s, lane, lane.minimum.value, lane.maximum.value);
      }
    }
    HeldFollows(x, lane.minimum, lane.maximum, y, Exchange(s, x, lane.currency).value, low, high, Exchange(s, y, lane.currency).value);
  }

  lemma ExchangeFollows(s: Shipment, lane: Lane, a: real, b: real)
    requires Exchange(s, a, lane.currency).Some? && Exchange(s, b, lane.currency).Some?
    ensures a <= b ==> Exchange(s, a, lane.currency).value <= Exchange(s, b, lane.currency).value
    ensures b <= a ==> Exchange(s, b, lane.currency).value <= Exchange(s, a, lane.currency).value
  {
    if lane.currency == s.costCurrency {
      AmountFollows(s, a, b);
    } else {
      MoneyFollows(s, a, b, s.quotes[(lane.currency, s.costCurrency)]);
    }
  }

  lemma AmountFollows(s: Shipment, a: real, b: real)
    ensures a <= b ==> Money(a, s.scale, s.mode) <= Money(b, s.scale, s.mode)
    ensures b <= a ==> Money(b, s.scale, s.mode) <= Money(a, s.scale, s.mode)
  {
    if a <= b {
      MoneyIsMonotone(a, b, s.scale, s.mode);
    }
    if b <= a {
      MoneyIsMonotone(b, a, s.scale, s.mode);
    }
  }

  lemma MoneyFollows(s: Shipment, a: real, b: real, rate: real)
    requires rate > 0.0
    ensures a <= b ==> Money(Times(a, rate), s.scale, s.mode) <= Money(Times(b, rate), s.scale, s.mode)
    ensures b <= a ==> Money(Times(b, rate), s.scale, s.mode) <= Money(Times(a, rate), s.scale, s.mode)
  {
    if a <= b {
      Scaled(a, b, rate);
      MoneyIsMonotone(Times(a, rate), Times(b, rate), s.scale, s.mode);
    }
    if b <= a {
      Scaled(b, a, rate);
      MoneyIsMonotone(Times(b, rate), Times(a, rate), s.scale, s.mode);
    }
  }

  /** When a lane has a charge: a whole amount for the shipment that can be exchanged, and no rate. */
  lemma LaneTotalAccepts(s: Shipment, lane: Lane)
    requires BoundsOk(lane)
    ensures LaneTotal(s, lane).Some? <==>
              && lane.perShipment && lane.amount.Some? && lane.amount.value >= 0.0 && lane.rate.None?
              && (lane.currency == s.costCurrency
                  || ((lane.currency, s.costCurrency) in s.quotes && s.quotes[(lane.currency, s.costCurrency)] > 0.0))
  {
  }

  lemma {:induction false} CompleteIs(s: Shipment, lanes: seq<Lane>, k: nat)
    requires Projected(s, lanes).Some? && Projected(s, lanes).value.Complete? && k < |s.lines|
    ensures Preflown(s) && |Projected(s, lanes).value.assessments| == |s.lines| && lanes != []
    ensures Assessed(s.lines[k].request).Some? && Assessed(s.lines[k].request).value.Calculable?
    ensures Assessed(Charged(s, CustomsValues(s), lanes, k)) == Some(Projected(s, lanes).value.assessments[k])
  {
    assert s.lines[k] in s.lines;
  }

  lemma SameCharge(r: Request, more: seq<Charge>, c: Charge)
    requires ChargeOk(r, c) && ChargeOk(r.(charges := more), c)
    ensures ChargeComponent(r.(charges := more), c) == ChargeComponent(r, c)
  {
  }

  /** Nothing is allocated in part: every line is assessed, with its own charges as they were. */
  lemma {:induction false} NothingPartial(s: Shipment, lanes: seq<Lane>, k: nat, c: Charge)
    requires Uniform(s) && Projected(s, lanes).Some? && Projected(s, lanes).value.Complete?
    requires k < |s.lines| && c in s.lines[k].request.charges
    ensures |Projected(s, lanes).value.assessments| == |s.lines|
    ensures var own, shown := Assessed(s.lines[k].request), Projected(s, lanes).value.assessments[k];
            && own.Some? && own.value.Calculable? && shown.Calculable?
            && c.kind in own.value.components && c.kind in shown.components && shown.components[c.kind] == own.value.components[c.kind]
  {
    CompleteIs(s, lanes, k);
    LineShowsPart(s, lanes, k, 0);
    var r, charged := s.lines[k].request, Charged(s, CustomsValues(s), lanes, k);
    assert c in charged.charges;
    AssessedShowsCharge(r, c);
    AssessedShowsCharge(charged, c);
    SameCharge(r, charged.charges, c);
  }

  /** What an assessment has checked of its rule, its profile and its rates. */
  lemma CalculatedIsChecked(r: Request)
    requires Assessed(r).Some? && Assessed(r).value.Calculable?
    ensures r.transactionValue > 0.0 && r.quantity > 0.0 && r.scale <= 6 && 0.0 <= r.tax.value.rate <= 1.0
    ensures forall pair :: pair in r.quotes ==> r.quotes[pair] > 0.0
    ensures forall c :: c in r.charges ==> c.amount >= 0.0 && c.kind in INPUT_CHARGE_TYPES
    ensures forall j, k :: 0 <= j < k < |r.charges| ==> r.charges[j].kind != r.charges[k].kind
    ensures var rule := r.tariff.value;
            && rule.currency == r.costCurrency
            && (rule.adValoremRate.Some? <==> rule.duty != Specific) && (rule.specificRate.Some? <==> rule.duty != AdValorem)
            && (rule.adValoremRate.Some? ==> 0.0 <= rule.adValoremRate.value <= 1.0)
            && (rule.specificRate.Some? ==> rule.specificRate.value >= 0.0 && rule.specificUom == Some(r.quantityUom))
            && (rule.minimum.Some? && rule.maximum.Some? ==> 0.0 <= rule.minimum.value <= rule.maximum.value)
  {
    forall j, k | 0 <= j < k < |r.charges|
      ensures r.charges[j].kind != r.charges[k].kind
    {
      ComponentAt(r, r.charges, j);
      ComponentAt(r, r.charges, k);
      var cs := Components(r);
      assert cs[j + 1] == ChargeComponents(r, r.charges)[j] && cs[k + 1] == ChargeComponents(r, r.charges)[k];
    }
  }

  /** An assessment is calculated exactly when every decision is verified and every number is in range. */
  lemma CalculatedAccepts(r: Request)
    ensures Assessed(r).Some? && Assessed(r).value.Calculable? <==>
              && r.transactionValue > 0.0 && r.quantity > 0.0 && r.scale <= 6
              && r.classified && r.originKnown && r.tariff.Some? && r.tax.Some?
              && RuleIsUsable(r, r.tariff.value)
              && r.tax.value.recoverability != Unverified && 0.0 <= r.tax.value.rate <= 1.0
              && (forall pair :: pair in r.quotes ==> r.quotes[pair] > 0.0)
              && Exchangeable(r, r.transactionCurrency) && (forall c :: c in r.charges ==> ChargeIsUsable(r, c))
              && (forall j, k :: 0 <= j < k < |r.charges| ==> r.charges[j].kind != r.charges[k].kind)
  {
    if Assessed(r).Some? && Assessed(r).value.Calculable? {
      CalculatedIsChecked(r);
      CalculatedOnlyWhenVerified(r);
    } else if Ready(r) && forall j, k :: 0 <= j < k < |r.charges| ==> r.charges[j].kind != r.charges[k].kind {
      KindsAreApart(r);
    }
  }

  predicate ChargeIsUsable(r: Request, c: Charge) {
    c.amount >= 0.0 && c.kind in INPUT_CHARGE_TYPES && Exchangeable(r, c.currency)
  }

  predicate RuleIsUsable(r: Request, rule: TariffRule) {
    && (rule.preferential ==> r.eligible) && rule.currency == r.costCurrency
    && (rule.adValoremRate.Some? <==> rule.duty != Specific) && (rule.specificRate.Some? <==> rule.duty != AdValorem)
    && (rule.adValoremRate.Some? ==> 0.0 <= rule.adValoremRate.value <= 1.0)
    && (rule.specificRate.Some? ==> rule.specificRate.value >= 0.0)
    && rule.specificUom == (if rule.specificRate.Some? then Some(r.quantityUom) else None)
    && (rule.minimum.Some? ==> rule.minimum.value >= 0.0) && (rule.maximum.Some? ==> rule.maximum.value >= 0.0)
    && (rule.minimum.Some? && rule.maximum.Some? ==> rule.minimum.value <= rule.maximum.value)
  }

  lemma {:induction false} KindsAreApart(r: Request)
    requires Ready(r) && forall j, k :: 0 <= j < k < |r.charges| ==> r.charges[j].kind != r.charges[k].kind
    ensures Distinct(Components(r))
  {
    ChargesAreApart(r, r.charges);
    ChargeKinds(r, r.charges);
    OtherKinds();
    var duty, tax := DutyComponents(r, r.tariff.value, CustomsOf(r)), VatComponents(r, r.tax.value, VatBaseOf(r));
    JoinedAreApart(Transaction(r), ChargeComponents(r, r.charges), duty, tax, INPUT_CHARGE_TYPES);
  }

  lemma OtherKinds()
    ensures forall kind :: kind in {"CUSTOMS_DUTY_OTHER", "CUSTOMS_DUTY_AD_VALOREM", "CUSTOMS_DUTY_SPECIFIC"} ==>
              kind !in INPUT_CHARGE_TYPES && kind != "TRANSACTION_VALUE" && kind != "IMPORT_VAT"
    ensures "TRANSACTION_VALUE" !in INPUT_CHARGE_TYPES && "IMPORT_VAT" !in INPUT_CHARGE_TYPES && "TRANSACTION_VALUE" != "IMPORT_VAT"
  {
  }

  lemma JoinedAreApart(first: Component, cs: seq<Component>, duty: seq<Component>, tax: seq<Component>, kinds: set<string>)
    requires first.kind !in kinds && Distinct(cs) && (forall c :: c in cs ==> c.kind in kinds)
    requires |duty| <= 1 && |tax| <= 1
    requires forall c :: c in duty ==> c.kind !in kinds && c.kind != first.kind
    requires forall c :: c in tax ==> c.kind !in kinds && c.kind != first.kind
    requires |duty| == 1 && |tax| == 1 ==> duty[0].kind != tax[0].kind
    ensures Distinct([first] + cs + duty + tax)
  {
    var all, n := [first] + cs + duty + tax, |cs|;
    assert forall i :: 0 <= i < n ==> all[i + 1] == cs[i];
    assert |duty| == 1 ==> all[n + 1] == duty[0];
    assert |tax| == 1 ==> all[|all| - 1] == tax[0];
    forall i, j | 0 <= i < j < |all|
      ensures all[i].kind != all[j].kind
    {
      if 0 < i && j <= n {
        assert cs[i - 1].kind != cs[j - 1].kind;
      }
    }
  }

  lemma {:induction false} ChargesAreApart(r: Request, charges: seq<Charge>)
    requires forall c :: c in charges ==> ChargeOk(r, c)
    requires forall j, k :: 0 <= j < k < |charges| ==> charges[j].kind != charges[k].kind
    ensures Distinct(ChargeComponents(r, charges))
  {
    var cs := ChargeComponents(r, charges);
    CountCharges(r, charges);
    forall j, k | 0 <= j < k < |cs|
      ensures cs[j].kind != cs[k].kind
    {
      ComponentAt(r, charges, j);
      ComponentAt(r, charges, k);
    }
  }

  lemma {:induction false} CountCharges(r: Request, charges: seq<Charge>)
    requires forall c :: c in charges ==> ChargeOk(r, c)
    ensures |ChargeComponents(r, charges)| == |charges|
  {
    if charges != [] {
      CountCharges(r, charges[..|charges| - 1]);
    }
  }

  lemma {:induction false} ComponentAt(r: Request, charges: seq<Charge>, k: nat)
    requires k < |charges| && forall c :: c in charges ==> ChargeOk(r, c)
    ensures |ChargeComponents(r, charges)| == |charges| && ChargeComponents(r, charges)[k].kind == charges[k].kind
    decreases |charges|
  {
    if |charges| > 1 {
      ComponentAt(r, charges[..|charges| - 1], if k < |charges| - 1 then k else 0);
    }
  }

  /** The kinds of the lanes are apart from the exempt ones and from each line's own. */
  lemma {:induction false} LanesAreApart(s: Shipment, lanes: seq<Lane>)
    requires Projected(s, lanes).Some?
    ensures forall i, j :: 0 <= i < j < |lanes| ==> lanes[i].kind != lanes[j].kind
    ensures forall lane :: lane in lanes ==> lane.kind !in s.exemptions
    ensures forall lane, l, c :: lane in lanes && l in s.lines && c in l.request.charges ==> c.kind != lane.kind
  {
    forall lane | lane in lanes
      ensures lane.kind in LaneKinds(lanes)
    {
    }
    forall l, c | l in s.lines && c in l.request.charges
      ensures c.kind in Kinds(l.request.charges)
    {
    }
  }

  /** A line has this kind of charge, from its lane, of its own, or exempt. */
  predicate HasKind(s: Shipment, lanes: seq<Lane>, l: Line, kind: string) {
    kind in s.exemptions || (exists lane :: lane in lanes && lane.kind == kind) || exists c :: c in l.request.charges && c.kind == kind
  }

  lemma {:induction false} CoveredIs(l: Line, lanes: seq<Lane>, exemptions: set<string>, kind: string)
    ensures kind in Covered(l, lanes, exemptions) <==>
              kind in exemptions || (exists lane :: lane in lanes && lane.kind == kind) || exists c :: c in l.request.charges && c.kind == kind
  {
  }

  /** A shipment is complete exactly when it has lanes, every line can be calculated by itself, and every kind of charge is there. */
  lemma {:induction false} CompleteExactly(s: Shipment, lanes: seq<Lane>)
    requires Projected(s, lanes).Some?
    ensures Projected(s, lanes).value.Complete? <==>
              && lanes != []
              && (forall l :: l in s.lines ==> Assessed(l.request).Some? && Assessed(l.request).value.Calculable?)
              && (forall l, kind :: l in s.lines ==> (HasKind(s, lanes, l, kind) <==> kind in INPUT_CHARGE_TYPES))
  {
    forall l | l in s.lines
      ensures Covered(l, lanes, s.exemptions) == INPUT_CHARGE_TYPES <==>
                forall kind :: HasKind(s, lanes, l, kind) <==> kind in INPUT_CHARGE_TYPES
    {
      forall kind
        ensures kind in Covered(l, lanes, s.exemptions) <==> HasKind(s, lanes, l, kind)
      {
        CoveredIs(l, lanes, s.exemptions, kind);
      }
    }
  }

  /** Which decision a line waits for: the first one missing. */
  lemma BlockedStatusIs(r: Request, status: Status)
    requires Assessed(r) == Some(Blocked(status))
    ensures var unproven := r.tariff.Some? && r.tariff.value.preferential && !r.eligible;
            var origin := r.originKnown && !unproven;
            var tax := r.tax.Some? && r.tax.value.recoverability != Unverified;
            var rates := Exchangeable(r, r.transactionCurrency) && forall c :: c in r.charges ==> Exchangeable(r, c.currency);
            && (status == UnverifiedClassification <==> !r.classified)
            && (status == UnverifiedOrigin <==> r.classified && !origin)
            && (status == UnverifiedTax <==> r.classified && origin && !tax)
            && (status == MissingExchangeRate <==> r.classified && origin && tax && !rates)
            && (status == NotCalculable <==> r.classified && origin && tax && rates && r.tariff.None?)
  {
  }

  // The part of each line.

  /** What a line is measured by: its customs value before any lane charge, its quantity, weight or volume. */
  function Measure(s: Shipment, l: Line): Option<real> {
    match s.basis
    case CustomsValue =>
      if Assessed(l.request).Some? && Assessed(l.request).value.Calculable? then
        Some(Amount(Assessed(l.request).value.customs, s.scale))
      else None
    case Quantity => Some(l.request.quantity)
    case Weight => l.weight
    case Volume => l.volume
  }

  lemma {:induction false} LaneIsAllocated(s: Shipment, lanes: seq<Lane>, lane: Lane)
    requires Projected(s, lanes).Some? && Projected(s, lanes).value.Complete? && lane in lanes
    ensures Preflown(s) && Allocates(s, CustomsValues(s), lane)
  {
  }

  lemma {:induction false} CustomsAt(s: Shipment, k: nat, measure: real)
    requires Preflown(s) && k < |s.lines| && Measure(s, s.lines[k]) == Some(measure)
    ensures s.basis.CustomsValue? ==> measure == Amount(CustomsValues(s)[k], s.scale)
  {
  }

  lemma {:induction false} MeasureAt(s: Shipment, customs: seq<int>, k: nat, measure: real)
    requires |customs| == |s.lines| && k < |s.lines| && Measure(s, s.lines[k]) == Some(measure)
    requires Allocation.AllMeasured(AllocationLines(s, customs), s.basis) && Allocation.DistinctIds(AllocationLines(s, customs))
    requires s.basis.CustomsValue? ==> measure == Amount(customs[k], s.scale)
    ensures var factors := Allocation.Factors(AllocationLines(s, customs), s.basis);
            s.lines[k].id in factors && factors[s.lines[k].id] == measure
  {
    Allocation.MeasureIs(AllocationLines(s, customs), s.basis, k);
  }

  lemma {:induction false} MeasuresAre(s: Shipment, customs: seq<int>, measures: map<Id, real>)
    requires |customs| == |s.lines|
    requires Allocation.AllMeasured(AllocationLines(s, customs), s.basis) && Allocation.DistinctIds(AllocationLines(s, customs))
    requires measures.Keys == LineIds(s.lines)
    requires forall k :: 0 <= k < |s.lines| ==>
               s.lines[k].id in measures && Measure(s, s.lines[k]) == Some(measures[s.lines[k].id])
               && (s.basis.CustomsValue? ==> measures[s.lines[k].id] == Amount(customs[k], s.scale))
    ensures Allocation.Factors(AllocationLines(s, customs), s.basis) == measures
  {
    var lines := AllocationLines(s, customs);
    var factors := Allocation.Factors(lines, s.basis);
    Allocation.FactorsKeys(lines, s.basis);
    forall id | id in factors
      ensures id in measures && factors[id] == measures[id]
    {
      var l :| l in lines && l.id == id;
      var k :| 0 <= k < |lines| && lines[k] == l;
      MeasureAt(s, customs, k, measures[s.lines[k].id]);
    }
    forall id | id in measures
      ensures id in factors
    {
      var l :| l in s.lines && l.id == id;
      var k :| 0 <= k < |s.lines| && s.lines[k] == l;
      MeasureAt(s, customs, k, measures[s.lines[k].id]);
    }
  }

  lemma {:induction false} PartIs(s: Shipment, lane: Lane, measures: map<Id, real>, id: Id)
    requires Preflown(s) && Allocates(s, CustomsValues(s), lane) && id in measures
    requires measures.Keys == LineIds(s.lines) && forall l :: l in s.lines ==> Measure(s, l) == Some(measures[l.id])
    ensures Allocation.Allocatable(measures) && LaneTotal(s, lane).value >= 0
    ensures PartOf(s, CustomsValues(s), lane, id) == Allocation.Share(measures, LaneTotal(s, lane).value, id)
  {
    var customs, total := CustomsValues(s), LaneTotal(s, lane).value;
    forall k | 0 <= k < |s.lines|
      ensures s.lines[k].id in measures && Measure(s, s.lines[k]) == Some(measures[s.lines[k].id])
      ensures s.basis.CustomsValue? ==> measures[s.lines[k].id] == Amount(customs[k], s.scale)
    {
      assert s.lines[k] in s.lines && s.lines[k].id in LineIds(s.lines);
      CustomsAt(s, k, measures[s.lines[k].id]);
    }
    MeasuresAre(s, customs, measures);
    Allocation.AcceptedIsAllocatable(Amount(total, s.scale), AllocationLines(s, customs), s.basis, s.scale);
    MoneyKeepsUnits(total, s.scale, HalfUp);
  }

  lemma Spread(a: real, b: real, sum: real)
    requires sum > 0.0 && a < b + 1.0
    ensures Times(a, sum) < Times(b, sum) + sum
  {
    var gap := b + 1.0 - a;
    assert gap * sum > 0.0;
    assert gap * sum == b * sum + sum - a * sum;
  }

  lemma ShareIsProportional(measures: map<Id, real>, total: nat, id: Id, share: int)
    requires Allocation.Allocatable(measures) && id in measures && share == Allocation.Share(measures, total, id)
    ensures Proportional(measures, id, total, share)
  {
    Allocation.ShareIsClose(measures, total, id);
    Allocation.QuotaIsProportional(measures, total, id);
    var quota, sum := Allocation.QuotasOf(measures, total)[id], Allocation.Sum(measures.Keys, measures);
    Spread(share as real, quota, sum);
    Spread(quota, share as real, sum);
  }

  /** A part within one unit of the charge in proportion to the measure. */
  ghost predicate Proportional(measures: map<Id, real>, id: Id, total: int, part: int) {
    && id in measures
    && var sum := Allocation.Sum(measures.Keys, measures);
       sum > 0.0 && Times(total as real, measures[id]) - sum < Times(part as real, sum) < Times(total as real, measures[id]) + sum
  }

  lemma {:induction false} PartOfLine(s: Shipment, lane: Lane, measures: map<Id, real>, k: nat)
    requires k < |s.lines| && Preflown(s) && Allocates(s, CustomsValues(s), lane)
    requires measures.Keys == LineIds(s.lines) && forall l :: l in s.lines ==> Measure(s, l) == Some(measures[l.id])
    ensures Proportional(measures, s.lines[k].id, LaneTotal(s, lane).value, PartOf(s, CustomsValues(s), lane, s.lines[k].id))
  {
    var id := s.lines[k].id;
    assert s.lines[k] in s.lines && id in LineIds(s.lines);
    PartIs(s, lane, measures, id);
    ShareIsProportional(measures, LaneTotal(s, lane).value, id, PartOf(s, CustomsValues(s), lane, id));
  }

  /** Each line's part of a lane charge is the charge in proportion to the line's measure, up to less than one unit. */
  lemma {:induction false} PartIsProportional(s: Shipment, lanes: seq<Lane>, measures: map<Id, real>, k: nat, j: nat)
    requires Uniform(s) && Projected(s, lanes).Some? && Projected(s, lanes).value.Complete?
    requires k < |s.lines| && j < |lanes|
    requires measures.Keys == LineIds(s.lines) && forall l :: l in s.lines ==> Measure(s, l) == Some(measures[l.id])
    ensures var shown := Projected(s, lanes).value.assessments[k];
            && LaneTotal(s, lanes[j]).Some? && shown.Calculable? && lanes[j].kind in shown.components
            && Proportional(measures, s.lines[k].id, LaneTotal(s, lanes[j]).value, shown.components[lanes[j].kind].units)
  {
    LineShowsPart(s, lanes, k, j);
    LaneIsAllocated(s, lanes, lanes[j]);
    PartOfLine(s, lanes[j], measures, k);
  }
}
