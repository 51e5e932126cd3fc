/** The landed cost of one shipment line: converted charges, clamped duty, tax and their totals. */
module LandedCost {
  import opened Wrappers
  import opened Rounding

  const INPUT_CHARGE_TYPES: set<string> := {
    "ORIGIN_HANDLING", "INTERNATIONAL_FREIGHT", "INSURANCE", "PACKING", "ASSIST_VALUE", "ROYALTY",
    "BROKERAGE", "DESTINATION_HANDLING", "INLAND_FREIGHT", "STORAGE", "OTHER_NONRECOVERABLE" }

  datatype Charge = Charge(kind: string, amount: real, currency: string, customs: bool, gross: bool, recoverable: bool)

  datatype DutyMethod = AdValorem | Specific | Compound

  datatype TariffRule = TariffRule(
    preferential: bool, duty: DutyMethod, currency: string, adValoremRate: Option<real>, specificRate: Option<real>,
    specificUom: Option<string>, minimum: Option<real>, maximum: Option<real>)

  datatype Recoverability = VerifiedRecoverable | VerifiedNonrecoverable | Unverified

  datatype TaxProfile = TaxProfile(rate: real, recoverability: Recoverability, includeDuty: bool, includeExcise: bool)

  datatype Request = Request(
    classified: bool, originKnown: bool, eligible: bool,
    transactionValue: real, transactionCurrency: string, quantity: real, quantityUom: string, costCurrency: string,
    charges: seq<Charge>, quotes: map<(string, string), real>, tariff: Option<TariffRule>, tax: Option<TaxProfile>,
    scale: nat, mode: Mode)

  datatype Status = UnverifiedClassification | UnverifiedOrigin | UnverifiedTax | MissingExchangeRate | NotCalculable

  /** An amount in units of the last digit of the cost currency, and the totals it belongs to. */
  datatype Component = Component(kind: string, units: int, customs: bool, gross: bool, recoverable: bool)

  datatype Part = InCustoms | InGross | InRecoverable

  predicate Counts(c: Component, part: Part) {
    match part
    case InCustoms => c.customs
    case InGross => c.gross
    case InRecoverable => c.recoverable
  }

  function Total(cs: seq<Component>, part: Part): int {
    if cs == [] then 0
    else Total(cs[..|cs| - 1], part) + if Counts(cs[|cs| - 1], part) then cs[|cs| - 1].units else 0
  }

  /** The components by their type, each type once; or why there is no assessment. */
  datatype Assessment =
    | Blocked(status: Status)
    | Calculable(components: map<string, Component>, customs: int, gross: int, recoverable: int, net: int)

  predicate Exchangeable(r: Request, currency: string) {
    currency == r.costCurrency || (currency, r.costCurrency) in r.quotes
  }

  function Blocking(r: Request): Option<Status> {
    if !r.classified then Some(UnverifiedClassification)
    else if !r.originKnown then Some(UnverifiedOrigin)
    else if r.tariff.Some? && r.tariff.value.preferential && !r.eligible then Some(UnverifiedOrigin)
    else if r.tax.None? || r.tax.value.recoverability.Unverified? then Some(UnverifiedTax)
    else if !Exchangeable(r, r.transactionCurrency) || exists c :: c in r.charges && !Exchangeable(r, c.currency) then
      Some(MissingExchangeRate)
    else if r.tariff.None? then Some(NotCalculable)
    else None
  }

  function Exchanged(r: Request, amount: real, currency: string): real
    requires Exchangeable(r, currency)
  {
    if currency == r.costCurrency then amount else Times(amount, r.quotes[(currency, r.costCurrency)])
  }

  /** A converted amount, rounded once. */
  function Converted(r: Request, amount: real, currency: string): Option<int> {
    if amount < 0.0 || !Exchangeable(r, currency) then None
    else Some(Money(Exchanged(r, amount, currency), r.scale, r.mode))
  }

  predicate ChargeOk(r: Request, c: Charge) {
    c.kind in INPUT_CHARGE_TYPES && Converted(r, c.amount, c.currency).Some?
  }

  function ChargeComponent(r: Request, c: Charge): Component
    requires ChargeOk(r, c)
  {
    Component(c.kind, Converted(r, c.amount, c.currency).value, c.customs, c.gross, c.recoverable)
  }

  function ChargeComponents(r: Request, charges: seq<Charge>): seq<Component>
    requires forall c :: c in charges ==> ChargeOk(r, c)
  {
    if charges == [] then []
    else ChargeComponents(r, charges[..|charges| - 1]) + [ChargeComponent(r, charges[|charges| - 1])]
  }

  /** The transaction and the charges. */
  predicate BaseOk(r: Request) {
    && Converted(r, r.transactionValue, r.transactionCurrency).Some?
    && forall c :: c in r.charges ==> ChargeOk(r, c)
  }

  function Transaction(r: Request): Component
    requires BaseOk(r)
  {
    Component("TRANSACTION_VALUE", Converted(r, r.transactionValue, r.transactionCurrency).value, true, true, false)
  }

  function Base(r: Request): seq<Component>
    requires BaseOk(r)
  {
    [Transaction(r)] + ChargeComponents(r, r.charges)
  }

  // Duty.

  predicate RuleOk(r: Request, rule: TariffRule) {
    && rule.currency == r.costCurrency
    && (if rule.duty.Specific? then rule.adValoremRate.None?
        else rule.adValoremRate.Some? && 0.0 <= rule.adValoremRate.value <= 1.0)
    && (if rule.duty.AdValorem? then rule.specificRate.None? && rule.specificUom.None?
        else rule.specificRate.Some? && rule.specificRate.value >= 0.0 && rule.specificUom == Some(r.quantityUom))
    && (rule.minimum.Some? ==> rule.minimum.value >= 0.0)
    && (rule.maximum.Some? ==> rule.maximum.value >= 0.0 && (rule.minimum.Some? ==> rule.maximum.value >= rule.minimum.value))
  }

  function ByValue(rule: TariffRule, customs: real): real
    requires !rule.duty.Specific? ==> rule.adValoremRate.Some?
  {
    if rule.duty.Specific? then 0.0 else customs * rule.adValoremRate.value
  }

  function ByQuantity(rule: TariffRule, quantity: real): real
    requires !rule.duty.AdValorem? ==> rule.specificRate.Some?
  {
    if rule.duty.AdValorem? then 0.0 else quantity * rule.specificRate.value
  }

  function Unclamped(r: Request, rule: TariffRule, customs: real): real
    requires RuleOk(r, rule)
  {
    ByValue(rule, customs) + ByQuantity(rule, r.quantity)
  }

  function AtLeast(x: real, minimum: Option<real>): real {
    if minimum.Some? && minimum.value > x then minimum.value else x
  }

  function AtMost(x: real, maximum: Option<real>): real {
    if maximum.Some? && maximum.value < x then maximum.value else x
  }

  function Duty(r: Request, rule: TariffRule, customs: int): int
    requires RuleOk(r, rule)
  {
    Money(AtMost(AtLeast(Unclamped(r, rule, Amount(customs, r.scale)), rule.minimum), rule.maximum), r.scale, r.mode)
  }

  function DutyComponents(r: Request, rule: TariffRule, customs: int): seq<Component>
    requires RuleOk(r, rule)
  {
    var duty := Duty(r, rule, customs);
    if duty == 0 then []
    else
      var clamped := duty != Money(Unclamped(r, rule, Amount(customs, r.scale)), r.scale, r.mode);
      var kind :=
        if clamped || rule.duty.Compound? then "CUSTOMS_DUTY_OTHER"
        else if rule.duty.AdValorem? then "CUSTOMS_DUTY_AD_VALOREM"
        else "CUSTOMS_DUTY_SPECIFIC";
      [Component(kind, duty, false, true, false)]
  }

  // Tax.

  function Excise(cs: seq<Component>): int {
    if cs == [] then 0
    else Excise(cs[..|cs| - 1]) + if cs[|cs| - 1].kind == "EXCISE_TAX" then cs[|cs| - 1].units else 0
  }

  function VatBase(tax: TaxProfile, customs: int, duty: int, cs: seq<Component>): int {
    customs + (if tax.includeDuty then duty else 0) + if tax.includeExcise then Excise(cs) else 0
  }

  function Taxed(r: Request, tax: TaxProfile, base: int): real {
    Times(Amount(base, r.scale), tax.rate)
  }

  function Vat(r: Request, tax: TaxProfile, base: int): int {
    Money(Taxed(r, tax, base), r.scale, r.mode)
  }

  function VatComponents(r: Request, tax: TaxProfile, base: int): seq<Component> {
    var vat := Vat(r, tax, base);
    if vat > 0 then [Component("IMPORT_VAT", vat, false, true, tax.recoverability.VerifiedRecoverable?)] else []
  }

  // The assessment.

  predicate Distinct(cs: seq<Component>) {
    forall i, j :: 0 <= i < j < |cs| ==> cs[i].kind != cs[j].kind
  }

  function ByKind(cs: seq<Component>): map<string, Component> {
    if cs == [] then map[] else ByKind(cs[..|cs| - 1])[cs[|cs| - 1].kind := cs[|cs| - 1]]
  }

  predicate Wellformed(r: Request) {
    r.transactionValue > 0.0 && r.quantity > 0.0
  }

  predicate RatesOk(r: Request) {
    forall pair :: pair in r.quotes ==> r.quotes[pair] > 0.0
  }

  /** Every decision is bound, and every one of them can be calculated with. */
  predicate Ready(r: Request) {
    && Wellformed(r) && Blocking(r).None? && r.scale <= 6 && RatesOk(r) && BaseOk(r)
    && r.tariff.Some? && RuleOk(r, r.tariff.value) && r.tax.Some? && 0.0 <= r.tax.value.rate <= 1.0
  }

  function CustomsOf(r: Request): int
    requires Ready(r)
  {
    Total(Base(r), InCustoms)
  }

  function DutyOf(r: Request): int
    requires Ready(r)
  {
    Duty(r, r.tariff.value, CustomsOf(r))
  }

  function VatBaseOf(r: Request): int
    requires Ready(r)
  {
    VatBase(r.tax.value, CustomsOf(r), DutyOf(r), Base(r) + DutyComponents(r, r.tariff.value, CustomsOf(r)))
  }

  function VatOf(r: Request): int
    requires Ready(r)
  {
    Vat(r, r.tax.value, VatBaseOf(r))
  }

  function Components(r: Request): seq<Component>
    requires Ready(r)
  {
    Base(r) + DutyComponents(r, r.tariff.value, CustomsOf(r)) + VatComponents(r, r.tax.value, VatBaseOf(r))
  }

  /** Sums up; an assessment with two components of one type is refused. */
  function Finished(cs: seq<Component>, customs: int): Option<Assessment> {
    if !Distinct(cs) then None
    else
      var gross, recoverable := Total(cs, InGross), Total(cs, InRecoverable);
      Some(Calculable(ByKind(cs), customs, gross, recoverable, gross - recoverable))
  }

  function Assessed(r: Request): Option<Assessment> {
    if !Wellformed(r) then None
    else if Blocking(r).Some? then Some(Blocked(Blocking(r).value))
    else if !Ready(r) then None
    else Finished(Components(r), CustomsOf(r))
  }

  /** Converts the charges one after the other behind the transaction. */
  method ConvertCharges(r: Request) returns (components: Option<seq<Component>>)
    ensures components == if BaseOk(r) then Some(Base(r)) else None
  {
    var transaction := Converted(r, r.transactionValue, r.transactionCurrency);
    if transaction.None? {
      return None;
    }
    var cs := [Component("TRANSACTION_VALUE", transaction.value, true, true, false)];
    for n := 0 to |r.charges|
      invariant forall c :: c in r.charges[..n] ==> ChargeOk(r, c)
      invariant cs == [Component("TRANSACTION_VALUE", transaction.value, true, true, false)] + ChargeComponents(r, r.charges[..n])
    {
      var c := r.charges[n];
      assert c in r.charges && r.charges[..n + 1] == r.charges[..n] + [c];
      if !ChargeOk(r, c) {
        return None;
      }
      cs := cs + [ChargeComponent(r, c)];
    }
    assert r.charges[..|r.charges|] == r.charges;
    return Some(cs);
  }

  method Sum(cs: seq<Component>, part: Part) returns (total: int)
    ensures total == Total(cs, part)
  {
    total := 0;
    for n := 0 to |cs|
      invariant total == Total(cs[..n], part)
    {
      assert cs[..n + 1][..n] == cs[..n];
      if Counts(cs[n], part) {
        total := total + cs[n].units;
      }
    }
    assert cs[..|cs|] == cs;
  }

  method CalculateLandedCost(r: Request) returns (assessment: Option<Assessment>)
    ensures assessment == Assessed(r)
  {
    if !Wellformed(r) {
      return None;
    }
    var status := Blocking(r);
    if status.Some? {
      return Some(Blocked(status.value));
    }
    if r.scale > 6 || !RatesOk(r) {
      return None;
    }
    var base := ConvertCharges(r);
    if base.None? || !RuleOk(r, r.tariff.value) || !(0.0 <= r.tax.value.rate <= 1.0) {
      return None;
    }
    assessment := AddDutyAndTax(r, base.value);
  }

  method AddDutyAndTax(r: Request, base: seq<Component>) returns (assessment: Option<Assessment>)
    requires Ready(r) && base == Base(r)
    ensures assessment == Assessed(r)
  {
    var rule, tax := r.tariff.value, r.tax.value;
    var customs := Sum(base, InCustoms);
    var duty := Duty(r, rule, customs);
    var components := base + DutyComponents(r, rule, customs);
    components := components + VatComponents(r, tax, VatBase(tax, customs, duty, components));
    if !Distinct(components) {
      return None;
    }
    var gross := Sum(components, InGross);
    var recoverable := Sum(components, InRecoverable);
    return Some(Calculable(ByKind(components), customs, gross, recoverable, gross - recoverable));
  }

  // What the totals are made of.

  lemma {:induction false} TotalOfTwo(a: seq<Component>, b: seq<Component>, part: Part)
    ensures Total(a + b, part) == Total(a, part) + Total(b, part)
  {
    if b == [] {
      assert a + b == a;
    } else {
      assert (a + b)[..|a + b| - 1] == a + b[..|b| - 1];
      TotalOfTwo(a, b[..|b| - 1], part);
    }
  }

  function If(b: bool, n: int): int {
    if b then n else 0
  }

  lemma PartTotals(r: Request, part: Part)
    requires Ready(r)
    ensures Total(Components(r), part) ==
              Transaction(r).units * (if part.InRecoverable? then 0 else 1)
              + Total(ChargeComponents(r, r.charges), part)
              + If(part.InGross?, DutyOf(r))
              + If(part.InGross? || (part.InRecoverable? && r.tax.value.recoverability.VerifiedRecoverable?), VatOf(r))
  {
    var rule, tax := r.tariff.value, r.tax.value;
    var duties, vats := DutyComponents(r, rule, CustomsOf(r)), VatComponents(r, tax, VatBaseOf(r));
    TotalOfTwo([Transaction(r)], ChargeComponents(r, r.charges), part);
    TotalOfTwo(Base(r), duties, part);
    TotalOfTwo(Base(r) + duties, vats, part);
    VatNotNegative(r);
    SingleTotal(Transaction(r), part);
    if duties != [] { SingleTotal(duties[0], part); }
    if vats != [] { SingleTotal(vats[0], part); }
  }

  lemma SingleTotal(c: Component, part: Part)
    ensures Total([c], part) == If(Counts(c, part), c.units)
  {
    assert [c][..0] == [];
  }

  /** The charges that are an input never include an excise tax, so its switch has no effect. */
  lemma NoExcise(r: Request)
    requires Ready(r)
    ensures Excise(Base(r) + DutyComponents(r, r.tariff.value, CustomsOf(r))) == 0
    ensures VatBaseOf(r) == CustomsOf(r) + If(r.tax.value.includeDuty, DutyOf(r))
  {
    ChargeKinds(r, r.charges);
    NoExciseIn(Base(r) + DutyComponents(r, r.tariff.value, CustomsOf(r)));
  }

  lemma {:induction false} NoExciseIn(cs: seq<Component>)
    requires forall c :: c in cs ==> c.kind != "EXCISE_TAX"
    ensures Excise(cs) == 0
  {
    if cs != [] {
      NoExciseIn(cs[..|cs| - 1]);
    }
  }

  lemma {:induction false} ChargeKinds(r: Request, charges: seq<Charge>)
    requires RatesOk(r) && forall c :: c in charges ==> ChargeOk(r, c)
    ensures forall c :: c in ChargeComponents(r, charges) ==> c.kind in INPUT_CHARGE_TYPES && c.units >= 0
  {
    if charges != [] {
      var before, last := charges[..|charges| - 1], charges[|charges| - 1];
      ChargeKinds(r, before);
      assert ChargeOk(r, last);
      ConvertedNotNegative(r, last.amount, last.currency);
    }
  }

  lemma ExchangedIsMonotone(r: Request, a: real, b: real, currency: string)
    requires 0.0 <= a <= b && Exchangeable(r, currency) && RatesOk(r)
    ensures 0.0 <= Exchanged(r, a, currency) <= Exchanged(r, b, currency)
  {
    if currency != r.costCurrency {
      var rate := r.quotes[(currency, r.costCurrency)];
      Scaled(a, b, rate);
      Scaled(0.0, a, rate);
    }
  }

  lemma ConvertedIsMonotone(r: Request, a: real, b: real, currency: string)
    requires 0.0 <= a <= b && Converted(r, a, currency).Some? && RatesOk(r)
    ensures Converted(r, b, currency).Some? && 0 <= Converted(r, a, currency).value <= Converted(r, b, currency).value
  {
    ExchangedIsMonotone(r, a, b, currency);
    MoneyNotNegative(Exchanged(r, a, currency), r.scale, r.mode);
    MoneyIsMonotone(Exchanged(r, a, currency), Exchanged(r, b, currency), r.scale, r.mode);
  }

  lemma ConvertedNotNegative(r: Request, amount: real, currency: string)
    requires Converted(r, amount, currency).Some? && RatesOk(r)
    ensures Converted(r, amount, currency).value >= 0
  {
    ConvertedIsMonotone(r, amount, amount, currency);
  }

  lemma {:induction false} TotalNotNegative(cs: seq<Component>, part: Part)
    requires forall c :: c in cs ==> c.units >= 0
    ensures Total(cs, part) >= 0
  {
    if cs != [] {
      TotalNotNegative(cs[..|cs| - 1], part);
    }
  }

  lemma CustomsIs(r: Request)
    requires Ready(r)
    ensures CustomsOf(r) == Transaction(r).units + Total(ChargeComponents(r, r.charges), InCustoms)
    ensures CustomsOf(r) >= Transaction(r).units >= 0
  {
    TotalOfTwo([Transaction(r)], ChargeComponents(r, r.charges), InCustoms);
    SingleTotal(Transaction(r), InCustoms);
    ChargeKinds(r, r.charges);
    TotalNotNegative(ChargeComponents(r, r.charges), InCustoms);
    ConvertedNotNegative(r, r.transactionValue, r.transactionCurrency);
  }

  lemma ByValueIsMonotone(rule: TariffRule, a: real, b: real)
    requires rule.duty.Specific? || (rule.adValoremRate.Some? && rule.adValoremRate.value >= 0.0)
    requires 0.0 <= a <= b
    ensures 0.0 <= ByValue(rule, a) <= ByValue(rule, b)
  {
    if !rule.duty.Specific? {
      Scaled(a, b, rule.adValoremRate.value);
      Scaled(0.0, a, rule.adValoremRate.value);
    }
  }

  lemma ByQuantityNotNegative(rule: TariffRule, quantity: real)
    requires rule.duty.AdValorem? || (rule.specificRate.Some? && rule.specificRate.value >= 0.0)
    requires quantity >= 0.0
    ensures ByQuantity(rule, quantity) >= 0.0
  {
    if !rule.duty.AdValorem? {
      Scaled(0.0, quantity, rule.specificRate.value);
    }
  }

  lemma UnclampedIsMonotone(r: Request, rule: TariffRule, a: real, b: real)
    requires RuleOk(r, rule) && 0.0 <= a <= b && r.quantity > 0.0
    ensures 0.0 <= Unclamped(r, rule, a) <= Unclamped(r, rule, b)
  {
    ByValueIsMonotone(rule, a, b);
    ByQuantityNotNegative(rule, r.quantity);
  }

  /** Duty never falls when the customs value rises, in any mode and with any clamps. */
  lemma DutyIsMonotone(r: Request, rule: TariffRule, customs: int, customs': int)
    requires RuleOk(r, rule) && 0 <= customs <= customs' && r.quantity > 0.0
    ensures 0 <= Duty(r, rule, customs) <= Duty(r, rule, customs')
  {
    AmountIsMonotone(0, customs, r.scale);
    AmountIsMonotone(customs, customs', r.scale);
    ZeroAmount(r.scale);
    var a, b := Unclamped(r, rule, Amount(customs, r.scale)), Unclamped(r, rule, Amount(customs', r.scale));
    UnclampedIsMonotone(r, rule, Amount(customs, r.scale), Amount(customs', r.scale));
    var x, y := AtMost(AtLeast(a, rule.minimum), rule.maximum), AtMost(AtLeast(b, rule.minimum), rule.maximum);
    assert 0.0 <= x <= y;
    MoneyNotNegative(x, r.scale, r.mode);
    MoneyIsMonotone(x, y, r.scale, r.mode);
  }

  lemma ZeroAmount(scale: nat)
    ensures Amount(0, scale) == 0.0
  {
    PowerPositive(scale);
  }

  lemma TaxedIsMonotone(r: Request, tax: TaxProfile, base: int, base': int)
    requires 0 <= base <= base' && tax.rate >= 0.0
    ensures 0.0 <= Taxed(r, tax, base) <= Taxed(r, tax, base')
  {
    AmountIsMonotone(0, base, r.scale);
    AmountIsMonotone(base, base', r.scale);
    ZeroAmount(r.scale);
    Scaled(Amount(base, r.scale), Amount(base', r.scale), tax.rate);
    Scaled(0.0, Amount(base, r.scale), tax.rate);
  }

  lemma VatIsMonotone(r: Request, tax: TaxProfile, base: int, base': int)
    requires 0 <= base <= base' && tax.rate >= 0.0
    ensures 0 <= Vat(r, tax, base) <= Vat(r, tax, base')
  {
    TaxedIsMonotone(r, tax, base, base');
    MoneyNotNegative(Taxed(r, tax, base), r.scale, r.mode);
    MoneyIsMonotone(Taxed(r, tax, base), Taxed(r, tax, base'), r.scale, r.mode);
  }

  lemma VatNotNegative(r: Request)
    requires Ready(r)
    ensures CustomsOf(r) >= 0 && DutyOf(r) >= 0 && VatOf(r) >= 0
  {
    CustomsIs(r);
    DutyIsMonotone(r, r.tariff.value, CustomsOf(r), CustomsOf(r));
    NoExcise(r);
    VatIsMonotone(r, r.tax.value, VatBaseOf(r), VatBaseOf(r));
  }

  // Totals against each other.

  /** The contract every charge of a shipment satisfies. */
  predicate ChargesInGross(charges: seq<Charge>) {
    forall c :: c in charges ==> (c.recoverable ==> c.gross) && (c.customs ==> c.gross)
  }

  lemma {:induction false} PartsOfGross(cs: seq<Component>)
    requires forall c :: c in cs ==> c.units >= 0 && (c.recoverable ==> c.gross) && (c.customs ==> c.gross)
    ensures 0 <= Total(cs, InRecoverable) <= Total(cs, InGross) && 0 <= Total(cs, InCustoms) <= Total(cs, InGross)
  {
    if cs != [] {
      PartsOfGross(cs[..|cs| - 1]);
    }
  }

  lemma {:induction false} ComponentsInGross(r: Request, charges: seq<Charge>)
    requires (forall c :: c in charges ==> ChargeOk(r, c)) && ChargesInGross(charges)
    ensures forall c :: c in ChargeComponents(r, charges) ==> (c.recoverable ==> c.gross) && (c.customs ==> c.gross)
  {
    if charges != [] {
      ComponentsInGross(r, charges[..|charges| - 1]);
    }
  }

  /** Recoverable tax and customs value never exceed the gross cost, so the net cost lies between zero and it. */
  lemma NetWithinGross(r: Request)
    requires Assessed(r).Some? && Assessed(r).value.Calculable? && ChargesInGross(r.charges)
    ensures 0 <= Assessed(r).value.net <= Assessed(r).value.gross
    ensures 0 <= Assessed(r).value.customs <= Assessed(r).value.gross
  {
    ChargeKinds(r, r.charges);
    ComponentsInGross(r, r.charges);
    PartsOfGross(ChargeComponents(r, r.charges));
    PartTotals(r, InGross);
    PartTotals(r, InRecoverable);
    CustomsIs(r);
    VatNotNegative(r);
  }

  // A higher transaction value.

  /** A conversion does not look at the transaction value. */
  lemma SameConversion(r: Request, value: real, amount: real, currency: string)
    ensures Converted(r.(transactionValue := value), amount, currency) == Converted(r, amount, currency)
  {
    var r' := r.(transactionValue := value);
    assert Exchangeable(r', currency) == Exchangeable(r, currency);
    if Exchangeable(r, currency) {
      var x, y := Exchanged(r, amount, currency), Exchanged(r', amount, currency);
      assert x == y && r'.scale == r.scale && r'.mode == r.mode;
      assert Money(x, r.scale, r.mode) == Money(y, r'.scale, r'.mode);
    }
  }

  lemma {:induction false} SameCharges(r: Request, value: real, charges: seq<Charge>)
    requires forall c :: c in charges ==> ChargeOk(r, c)
    ensures var r' := r.(transactionValue := value);
            (forall c :: c in charges ==> ChargeOk(r', c)) && ChargeComponents(r', charges) == ChargeComponents(r, charges)
  {
    forall c | c in charges
      ensures ChargeOk(r.(transactionValue := value), c)
    {
      SameConversion(r, value, c.amount, c.currency);
    }
    if charges != [] {
      var last := charges[|charges| - 1];
      SameCharges(r, value, charges[..|charges| - 1]);
      SameConversion(r, value, last.amount, last.currency);
    }
  }

  lemma StillReady(r: Request, value: real)
    requires Ready(r) && r.transactionValue <= value
    ensures Ready(r.(transactionValue := value))
  {
    SameCharges(r, value, r.charges);
    ConvertedIsMonotone(r, r.transactionValue, value, r.transactionCurrency);
  }

  /** A higher transaction value never lowers customs value, duty, tax, gross or net cost. */
  lemma HigherValueNeverCheaper(r: Request, value: real)
    requires Ready(r) && r.transactionValue <= value
    ensures var r' := r.(transactionValue := value);
            && Ready(r')
            && CustomsOf(r) <= CustomsOf(r') && DutyOf(r) <= DutyOf(r') && VatOf(r) <= VatOf(r')
            && Total(Components(r), InGross) <= Total(Components(r'), InGross)
            && Total(Components(r), InGross) - Total(Components(r), InRecoverable)
               <= Total(Components(r'), InGross) - Total(Components(r'), InRecoverable)
  {
    var r' := r.(transactionValue := value);
    StillReady(r, value);
    TransactionRises(r, value);
    CustomsIs(r);
    CustomsIs(r');
    DutyRises(r, r');
    VatRises(r, r');
    GrossAndNet(r);
    GrossAndNet(r');
  }

  lemma TransactionRises(r: Request, value: real)
    requires Ready(r) && r.transactionValue <= value && Ready(r.(transactionValue := value))
    ensures var r' := r.(transactionValue := value);
            && Transaction(r).units <= Transaction(r').units
            && ChargeComponents(r', r'.charges) == ChargeComponents(r, r.charges)
  {
    SameCharges(r, value, r.charges);
    SameConversion(r, value, value, r.transactionCurrency);
    ConvertedIsMonotone(r, r.transactionValue, value, r.transactionCurrency);
  }

  lemma DutyRises(r: Request, r': Request)
    requires Ready(r) && Ready(r') && r' == r.(transactionValue := r'.transactionValue)
    requires 0 <= CustomsOf(r) <= CustomsOf(r')
    ensures 0 <= DutyOf(r) <= DutyOf(r')
  {
    DutyIsMonotone(r, r.tariff.value, CustomsOf(r), CustomsOf(r'));
    SameDuty(r, r'.transactionValue, CustomsOf(r'));
  }

  lemma SameDuty(r: Request, value: real, customs: int)
    requires r.tariff.Some? && RuleOk(r, r.tariff.value)
    ensures var r' := r.(transactionValue := value);
            RuleOk(r', r.tariff.value) && Duty(r', r.tariff.value, customs) == Duty(r, r.tariff.value, customs)
  {
    var r' := r.(transactionValue := value);
    assert Unclamped(r', r.tariff.value, Amount(customs, r.scale)) == Unclamped(r, r.tariff.value, Amount(customs, r.scale));
  }

  lemma VatRises(r: Request, r': Request)
    requires Ready(r) && Ready(r') && r' == r.(transactionValue := r'.transactionValue)
    requires 0 <= CustomsOf(r) <= CustomsOf(r') && 0 <= DutyOf(r) <= DutyOf(r')
    ensures 0 <= VatOf(r) <= VatOf(r')
  {
    NoExcise(r);
    NoExcise(r');
    VatIsMonotone(r, r.tax.value, VatBaseOf(r), VatBaseOf(r'));
    SameVat(r, r'.transactionValue, VatBaseOf(r'));
  }

  lemma SameVat(r: Request, value: real, base: int)
    requires r.tax.Some?
    ensures Vat(r.(transactionValue := value), r.tax.value, base) == Vat(r, r.tax.value, base)
  {
    assert Taxed(r.(transactionValue := value), r.tax.value, base) == Taxed(r, r.tax.value, base);
  }

  lemma GrossAndNet(r: Request)
    requires Ready(r)
    ensures Total(Components(r), InGross) ==
              Transaction(r).units + Total(ChargeComponents(r, r.charges), InGross) + DutyOf(r) + VatOf(r)
    ensures Total(Components(r), InRecoverable) ==
              Total(ChargeComponents(r, r.charges), InRecoverable)
              + If(r.tax.value.recoverability.VerifiedRecoverable?, VatOf(r))
  {
    PartTotals(r, InGross);
    PartTotals(r, InRecoverable);
  }
}
