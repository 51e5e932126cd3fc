/**
 The effective policy of an item, derived from its operational axes, and the separate validator
 of persisted policies. A hash stands for what it is the hash of.
 */
module EffectivePolicy {
  import opened Wrappers

  datatype Axis = ABC | XYZ | VED | FSN | SDE | HML | PLC
  datatype Status = Classified | Unclassified | Unverified | Synthetic | NotApplicable
  datatype Action = Allow | Review | Block
  datatype Basis = P50 | P90
  datatype Level = Auto | Standard | HighValue
  datatype Strategy = Mathematical | PredictiveMl | DeepRl

  const AXIS_ORDER: seq<Axis> := [ABC, XYZ, VED, FSN, SDE, HML, PLC]
  const LEAST: real := 0.5
  const MOST: real := 0.9999

  datatype AxisResult = AxisResult(
    status: Status, classCode: Option<string>, operational: bool, source: string, p50: Option<real>, p90: Option<real>)

  datatype Cell = Cell(segment: string, level: real, review: int, strategy: Strategy)

  datatype Overlays = Overlays(fsn: map<string, Action>, plc: map<string, Action>, sde: map<string, Basis>, hml: map<string, Level>)

  datatype Effect = NoEffect | OrderAction(action: Action) | LeadTime(basis: Basis, days: real) | Approval(level: Level)

  datatype Row = Row(axis: Axis, classCode: string, source: string, effect: Effect)

  datatype Origin = Matrix | MatrixWithFloor | NoClassification

  datatype Reason = FloorApplied | ActionReason(axis: Axis, action: Action) | LeadReason(basis: Basis) | ApprovalReason(level: Level)

  datatype Gate =
    | AxisUnavailable(axis: Axis, status: Status)
    | BaseUnclassified
    | StrategyBlocked(strategy: Strategy)
    | ActionGate(action: Action)
    | ApprovalGate(level: Level)

  datatype Body = Body(
    level: Option<real>, review: Option<int>, strategy: Option<Strategy>, origin: Origin, floor: bool,
    reasons: seq<Reason>, gates: seq<Gate>, eligible: bool, calculation: bool, evidence: bool, action: Action,
    execution: bool, noOrder: bool, basis: Option<Basis>, days: Option<real>, approval: Option<Level>,
    publish: bool, order: bool, rows: seq<Row>)

  datatype Policy = Policy(
    configHash: string, body: Body, policyHash: (string, Body), bindingHash: (string, string, (string, Body)))

  /** What a derivation takes in; the results of all seven axes are given. */
  datatype Input = Input(
    item: string, configHash: string, classified: bool, segment: Option<string>, reason: Option<string>,
    cell: Option<Cell>, floors: map<string, real>, axes: map<Axis, AxisResult>, overlays: Overlays)

  predicate ResultOk(axis: Axis, r: AxisResult) {
    match r.status
    case Classified => r.classCode.Some? && r.classCode.value != ""
    case Synthetic => if axis.PLC? then r.classCode.Some? && r.classCode.value != "" else r.classCode.None?
    case _ => r.classCode.None?
  }

  predicate AxesOk(axes: map<Axis, AxisResult>) {
    forall axis: Axis :: axis in axes && ResultOk(axis, axes[axis])
  }

  predicate Effective(r: AxisResult) {
    r.operational && r.status.Classified? && r.classCode.Some?
  }

  // The parts of a derivation.

  /** The operational axes that are not classified, in axis order. */
  function Unavailable(axes: map<Axis, AxisResult>, order: seq<Axis>): seq<Gate>
    requires forall axis: Axis :: axis in axes
  {
    if order == [] then []
    else
      var axis := order[|order| - 1];
      Unavailable(axes, order[..|order| - 1])
      + if axes[axis].operational && !axes[axis].status.Classified? then [AxisUnavailable(axis, axes[axis].status)] else []
  }

  function EffectOf(axis: Axis, code: string, r: AxisResult, overlays: Overlays): Option<Effect> {
    match axis
    case FSN => if code in overlays.fsn then Some(OrderAction(overlays.fsn[code])) else None
    case PLC => if code in overlays.plc then Some(OrderAction(overlays.plc[code])) else None
    case SDE =>
      if code !in overlays.sde || r.p50.None? || r.p90.None? || !(0.0 <= r.p50.value <= r.p90.value) then None
      else Some(LeadTime(overlays.sde[code], if overlays.sde[code].P50? then r.p50.value else r.p90.value))
    case HML => if code in overlays.hml then Some(Approval(overlays.hml[code])) else None
    case _ => Some(NoEffect)
  }

  /** One row for every effective axis, in axis order. */
  function Projection(axes: map<Axis, AxisResult>, overlays: Overlays, order: seq<Axis>): Option<seq<Row>>
    requires forall axis: Axis :: axis in axes
  {
    if order == [] then Some([])
    else
      var axis := order[|order| - 1];
      var r := axes[axis];
      match Projection(axes, overlays, order[..|order| - 1])
      case None => None
      case Some(before) =>
        if !Effective(r) then Some(before)
        else
          match EffectOf(axis, r.classCode.value, r, overlays)
          case None => None
          case Some(effect) => Some(before + [Row(axis, r.classCode.value, r.source, effect)])
  }

  method BuildProjection(axes: map<Axis, AxisResult>, overlays: Overlays) returns (rows: Option<seq<Row>>)
    requires forall axis: Axis :: axis in axes
    ensures rows == Projection(axes, overlays, AXIS_ORDER)
  {
    var built := [];
    for n := 0 to |AXIS_ORDER|
      invariant Projection(axes, overlays, AXIS_ORDER[..n]) == Some(built)
    {
      var axis := AXIS_ORDER[n];
      assert AXIS_ORDER[..n + 1][..n] == AXIS_ORDER[..n];
      var r := axes[axis];
      if Effective(r) {
        var effect := EffectOf(axis, r.classCode.value, r, overlays);
        if effect.None? {
          ProjectionStops(axes, overlays, AXIS_ORDER, n + 1);
          return None;
        }
        built := built + [Row(axis, r.classCode.value, r.source, effect.value)];
      }
    }
    assert AXIS_ORDER[..|AXIS_ORDER|] == AXIS_ORDER;
    return Some(built);
  }

  lemma {:induction false} ProjectionStops(axes: map<Axis, AxisResult>, overlays: Overlays, order: seq<Axis>, n: nat)
    requires (forall axis: Axis :: axis in axes) && n <= |order| && Projection(axes, overlays, order[..n]).None?
    ensures Projection(axes, overlays, order).None?
  {
    if n < |order| {
      assert order[..|order| - 1][..n] == order[..n];
      ProjectionStops(axes, overlays, order[..|order| - 1], n);
    } else {
      assert order[..n] == order;
    }
  }

  function EffectFor(rows: seq<Row>, axis: Axis): Option<Effect> {
    if rows == [] then None
    else if rows[|rows| - 1].axis == axis then Some(rows[|rows| - 1].effect)
    else EffectFor(rows[..|rows| - 1], axis)
  }

  function Stricter(a: Action, b: Action): Action {
    if a.Block? || b.Block? then Block else if a.Review? || b.Review? then Review else Allow
  }

  function ActionFor(rows: seq<Row>, axis: Axis): Action {
    match EffectFor(rows, axis)
    case Some(OrderAction(action)) => action
    case _ => Allow
  }

  /** The stricter of the actions that the two ordering axes ask for. */
  function Strictest(rows: seq<Row>): Action {
    Stricter(ActionFor(rows, FSN), ActionFor(rows, PLC))
  }

  function Adjustments(rows: seq<Row>, floor: bool): seq<Reason> {
    if rows == [] then (if floor then [FloorApplied] else [])
    else
      var last := rows[|rows| - 1];
      Adjustments(rows[..|rows| - 1], floor)
      + match last.effect
        case OrderAction(action) => [ActionReason(last.axis, action)]
        case LeadTime(basis, _) => [LeadReason(basis)]
        case Approval(level) => [ApprovalReason(level)]
        case NoEffect => []
  }

  /** The gates behind those of the axes. */
  function LaterGates(classified: bool, strategy: Option<Strategy>, action: Action, approval: Option<Level>): seq<Gate> {
    (if classified then [] else [BaseUnclassified])
    + (if strategy.Some? && !strategy.value.Mathematical? then [StrategyBlocked(strategy.value)] else [])
    + (if action.Allow? then [] else [ActionGate(action)])
    + (if approval.Some? && !approval.value.Auto? then [ApprovalGate(approval.value)] else [])
  }

  datatype Base = Base(level: Option<real>, review: Option<int>, strategy: Option<Strategy>, origin: Origin, floor: bool)

  function ClassOf(axes: map<Axis, AxisResult>, axis: Axis): Option<string>
    requires axis in axes
  {
    if Effective(axes[axis]) then axes[axis].classCode else None
  }

  function BaseOf(i: Input): Option<Base>
    requires AxesOk(i.axes)
  {
    if !i.classified then
      if i.segment.None? && i.cell.None? && i.reason.Some? && i.reason.value != "" then
        Some(Base(None, None, None, NoClassification, false))
      else None
    else if i.segment.None? || i.cell.None? || i.reason.Some? || i.cell.value.segment != i.segment.value then None
    else
      var abc, xyz, ved := ClassOf(i.axes, ABC), ClassOf(i.axes, XYZ), ClassOf(i.axes, VED);
      var cell := i.cell.value;
      if abc.Some? && xyz.Some? && abc.value + xyz.value != i.segment.value then None
      else if !(LEAST <= cell.level <= MOST) || !(1 <= cell.review <= 13) || (ved.Some? && ved.value !in i.floors) then None
      else
        var floor := ved.Some? && i.floors[ved.value] > cell.level;
        Some(Base(Some(if floor then i.floors[ved.value] else cell.level), Some(cell.review), Some(cell.strategy),
                  if floor then MatrixWithFloor else Matrix, floor))
  }

  function BasisFor(rows: seq<Row>): Option<Basis> {
    match EffectFor(rows, SDE)
    case Some(LeadTime(basis, _)) => Some(basis)
    case _ => None
  }

  function DaysFor(rows: seq<Row>): Option<real> {
    match EffectFor(rows, SDE)
    case Some(LeadTime(_, days)) => Some(days)
    case _ => None
  }

  function ApprovalFor(rows: seq<Row>): Option<Level> {
    match EffectFor(rows, HML)
    case Some(Approval(level)) => Some(level)
    case _ => None
  }

  function BodyOf(i: Input, base: Base, rows: seq<Row>): Body
    requires AxesOk(i.axes)
  {
    var unavailable := Unavailable(i.axes, AXIS_ORDER);
    var eligible := i.classified && unavailable == [] && base.strategy == Some(Mathematical);
    var action := if eligible then Strictest(rows) else Block;
    var approval := ApprovalFor(rows);
    var publish := eligible && action.Allow?;
    var order := publish && (approval.None? || approval.value.Auto?);
    Body(base.level, base.review, base.strategy, base.origin, base.floor,
         Adjustments(rows, base.floor), unavailable + LaterGates(i.classified, base.strategy, action, approval),
         eligible, eligible && !action.Block?, true, action, order, action.Block?,
         BasisFor(rows), DaysFor(rows), approval, publish, order, rows)
  }

  function Sealed(item: string, configHash: string, body: Body): Policy {
    Policy(configHash, body, (item, body), (item, configHash, (item, body)))
  }

  function Derive(i: Input): Option<Policy> {
    if !AxesOk(i.axes) then None
    else
      match (BaseOf(i), Projection(i.axes, i.overlays, AXIS_ORDER))
      case (Some(base), Some(rows)) => Some(Sealed(i.item, i.configHash, BodyOf(i, base, rows)))
      case _ => None
  }

  // The validator of persisted policies.

  function IndexOf(axis: Axis): nat {
    match axis case ABC => 0 case XYZ => 1 case VED => 2 case FSN => 3 case SDE => 4 case HML => 5 case PLC => 6
  }

  predicate KindOk(r: Row) {
    match r.axis
    case FSN => r.effect.OrderAction?
    case PLC => r.effect.OrderAction?
    case SDE => r.effect.LeadTime?
    case HML => r.effect.Approval?
    case _ => r.effect.NoEffect?
  }

  /** Each axis at most once, in order, with an effect of its kind. */
  predicate RowsOk(rows: seq<Row>) {
    && (forall j, k :: 0 <= j < k < |rows| ==> IndexOf(rows[j].axis) < IndexOf(rows[k].axis))
    && forall k :: 0 <= k < |rows| ==> KindOk(rows[k])
  }

  /** The gates that name an axis which is not classified. */
  function SourceGates(gates: seq<Gate>): seq<Gate> {
    if gates == [] then []
    else
      var last := gates[|gates| - 1];
      SourceGates(gates[..|gates| - 1]) + if last.AxisUnavailable? && !last.status.Classified? then [last] else []
  }

  predicate InAxisOrder(gates: seq<Gate>) {
    forall j, k :: 0 <= j < k < |gates| && gates[j].AxisUnavailable? && gates[k].AxisUnavailable? ==>
      IndexOf(gates[j].axis) <= IndexOf(gates[k].axis)
  }

  predicate SemanticsOk(b: Body) {
    var classified := !b.origin.NoClassification?;
    var expected := if b.eligible then Strictest(b.rows) else Block;
    var sources := SourceGates(b.gates);
    && b.evidence
    && (if classified then
          b.level.Some? && LEAST <= b.level.value <= MOST && b.review.Some? && 1 <= b.review.value <= 13 && b.strategy.Some?
        else b.level.None? && b.review.None? && b.strategy.None? && !b.eligible)
    && b.action == expected
    && b.calculation == (b.eligible && !expected.Block?) && b.noOrder == expected.Block?
    && b.publish == (b.eligible && expected.Allow?)
    && b.order == (b.publish && (b.approval.None? || b.approval.value.Auto?)) && b.execution == b.order
    && b.basis == BasisFor(b.rows) && b.days == DaysFor(b.rows) && b.approval == ApprovalFor(b.rows)
    && b.reasons == Adjustments(b.rows, b.floor)
    && InAxisOrder(sources)
    && b.gates == sources + LaterGates(classified, b.strategy, expected, b.approval)
    && (b.eligible || sources != [] || !classified || (b.strategy.Some? && !b.strategy.value.Mathematical?))
  }

  predicate Valid(item: string, p: Policy) {
    && RowsOk(p.body.rows) && SemanticsOk(p.body)
    && p.policyHash == (item, p.body) && p.bindingHash == (item, p.configHash, p.policyHash)
  }

  // What a derivation gives the validator.

  predicate Increasing(order: seq<Axis>) {
    forall j, k :: 0 <= j < k < |order| ==> IndexOf(order[j]) < IndexOf(order[k])
  }

  lemma AxisOrderIncreases()
    ensures Increasing(AXIS_ORDER)
  {
    assert forall k :: 0 <= k < |AXIS_ORDER| ==> IndexOf(AXIS_ORDER[k]) == k;
  }

  lemma BeforeTheLast(order: seq<Axis>, axis: Axis)
    requires order != [] && Increasing(order) && axis in order[..|order| - 1]
    ensures IndexOf(axis) < IndexOf(order[|order| - 1])
  {
    var j :| 0 <= j < |order| - 1 && order[j] == axis;
    assert IndexOf(order[j]) < IndexOf(order[|order| - 1]);
  }

  lemma RowsOkAfter(rows: seq<Row>, last: Row)
    requires RowsOk(rows) && KindOk(last)
    requires forall k :: 0 <= k < |rows| ==> IndexOf(rows[k].axis) < IndexOf(last.axis)
    ensures RowsOk(rows + [last])
  {
  }

  lemma {:induction false} ProjectionIsOk(axes: map<Axis, AxisResult>, overlays: Overlays, order: seq<Axis>)
    requires (forall axis: Axis :: axis in axes) && Increasing(order) && Projection(axes, overlays, order).Some?
    ensures RowsOk(Projection(axes, overlays, order).value)
    ensures forall r :: r in Projection(axes, overlays, order).value ==> r.axis in order
  {
    if order != [] {
      var before, axis := order[..|order| - 1], order[|order| - 1];
      ProjectionIsOk(axes, overlays, before);
      var rows := Projection(axes, overlays, before).value;
      if Effective(axes[axis]) {
        forall k | 0 <= k < |rows|
          ensures IndexOf(rows[k].axis) < IndexOf(axis)
        {
          assert rows[k] in rows;
          BeforeTheLast(order, rows[k].axis);
        }
        var code := axes[axis].classCode.value;
        RowsOkAfter(rows, Row(axis, code, axes[axis].source, EffectOf(axis, code, axes[axis], overlays).value));
      }
    }
  }

  /** Which gates the axes of an order give rise to. */
  predicate FromAxes(gates: seq<Gate>, order: seq<Axis>) {
    forall k :: 0 <= k < |gates| ==> gates[k].AxisUnavailable? && !gates[k].status.Classified? && gates[k].axis in order
  }

  lemma {:induction false} UnavailableFromAxes(axes: map<Axis, AxisResult>, order: seq<Axis>)
    requires forall axis: Axis :: axis in axes
    ensures FromAxes(Unavailable(axes, order), order)
  {
    if order != [] {
      UnavailableFromAxes(axes, order[..|order| - 1]);
    }
  }

  lemma {:induction false} OnlySourceGates(gates: seq<Gate>, order: seq<Axis>)
    requires FromAxes(gates, order)
    ensures SourceGates(gates) == gates
  {
    if gates != [] {
      OnlySourceGates(gates[..|gates| - 1], order);
      assert gates == gates[..|gates| - 1] + [gates[|gates| - 1]];
    }
  }

  lemma {:induction false} UnavailableInOrder(axes: map<Axis, AxisResult>, order: seq<Axis>)
    requires (forall axis: Axis :: axis in axes) && Increasing(order)
    ensures InAxisOrder(Unavailable(axes, order))
  {
    if order != [] {
      var before, axis := order[..|order| - 1], order[|order| - 1];
      UnavailableInOrder(axes, before);
      UnavailableFromAxes(axes, before);
      var gates := Unavailable(axes, before);
      if axes[axis].operational && !axes[axis].status.Classified? {
        forall k | 0 <= k < |gates|
          ensures IndexOf(gates[k].axis) < IndexOf(axis)
        {
          BeforeTheLast(order, gates[k].axis);
        }
        InOrderAfter(gates, AxisUnavailable(axis, axes[axis].status));
      } else {
        assert Unavailable(axes, order) == gates;
      }
    }
  }

  lemma InOrderAfter(gates: seq<Gate>, last: Gate)
    requires InAxisOrder(gates) && last.AxisUnavailable?
    requires forall k :: 0 <= k < |gates| ==> gates[k].AxisUnavailable? && IndexOf(gates[k].axis) < IndexOf(last.axis)
    ensures InAxisOrder(gates + [last])
  {
  }

  lemma {:induction false} SourceGatesJoin(a: seq<Gate>, b: seq<Gate>)
    ensures SourceGates(a + b) == SourceGates(a) + SourceGates(b)
  {
    if b == [] {
      assert a + b == a;
    } else {
      SourceGatesJoin(a, b[..|b| - 1]);
      assert (a + b)[..|a + b| - 1] == a + b[..|b| - 1];
    }
  }

  lemma {:induction false} NoSourceGates(b: seq<Gate>)
    requires forall g :: g in b ==> !g.AxisUnavailable?
    ensures SourceGates(b) == []
  {
    if b != [] {
      NoSourceGates(b[..|b| - 1]);
    }
  }

  /** A reader of the gates finds again the ones that name an axis. */
  lemma SourcesAreSplit(axes: map<Axis, AxisResult>, order: seq<Axis>, later: seq<Gate>)
    requires (forall axis: Axis :: axis in axes) && forall g :: g in later ==> !g.AxisUnavailable?
    ensures SourceGates(Unavailable(axes, order) + later) == Unavailable(axes, order)
  {
    UnavailableFromAxes(axes, order);
    OnlySourceGates(Unavailable(axes, order), order);
    SourceGatesJoin(Unavailable(axes, order), later);
    NoSourceGates(later);
  }

  lemma LaterGatesNameNoAxis(classified: bool, strategy: Option<Strategy>, action: Action, approval: Option<Level>)
    ensures forall g :: g in LaterGates(classified, strategy, action, approval) ==> !g.AxisUnavailable?
  {
  }

  /** The service level that an operational VED class asks for is one a policy may have. */
  predicate FloorWithin(i: Input)
    requires AxesOk(i.axes)
  {
    var ved := ClassOf(i.axes, VED);
    i.classified && ved.Some? && ved.value in i.floors ==> i.floors[ved.value] <= MOST
  }

  lemma BaseIsOk(i: Input)
    requires AxesOk(i.axes) && BaseOf(i).Some?
    ensures var b := BaseOf(i).value;
            && (i.classified <==> !b.origin.NoClassification?)
            && (i.classified ==>
                  && b.level.Some? && b.level.value >= LEAST && b.review.Some? && 1 <= b.review.value <= 13 && b.strategy.Some?
                  && (b.level.value <= MOST <==> FloorWithin(i)))
            && (!i.classified ==> b.level.None? && b.review.None? && b.strategy.None? && FloorWithin(i))
  {
  }

  /**
   A derived policy passes the validator exactly when the floor of its operational VED class
   is within the service levels of a policy: the derivation never checks the floor itself.
   */
  lemma DerivedIsValid(i: Input)
    requires Derive(i).Some?
    ensures Valid(i.item, Derive(i).value) <==> FloorWithin(i)
  {
    var base, rows := BaseOf(i).value, Projection(i.axes, i.overlays, AXIS_ORDER).value;
    BaseIsOk(i);
    AxisOrderIncreases();
    ProjectionIsOk(i.axes, i.overlays, AXIS_ORDER);
    UnavailableInOrder(i.axes, AXIS_ORDER);
    var b := BodyOf(i, base, rows);
    LaterGatesNameNoAxis(i.classified, base.strategy, b.action, b.approval);
    SourcesAreSplit(i.axes, AXIS_ORDER, LaterGates(i.classified, base.strategy, b.action, b.approval));
  }

  // What a derivation depends on.

  /** The same operational results; the other axes may differ. */
  predicate SameOperational(axes: map<Axis, AxisResult>, axes': map<Axis, AxisResult>)
    requires (forall axis: Axis :: axis in axes) && (forall axis: Axis :: axis in axes')
  {
    forall axis: Axis :: axes[axis].operational == axes'[axis].operational && (axes[axis].operational ==> axes[axis] == axes'[axis])
  }

  lemma {:induction false} SameProjection(axes: map<Axis, AxisResult>, axes': map<Axis, AxisResult>, overlays: Overlays, order: seq<Axis>)
    requires (forall axis: Axis :: axis in axes) && (forall axis: Axis :: axis in axes') && SameOperational(axes, axes')
    ensures Projection(axes, overlays, order) == Projection(axes', overlays, order)
    ensures Unavailable(axes, order) == Unavailable(axes', order)
  {
    if order != [] {
      SameProjection(axes, axes', overlays, order[..|order| - 1]);
      assert axes[order[|order| - 1]].operational == axes'[order[|order| - 1]].operational;
    }
  }

  /** Shadow results and the configuration hash change nothing but the two configuration hashes. */
  lemma ShadowIsIrrelevant(i: Input, i': Input)
    requires AxesOk(i.axes) && AxesOk(i'.axes) && SameOperational(i.axes, i'.axes)
    requires i' == i.(configHash := i'.configHash, axes := i'.axes)
    ensures Derive(i).Some? <==> Derive(i').Some?
    ensures Derive(i).Some? ==>
              Derive(i').value.body == Derive(i).value.body && Derive(i').value.policyHash == Derive(i).value.policyHash
  {
    SameProjection(i.axes, i'.axes, i.overlays, AXIS_ORDER);
    SameBase(i, i');
  }

  lemma SameBase(i: Input, i': Input)
    requires AxesOk(i.axes) && AxesOk(i'.axes) && SameOperational(i.axes, i'.axes)
    requires i' == i.(configHash := i'.configHash, axes := i'.axes)
    ensures BaseOf(i) == BaseOf(i')
  {
    forall axis: Axis
      ensures ClassOf(i.axes, axis) == ClassOf(i'.axes, axis)
    {
      assert i.axes[axis].operational == i'.axes[axis].operational;
    }
  }

  /** A policy that may order by itself is never one that was gated. */
  lemma OrderMeansUngated(i: Input)
    requires Derive(i).Some? && Derive(i).value.body.order
    ensures Derive(i).value.body.gates == [] && i.classified
    ensures forall axis: Axis :: i.axes[axis].operational ==> i.axes[axis].status.Classified?
  {
    forall axis: Axis | i.axes[axis].operational
      ensures i.axes[axis].status.Classified?
    {
      NothingUnavailable(i.axes, AXIS_ORDER, IndexOf(axis));
      assert AXIS_ORDER[IndexOf(axis)] == axis;
    }
  }

  lemma {:induction false} NothingUnavailable(axes: map<Axis, AxisResult>, order: seq<Axis>, k: nat)
    requires (forall axis: Axis :: axis in axes) && Unavailable(axes, order) == [] && k < |order|
    ensures axes[order[k]].operational ==> axes[order[k]].status.Classified?
  {
    if k < |order| - 1 {
      NothingUnavailable(axes, order[..|order| - 1], k);
    }
  }

  // What a derived policy says of each axis.

  /** The one row of an axis. */
  predicate HasRow(rows: seq<Row>, row: Row) {
    row in rows && forall r :: r in rows && r.axis == row.axis ==> r == row
  }

  predicate NoRow(rows: seq<Row>, axis: Axis) {
    forall row :: row in rows ==> row.axis != axis
  }

  lemma RowAppended(rows: seq<Row>, last: Row, row: Row)
    ensures HasRow(rows, row) && last.axis != row.axis ==> HasRow(rows + [last], row)
    ensures NoRow(rows, last.axis) ==> HasRow(rows + [last], last)
  {
  }

  lemma NoRowAppended(rows: seq<Row>, last: Row, axis: Axis)
    requires NoRow(rows, axis) && last.axis != axis
    ensures NoRow(rows + [last], axis)
  {
  }

  function RowFor(axes: map<Axis, AxisResult>, overlays: Overlays, axis: Axis): Option<Row>
    requires axis in axes
  {
    var r := axes[axis];
    if !Effective(r) || EffectOf(axis, r.classCode.value, r, overlays).None? then None
    else Some(Row(axis, r.classCode.value, r.source, EffectOf(axis, r.classCode.value, r, overlays).value))
  }

  lemma {:induction false} NoRowOfOthers(axes: map<Axis, AxisResult>, overlays: Overlays, order: seq<Axis>, axis: Axis)
    requires (forall a: Axis :: a in axes) && Projection(axes, overlays, order).Some?
    requires axis !in order || !Effective(axes[axis])
    ensures NoRow(Projection(axes, overlays, order).value, axis)
  {
    if order != [] {
      var before, last := order[..|order| - 1], order[|order| - 1];
      NoRowOfOthers(axes, overlays, before, axis);
      if Effective(axes[last]) {
        NoRowAppended(Projection(axes, overlays, before).value, RowFor(axes, overlays, last).value, axis);
      }
    }
  }

  lemma {:induction false} RowOfAxis(axes: map<Axis, AxisResult>, overlays: Overlays, order: seq<Axis>, axis: Axis)
    requires (forall a: Axis :: a in axes) && Increasing(order) && Projection(axes, overlays, order).Some?
    requires axis in order && Effective(axes[axis])
    ensures RowFor(axes, overlays, axis).Some? && HasRow(Projection(axes, overlays, order).value, RowFor(axes, overlays, axis).value)
  {
    var before, last := order[..|order| - 1], order[|order| - 1];
    var rows := Projection(axes, overlays, before).value;
    if axis == last {
      if axis in before {
        BeforeTheLast(order, axis);
      }
      NoRowOfOthers(axes, overlays, before, axis);
      RowAppended(rows, RowFor(axes, overlays, last).value, RowFor(axes, overlays, last).value);
    } else {
      RowOfAxis(axes, overlays, before, axis);
      if Effective(axes[last]) {
        RowAppended(rows, RowFor(axes, overlays, last).value, RowFor(axes, overlays, axis).value);
      }
    }
  }

  lemma {:induction false} EffectForRow(rows: seq<Row>, row: Row)
    requires HasRow(rows, row)
    ensures EffectFor(rows, row.axis) == Some(row.effect)
  {
    var before, last := rows[..|rows| - 1], rows[|rows| - 1];
    assert rows == before + [last] && last in rows;
    if last.axis != row.axis {
      assert row in before;
      EffectForRow(before, row);
    }
  }

  lemma {:induction false} NoEffectFor(rows: seq<Row>, axis: Axis)
    requires forall row :: row in rows ==> row.axis != axis
    ensures EffectFor(rows, axis) == None
  {
    if rows != [] {
      NoEffectFor(rows[..|rows| - 1], axis);
    }
  }

  lemma EffectOfAxis(i: Input, axis: Axis)
    requires Derive(i).Some?
    ensures EffectFor(Derive(i).value.body.rows, axis) ==
              if Effective(i.axes[axis]) then EffectOf(axis, i.axes[axis].classCode.value, i.axes[axis], i.overlays) else None
    ensures Effective(i.axes[axis]) ==> EffectFor(Derive(i).value.body.rows, axis).Some?
  {
    var rows := Derive(i).value.body.rows;
    AxisOrderIncreases();
    assert AXIS_ORDER[IndexOf(axis)] == axis;
    if Effective(i.axes[axis]) {
      RowOfAxis(i.axes, i.overlays, AXIS_ORDER, axis);
      EffectForRow(rows, RowFor(i.axes, i.overlays, axis).value);
    } else {
      NoRowOfOthers(i.axes, i.overlays, AXIS_ORDER, axis);
      NoEffectFor(rows, axis);
    }
  }

  /** An axis counts when it is operational and classified; then its class asks for an action. */
  predicate Asks(i: Input, axis: Axis, action: Action)
    requires axis in i.axes
  {
    var r := i.axes[axis];
    && r.operational && r.status == Classified && r.classCode.Some?
    && ((axis == FSN && r.classCode.value in i.overlays.fsn && i.overlays.fsn[r.classCode.value] == action)
        || (axis == PLC && r.classCode.value in i.overlays.plc && i.overlays.plc[r.classCode.value] == action))
  }

  /** Eligible: classified, every operational axis classified, and a mathematical strategy. */
  predicate MayOrder(i: Input) {
    && i.classified && i.cell.Some? && i.cell.value.strategy == Mathematical
    && forall axis: Axis :: axis in i.axes && (i.axes[axis].operational ==> i.axes[axis].status == Classified)
  }

  lemma {:induction false} AllAvailable(axes: map<Axis, AxisResult>, order: seq<Axis>)
    requires forall axis: Axis :: axis in axes
    requires forall k :: 0 <= k < |order| ==> (axes[order[k]].operational ==> axes[order[k]].status.Classified?)
    ensures Unavailable(axes, order) == []
  {
    if order != [] {
      AllAvailable(axes, order[..|order| - 1]);
    }
  }

  lemma EligibleIs(i: Input)
    requires Derive(i).Some?
    ensures Derive(i).value.body.eligible <==> MayOrder(i)
  {
    if MayOrder(i) {
      AllAvailable(i.axes, AXIS_ORDER);
    }
    if Derive(i).value.body.eligible {
      forall axis: Axis
        ensures i.axes[axis].operational ==> i.axes[axis].status == Classified
      {
        NothingUnavailable(i.axes, AXIS_ORDER, IndexOf(axis));
        assert AXIS_ORDER[IndexOf(axis)] == axis;
      }
    }
  }

  /** Blocking beats a review, and a review beats an approval; an item that may not order is blocked. */
  lemma ActionIs(i: Input)
    requires Derive(i).Some?
    ensures var action := Derive(i).value.body.action;
            && (action == Block <==> !MayOrder(i) || Asks(i, FSN, Block) || Asks(i, PLC, Block))
            && (action == Review <==>
                  && MayOrder(i) && !Asks(i, FSN, Block) && !Asks(i, PLC, Block)
                  && (Asks(i, FSN, Review) || Asks(i, PLC, Review)))
  {
    EligibleIs(i);
    EffectOfAxis(i, FSN);
    EffectOfAxis(i, PLC);
  }

  /** The lead time is the quantile that the class of the SDE axis is protected by. */
  lemma LeadTimeIs(i: Input)
    requires Derive(i).Some?
    ensures var b, r := Derive(i).value.body, i.axes[SDE];
            if Effective(r) then
              && r.classCode.value in i.overlays.sde && b.basis == Some(i.overlays.sde[r.classCode.value])
              && (b.basis == Some(P50) ==> b.days == r.p50) && (b.basis == Some(P90) ==> b.days == r.p90)
            else b.basis == None && b.days == None
  {
    EffectOfAxis(i, SDE);
  }

  lemma ApprovalIs(i: Input)
    requires Derive(i).Some?
    ensures var b, r := Derive(i).value.body, i.axes[HML];
            if Effective(r) then r.classCode.value in i.overlays.hml && b.approval == Some(i.overlays.hml[r.classCode.value])
            else b.approval == None
  {
    EffectOfAxis(i, HML);
  }

  /** Nothing orders by itself but an allowed item whose approval is automatic. */
  lemma AutomaticIs(i: Input)
    requires Derive(i).Some?
    ensures var b := Derive(i).value.body;
            && (b.publish <==> b.action == Allow) && (b.order <==> b.action == Allow && b.approval in {None, Some(Auto)})
            && b.execution == b.order && (b.noOrder <==> b.action == Block) && (b.calculation <==> b.action != Block)
  {
    EligibleIs(i);
  }

  /** The service level is that of the cell, or the floor of the operational VED class where that is higher. */
  lemma ServiceLevelIs(i: Input)
    requires Derive(i).Some? && i.classified
    ensures var b, r := Derive(i).value.body, i.axes[VED];
            && i.cell.Some? && b.level.Some? && b.review == Some(i.cell.value.review) && b.strategy == Some(i.cell.value.strategy)
            && b.level.value >= i.cell.value.level
            && (!Effective(r) ==> b.level.value == i.cell.value.level && b.origin == Matrix)
            && (Effective(r) ==>
                  && r.classCode.value in i.floors && b.level.value >= i.floors[r.classCode.value]
                  && b.level.value in {i.cell.value.level, i.floors[r.classCode.value]}
                  && (b.origin == MatrixWithFloor <==> i.floors[r.classCode.value] > i.cell.value.level))
  {
  }

  lemma {:induction false} ProjectionAccepts(axes: map<Axis, AxisResult>, overlays: Overlays, order: seq<Axis>)
    requires forall axis: Axis :: axis in axes
    ensures Projection(axes, overlays, order).Some? <==>
              forall axis :: axis in order && Effective(axes[axis]) ==> EffectOf(axis, axes[axis].classCode.value, axes[axis], overlays).Some?
  {
    if order != [] {
      ProjectionAccepts(axes, overlays, order[..|order| - 1]);
      assert order == order[..|order| - 1] + [order[|order| - 1]];
    }
  }

  predicate OverlayHas(i: Input, axis: Axis)
    requires axis in i.axes && Effective(i.axes[axis])
  {
    var r := i.axes[axis];
    var code := r.classCode.value;
    && (axis == FSN ==> code in i.overlays.fsn) && (axis == PLC ==> code in i.overlays.plc) && (axis == HML ==> code in i.overlays.hml)
    && (axis == SDE ==> code in i.overlays.sde && r.p50.Some? && r.p90.Some? && 0.0 <= r.p50.value <= r.p90.value)
  }

  /** A policy is derived exactly when the classification is consistent and every effective class is configured. */
  lemma DeriveAccepts(i: Input)
    requires AxesOk(i.axes)
    ensures Derive(i).Some? <==>
              && (forall axis: Axis :: Effective(i.axes[axis]) ==> OverlayHas(i, axis))
              && if i.classified then
                   && i.segment.Some? && i.cell.Some? && i.reason.None? && i.cell.value.segment == i.segment.value
                   && (Effective(i.axes[ABC]) && Effective(i.axes[XYZ]) ==>
                         i.axes[ABC].classCode.value + i.axes[XYZ].classCode.value == i.segment.value)
                   && 0.5 <= i.cell.value.level <= 0.9999 && 1 <= i.cell.value.review <= 13
                   && (Effective(i.axes[VED]) ==> i.axes[VED].classCode.value in i.floors)
                 else i.segment.None? && i.cell.None? && i.reason.Some? && i.reason.value != ""
  {
    ProjectionAccepts(i.axes, i.overlays, AXIS_ORDER);
    forall axis: Axis
      ensures axis in AXIS_ORDER
    {
      assert AXIS_ORDER[IndexOf(axis)] == axis;
    }
  }

  lemma {:induction false} UnavailableIs(axes: map<Axis, AxisResult>, order: seq<Axis>, axis: Axis, status: Status)
    requires forall a: Axis :: a in axes
    ensures AxisUnavailable(axis, status) in Unavailable(axes, order) <==>
              axis in order && axes[axis].operational && axes[axis].status == status && status != Classified
  {
    if order != [] {
      UnavailableIs(axes, order[..|order| - 1], axis, status);
      assert order == order[..|order| - 1] + [order[|order| - 1]];
    }
  }

  /** Why an item is gated: each reason is listed exactly when it holds. */
  lemma GatesAre(i: Input, gate: Gate)
    requires Derive(i).Some?
    ensures var b := Derive(i).value.body;
            gate in b.gates <==>
              match gate
              case AxisUnavailable(axis, status) => i.axes[axis].operational && i.axes[axis].status == status && status != Classified
              case BaseUnclassified => !i.classified
              case StrategyBlocked(strategy) => b.strategy == Some(strategy) && strategy != Mathematical
              case ActionGate(action) => b.action == action && action != Allow
              case ApprovalGate(level) => b.approval == Some(level) && level != Auto
  {
    UnavailableFromAxes(i.axes, AXIS_ORDER);
    if gate.AxisUnavailable? {
      UnavailableIs(i.axes, AXIS_ORDER, gate.axis, gate.status);
      assert AXIS_ORDER[IndexOf(gate.axis)] == gate.axis;
    } else {
      var unavailable := Unavailable(i.axes, AXIS_ORDER);
      assert forall k :: 0 <= k < |unavailable| ==> unavailable[k] != gate;
    }
  }

  lemma {:induction false} AdjustmentsAre(rows: seq<Row>, floor: bool, reason: Reason)
    ensures reason in Adjustments(rows, floor) <==>
              match reason
              case FloorApplied => floor
              case ActionReason(axis, action) => exists r :: r in rows && r.axis == axis && r.effect == OrderAction(action)
              case LeadReason(basis) => exists r :: r in rows && r.effect.LeadTime? && r.effect.basis == basis
              case ApprovalReason(level) => exists r :: r in rows && r.effect == Approval(level)
  {
    if rows != [] {
      var before, last := rows[..|rows| - 1], rows[|rows| - 1];
      AdjustmentsAre(before, floor, reason);
      assert rows == before + [last];
    }
  }

  /** The validator leaves nothing of a policy open but its base, its rows and the axes it names as unavailable. */
  lemma ValidIsDetermined(item: string, p: Policy, p': Policy)
    requires Valid(item, p) && Valid(item, p') && p.configHash == p'.configHash
    requires var b, b' := p.body, p'.body;
             && b.level == b'.level && b.review == b'.review && b.strategy == b'.strategy && b.origin == b'.origin && b.floor == b'.floor
             && b.eligible == b'.eligible && b.rows == b'.rows && SourceGates(b.gates) == SourceGates(b'.gates)
    ensures p == p'
  {
  }

  /** A valid policy orders nothing by itself unless its rows allow it and its approval is automatic. */
  lemma ValidIsSafe(item: string, p: Policy)
    requires Valid(item, p) && (p.body.order || p.body.execution)
    ensures p.body.eligible && p.body.publish && p.body.calculation && !p.body.noOrder && p.body.action == Allow
    ensures p.body.approval in {None, Some(Auto)}
    ensures forall row :: row in p.body.rows && row.effect.OrderAction? && EffectFor(p.body.rows, row.axis) == Some(row.effect) ==>
              row.axis in {FSN, PLC} && row.effect.action == Allow
  {
    forall row | row in p.body.rows && row.effect.OrderAction? && EffectFor(p.body.rows, row.axis) == Some(row.effect)
      ensures row.axis in {FSN, PLC} && row.effect.action == Allow
    {
      var k :| 0 <= k < |p.body.rows| && p.body.rows[k] == row;
      assert KindOk(p.body.rows[k]);
    }
  }

  /** The validator does not tie eligibility to the gates: a valid policy that orders by itself is ungated exactly in this case. */
  lemma UngatedIs(item: string, p: Policy)
    requires Valid(item, p) && p.body.order
    ensures p.body.gates == [] <==> SourceGates(p.body.gates) == [] && p.body.strategy == Some(Mathematical)
  {
  }

  /** A policy that a derivation never gives, and the validator accepts. */
  function GatedPolicy(item: string, configHash: string): Policy {
    Sealed(item, configHash,
           Body(Some(0.9), Some(1), Some(DeepRl), Matrix, false, [], [StrategyBlocked(DeepRl)], true, true, true, Allow,
                true, false, None, None, None, true, true, []))
  }

  lemma GatedPolicyIsValid(item: string, configHash: string)
    ensures Valid(item, GatedPolicy(item, configHash)) && GatedPolicy(item, configHash).body.order
    ensures StrategyBlocked(DeepRl) in GatedPolicy(item, configHash).body.gates
  {
    var gates := [StrategyBlocked(DeepRl)];
    assert gates[..0] == [];
    assert SourceGates(gates) == [];
  }
}
