/** Observations stored as references to one shared source, and expanded again through an index by item. */
module ObservationStorage {
  import opened Wrappers
  import opened TextOrder

  type Id = string
  type Date = int
  type Payload = string

  datatype Policy = Policy(item: Id, from: Date, until: Date, id: string, payload: Payload)
  datatype Control = Control(item: Id, payload: Payload)
  datatype Demand = Demand(item: Id, uom: string, week: int, payload: Payload)
  datatype Position = Position(item: Id, payload: Payload)
  datatype Decision = Decision(item: Id, payload: Payload)
  datatype Rule = Rule(uom: string, payload: Payload)
  datatype Bucket = Bucket(start: Date, week: int, payload: Payload)

  /** The fields that every observation copies from the source as they are. */
  datatype Shared = Shared(context: Payload, strategy: Payload, approval: Payload, actions: Payload, capacity: Payload, binding: Option<Payload>)

  datatype Source = Source(
    calendar: seq<Bucket>, policies: seq<Policy>, controls: seq<Control>, demands: seq<Demand>,
    positions: seq<Position>, decisions: seq<Decision>, rules: seq<Rule>, shared: Shared)

  datatype Reference = Reference(
    decision: string, inputHash: string, item: Id, uom: string, date: Date, bucket: Bucket, state: Payload, pending: Payload)

  datatype Observation =
    | Compact(ref: Reference)
    | Expanded(ref: Reference, shared: Shared, calendar: seq<Bucket>, future: seq<Demand>, policy: Policy,
               schedule: seq<Policy>, control: Control, rule: Rule)

  function CompactObservation(o: Observation): Observation {
    Compact(o.ref)
  }

  // Rows of one item.

  function Of<T>(rows: seq<T>, itemOf: T -> Id, item: Id): seq<T> {
    if rows == [] then []
    else if itemOf(rows[|rows| - 1]) == item then Of(rows[..|rows| - 1], itemOf, item) + [rows[|rows| - 1]]
    else Of(rows[..|rows| - 1], itemOf, item)
  }

  /** Picking the rows of an item from its own rows picks all of them. */
  lemma {:induction false} OfTwice<T>(rows: seq<T>, itemOf: T -> Id, item: Id)
    ensures Of(Of(rows, itemOf, item), itemOf, item) == Of(rows, itemOf, item)
  {
    if rows != [] {
      var own := Of(rows[..|rows| - 1], itemOf, item);
      OfTwice(rows[..|rows| - 1], itemOf, item);
      assert (own + [rows[|rows| - 1]])[..|own|] == own;
    }
  }

  type Groups<T> = map<Id, seq<T>>

  function Group<T>(groups: Groups<T>, item: Id): seq<T> {
    if item in groups then groups[item] else []
  }

  /** Appends every row to the group of its item, in the order of the rows. */
  method GroupByItem<T>(rows: seq<T>, itemOf: T -> Id) returns (groups: Groups<T>)
    ensures forall item :: Group(groups, item) == Of(rows, itemOf, item)
  {
    groups := map[];
    for n := 0 to |rows|
      invariant forall item :: Group(groups, item) == Of(rows[..n], itemOf, item)
    {
      var item := itemOf(rows[n]);
      assert rows[..n + 1][..n] == rows[..n];
      groups := groups[item := Group(groups, item) + [rows[n]]];
    }
    assert rows[..|rows|] == rows;
  }

  function PolicyItem(): Policy -> Id { (r: Policy) => r.item }
  function ControlItem(): Control -> Id { (r: Control) => r.item }
  function DemandItem(): Demand -> Id { (r: Demand) => r.item }
  function PositionItem(): Position -> Id { (r: Position) => r.item }
  function DecisionItem(): Decision -> Id { (r: Decision) => r.item }

  datatype Indexes = Indexes(
    policies: Groups<Policy>, controls: Groups<Control>, demands: Groups<Demand>, positions: Groups<Position>, decisions: Groups<Decision>)

  /** The source with only the rows of one item, and all rows that are not by item. */
  function ItemSource(source: Source, indexes: Indexes, item: Id): Source {
    source.(policies := Group(indexes.policies, item), controls := Group(indexes.controls, item),
            demands := Group(indexes.demands, item), positions := Group(indexes.positions, item),
            decisions := Group(indexes.decisions, item))
  }

  /** Item by item, the groups are the rows of the source. */
  ghost predicate IsIndex(source: Source, indexes: Indexes) {
    forall item {:trigger Of(source.policies, PolicyItem(), item)} {:trigger ItemSource(source, indexes, item)} ::
      && Group(indexes.policies, item) == Of(source.policies, PolicyItem(), item)
      && Group(indexes.controls, item) == Of(source.controls, ControlItem(), item)
      && Group(indexes.demands, item) == Of(source.demands, DemandItem(), item)
      && Group(indexes.positions, item) == Of(source.positions, PositionItem(), item)
      && Group(indexes.decisions, item) == Of(source.decisions, DecisionItem(), item)
  }

  method SourceItemIndex(source: Source) returns (indexes: Indexes)
    ensures IsIndex(source, indexes)
  {
    var policies := GroupByItem(source.policies, PolicyItem());
    var controls := GroupByItem(source.controls, ControlItem());
    var demands := GroupByItem(source.demands, DemandItem());
    var positions := GroupByItem(source.positions, PositionItem());
    var decisions := GroupByItem(source.decisions, DecisionItem());
    return Indexes(policies, controls, demands, positions, decisions);
  }

  // Expansion.

  predicate Earlier(a: Policy, b: Policy) {
    a.from < b.from || (a.from == b.from && (a.until < b.until || (a.until == b.until && Less(a.id, b.id))))
  }

  function InsertPolicy(sorted: seq<Policy>, p: Policy): seq<Policy> {
    if sorted == [] || !Earlier(p, sorted[|sorted| - 1]) then sorted + [p]
    else InsertPolicy(sorted[..|sorted| - 1], p) + [sorted[|sorted| - 1]]
  }

  /** A stable sort by period and identifier. */
  function SortPolicies(policies: seq<Policy>): seq<Policy> {
    if policies == [] then [] else InsertPolicy(SortPolicies(policies[..|policies| - 1]), policies[|policies| - 1])
  }

  function Applicable(policies: seq<Policy>, date: Date): seq<Policy> {
    if policies == [] then []
    else
      var last := policies[|policies| - 1];
      Applicable(policies[..|policies| - 1], date) + if last.from <= date < last.until then [last] else []
  }

  function RulesOf(rules: seq<Rule>, uom: string): seq<Rule> {
    if rules == [] then []
    else RulesOf(rules[..|rules| - 1], uom) + if rules[|rules| - 1].uom == uom then [rules[|rules| - 1]] else []
  }

  /** The buckets that start on a date, by position. */
  function StartingAt(calendar: seq<Bucket>, date: Date): (at: seq<nat>)
    ensures forall k :: 0 <= k < |at| ==> at[k] < |calendar|
  {
    if calendar == [] then []
    else
      var n := |calendar| - 1;
      StartingAt(calendar[..n], date) + if calendar[n].start == date then [n] else []
  }

  /** The demand of a week; of two rows of one week the later one counts. */
  function DemandAt(demands: seq<Demand>, uom: string, week: int): Option<Demand> {
    if demands == [] then None
    else
      var last := demands[|demands| - 1];
      if last.uom == uom && last.week == week then Some(last) else DemandAt(demands[..|demands| - 1], uom, week)
  }

  function FutureDemand(demands: seq<Demand>, uom: string, calendar: seq<Bucket>): Option<seq<Demand>> {
    if calendar == [] then Some([])
    else
      match (FutureDemand(demands, uom, calendar[..|calendar| - 1]), DemandAt(demands, uom, calendar[|calendar| - 1].week))
      case (Some(before), Some(d)) => Some(before + [d])
      case _ => None
  }

  /** An expansion by the rows of the item; None when the source has no single authority for a part. */
  function Expand(o: Observation, source: Source): Option<Observation> {
    if o.Expanded? then Some(o)
    else
      var r := o.ref;
      var at := StartingAt(source.calendar, r.date);
      if |at| != 1 then None
      else
        var calendar := source.calendar[at[0]..];
        if r.bucket != calendar[0] then None
        else
          var policies := SortPolicies(Of(source.policies, PolicyItem(), r.item));
          var applicable := Applicable(policies, r.date);
          var controls := Of(source.controls, ControlItem(), r.item);
          var rules := RulesOf(source.rules, r.uom);
          if |applicable| != 1 || |controls| != 1 || |rules| != 1 then None
          else
            match FutureDemand(Of(source.demands, DemandItem(), r.item), r.uom, calendar)
            case None => None
            case Some(future) =>
              Some(Expanded(r.(bucket := calendar[0]), source.shared, calendar, future, applicable[0], policies, controls[0], rules[0]))
  }

  /** Expanding through the index is expanding against the whole source. */
  lemma {:induction false} IndexedIsWhole(o: Observation, source: Source, indexes: Indexes)
    requires IsIndex(source, indexes)
    ensures Expand(o, ItemSource(source, indexes, o.ref.item)) == Expand(o, source)
  {
    var item := o.ref.item;
    assert ItemSource(source, indexes, item).policies == Of(source.policies, PolicyItem(), item);
    OfTwice(source.policies, PolicyItem(), item);
    OfTwice(source.controls, ControlItem(), item);
    OfTwice(source.demands, DemandItem(), item);
  }

  /** An accepted expansion compacts to the reference it came from. */
  lemma CompactAfterExpand(o: Observation, source: Source)
    requires o.Compact? && Expand(o, source).Some?
    ensures Expand(o, source).value.Expanded? && CompactObservation(Expand(o, source).value) == o
  {
  }

  method ExpandRow(source: Source, indexes: Indexes, o: Observation) returns (r: Option<Observation>)
    requires IsIndex(source, indexes)
    ensures r == Expand(o, source)
  {
    IndexedIsWhole(o, source, indexes);
    r := Expand(o, ItemSource(source, indexes, o.ref.item));
  }

  /** Every row of an artifact, expanded through one index. */
  method ExpandedActionRows(source: Source, rows: seq<Observation>) returns (r: Option<seq<Observation>>)
    ensures r.Some? <==> forall k :: 0 <= k < |rows| ==> Expand(rows[k], source).Some?
    ensures r.Some? ==> |r.value| == |rows| && forall k :: 0 <= k < |rows| ==> Some(r.value[k]) == Expand(rows[k], source)
  {
    var indexes := SourceItemIndex(source);
    r := ExpandRows(source, indexes, rows);
  }

  method ExpandRows(source: Source, indexes: Indexes, rows: seq<Observation>) returns (r: Option<seq<Observation>>)
    requires IsIndex(source, indexes)
    ensures r.Some? <==> forall k :: 0 <= k < |rows| ==> Expand(rows[k], source).Some?
    ensures r.Some? ==> |r.value| == |rows| && forall k :: 0 <= k < |rows| ==> Some(r.value[k]) == Expand(rows[k], source)
  {
    var result := [];
    for n := 0 to |rows|
      invariant |result| == n && forall k :: 0 <= k < n ==> Some(result[k]) == Expand(rows[k], source)
    {
      var expanded := ExpandRow(source, indexes, rows[n]);
      if expanded.None? {
        return None;
      }
      result := result + [expanded.value];
    }
    return Some(result);
  }
}
