/** Weekly target transitions one after the other: each week's close opens the next week. */
module TargetRuns {
  import opened Wrappers
  import opened Decimals
  import opened TargetTransition

  /** What one week hands to the next, in millionths. */
  datatype State = State(available: nat, reserved: nat, backorder: nat)

  datatype Week = Week(confirmed: nat, forecast: nat, inbound: nat, recommended: nat)

  datatype Close = Close(available: nat, fulfilledBackorder: nat, fulfilledOrder: nat, fulfilledForecast: nat, eoh: nat, backorder: nat)

  function Min(a: nat, b: nat): nat {
    if a < b then a else b
  }

  function Max0(n: int): nat {
    if n < 0 then 0 else n
  }

  /** Backorders are served first, then confirmed orders, then the forecast. */
  function Serve(s: State, w: Week): Close {
    var available := s.available + w.inbound + w.recommended;
    var backorder := Min(available, s.backorder);
    var order := Min(available - backorder, w.confirmed);
    var forecast := Min(available - backorder - order, w.forecast);
    Close(available, backorder, order, forecast, available - backorder - order - forecast,
          s.backorder + w.confirmed - backorder - order)
  }

  /** Every sum the row shows fits the forty digits. */
  predicate Fits(s: State, w: Week) {
    && Checked(s.available) && Checked(s.reserved) && Checked(s.backorder)
    && Checked(w.confirmed) && Checked(w.forecast) && Checked(w.inbound) && Checked(w.recommended)
    && Checked(s.available + w.inbound + w.recommended) && Checked(s.backorder + w.confirmed)
    && Checked(s.available + s.reserved) && Checked(Serve(s, w).eoh + s.reserved)
  }

  function Next(s: State, w: Week): State {
    State(Serve(s, w).eoh, s.reserved, Serve(s, w).backorder)
  }

  /** The week in closed form, and both of its balances. */
  lemma ServeIs(s: State, w: Week)
    ensures var c := Serve(s, w);
            && c.eoh == Max0(s.available + w.inbound + w.recommended - s.backorder - w.confirmed - w.forecast)
            && c.backorder == Max0(s.backorder + w.confirmed - s.available - w.inbound - w.recommended)
            && c.available == c.fulfilledBackorder + c.fulfilledOrder + c.fulfilledForecast + c.eoh
            && s.backorder + w.confirmed == c.fulfilledBackorder + c.fulfilledOrder + c.backorder
            && c.fulfilledForecast <= w.forecast
  {
  }

  /** Nothing is held back: stock is left only when everything was served, backorders only when stock ran out. */
  lemma NeverBoth(s: State, w: Week)
    ensures var c := Serve(s, w);
            && (c.eoh > 0 ==> c.backorder == 0 && c.fulfilledForecast == w.forecast)
            && (c.backorder > 0 ==> c.eoh == 0 && c.fulfilledForecast == 0)
            && (c.fulfilledOrder > 0 ==> c.fulfilledBackorder == s.backorder)
  {
  }

  /** The open backlog is served before any order of the week, the orders before the forecast, each as far as goods last. */
  lemma ServedInOrder(s: State, w: Week)
    ensures var c, supply := Serve(s, w), s.available + w.inbound + w.recommended;
            && c.available == supply
            && c.fulfilledBackorder == (if supply <= s.backorder then supply else s.backorder)
            && c.fulfilledOrder <= w.confirmed && c.fulfilledForecast <= w.forecast
            && (c.fulfilledBackorder < s.backorder ==> c.fulfilledOrder == 0 && c.fulfilledForecast == 0)
            && (c.fulfilledOrder < w.confirmed ==> c.fulfilledBackorder + c.fulfilledOrder == supply && c.fulfilledForecast == 0)
            && (c.fulfilledForecast < w.forecast ==> c.eoh == 0)
  {
  }

  // Rows of text.

  datatype Row = Row(
    available: string, reserved: string, backorder: string, confirmed: string, forecast: string, inbound: string,
    recommended: string)

  datatype Result = Result(
    boh: string, reserved: string, onHandBoh: string, inbound: string, recommended: string, available: string,
    backorderOpen: string, fulfilledBackorder: string, fulfilledOrder: string, fulfilledForecast: string,
    eoh: string, onHandEoh: string, backorderClose: string, forecastShortage: string)

  predicate Readable(r: Row) {
    && Q(r.available).Some? && Q(r.reserved).Some? && Q(r.backorder).Some? && Q(r.confirmed).Some?
    && Q(r.forecast).Some? && Q(r.inbound).Some? && Q(r.recommended).Some?
  }

  function StateOf(r: Row): State
    requires Readable(r)
  {
    State(Q(r.available).value, Q(r.reserved).value, Q(r.backorder).value)
  }

  function WeekOf(r: Row): Week
    requires Readable(r)
  {
    Week(Q(r.confirmed).value, Q(r.forecast).value, Q(r.inbound).value, Q(r.recommended).value)
  }

  lemma SmallerFits(m: nat, n: nat)
    requires m <= n && Checked(n)
    ensures Checked(m)
  {
    LengthOfDecimal(m, MAX_DIGITS);
    LengthOfDecimal(n, MAX_DIGITS);
  }

  lemma CloseFits(s: State, w: Week)
    requires Fits(s, w)
    ensures var c := Serve(s, w);
            && Checked(c.available) && Checked(c.fulfilledBackorder) && Checked(c.fulfilledOrder) && Checked(c.fulfilledForecast)
            && Checked(c.eoh) && Checked(c.backorder) && c.fulfilledForecast <= w.forecast && Checked(w.forecast - c.fulfilledForecast)
  {
    var c := Serve(s, w);
    ServeIs(s, w);
    SmallerFits(c.fulfilledBackorder, c.available);
    SmallerFits(c.fulfilledOrder, c.available);
    SmallerFits(c.fulfilledForecast, c.available);
    SmallerFits(c.eoh, c.available);
    SmallerFits(c.backorder, s.backorder + w.confirmed);
    SmallerFits(w.forecast - c.fulfilledForecast, w.forecast);
  }

  /** The fourteen texts of a week. */
  function ResultOf(s: State, w: Week): Result
    requires Fits(s, w)
  {
    var c := Serve(s, w);
    CloseFits(s, w);
    Result(T(s.available), T(s.reserved), T(s.available + s.reserved), T(w.inbound), T(w.recommended), T(c.available),
           T(s.backorder), T(c.fulfilledBackorder), T(c.fulfilledOrder), T(c.fulfilledForecast),
           T(c.eoh), T(c.eoh + s.reserved), T(c.backorder), T(w.forecast - c.fulfilledForecast))
  }

  function AdvanceTarget(r: Row): Option<Result> {
    if !Readable(r) || !Fits(StateOf(r), WeekOf(r)) then None
    else Some(ResultOf(StateOf(r), WeekOf(r)))
  }

  lemma FitsInDigits(n: nat)
    ensures Checked(n) <==> n < Power10(40)
  {
    LengthOfDecimal(n, 40);
  }

  /** A row is advanced exactly when its texts are quantities and its sums have at most forty digits. */
  lemma AdvanceAccepts(r: Row)
    ensures AdvanceTarget(r).Some? <==>
              && Readable(r)
              && var s, w, most := StateOf(r), WeekOf(r), Power10(40);
                 && s.available + w.inbound + w.recommended < most && s.backorder + w.confirmed < most
                 && s.available + s.reserved < most
                 && Max0(s.available + w.inbound + w.recommended - s.backorder - w.confirmed - w.forecast) + s.reserved < most
  {
    if Readable(r) {
      QuantitiesFit(r);
      ServeIs(StateOf(r), WeekOf(r));
      SumsFit(StateOf(r), WeekOf(r), Serve(StateOf(r), WeekOf(r)).eoh);
    }
  }

  lemma QuantitiesFit(r: Row)
    requires Readable(r)
    ensures var s, w := StateOf(r), WeekOf(r);
            && Checked(s.available) && Checked(s.reserved) && Checked(s.backorder)
            && Checked(w.confirmed) && Checked(w.forecast) && Checked(w.inbound) && Checked(w.recommended)
  {
  }

  lemma SumsFit(s: State, w: Week, eoh: nat)
    requires eoh == Serve(s, w).eoh
    requires Checked(s.available) && Checked(s.reserved) && Checked(s.backorder)
    requires Checked(w.confirmed) && Checked(w.forecast) && Checked(w.inbound) && Checked(w.recommended)
    ensures Fits(s, w) <==>
              && s.available + w.inbound + w.recommended < Power10(40) && s.backorder + w.confirmed < Power10(40)
              && s.available + s.reserved < Power10(40) && eoh + s.reserved < Power10(40)
  {
    var supply, demand, before, after := s.available + w.inbound + w.recommended, s.backorder + w.confirmed, s.available + s.reserved, eoh + s.reserved;
    FitsInDigits(supply);
    FitsInDigits(demand);
    FitsInDigits(before);
    FitsInDigits(after);
  }

  /** Each of the fourteen texts reads back as its own quantity: those of the stock and the backlog, */
  lemma OpeningReadsBack(s: State, w: Week)
    requires Fits(s, w)
    ensures var result := ResultOf(s, w);
            && Q(result.boh) == Some(s.available) && Q(result.reserved) == Some(s.reserved)
            && Q(result.onHandBoh) == Some(s.available + s.reserved) && Q(result.backorderOpen) == Some(s.backorder)
  {
    ReadBack(s.available);
    ReadBack(s.reserved);
    ReadBack(s.available + s.reserved);
    ReadBack(s.backorder);
  }

  /** those of the receipts, */
  lemma ReceiptsReadBack(s: State, w: Week)
    requires Fits(s, w)
    ensures var result := ResultOf(s, w);
            && Q(result.inbound) == Some(w.inbound) && Q(result.recommended) == Some(w.recommended)
            && Q(result.available) == Some(s.available + w.inbound + w.recommended)
  {
    ReadBack(w.inbound);
    ReadBack(w.recommended);
    ReadBack(s.available + w.inbound + w.recommended);
  }

  /** those of what is served, */
  lemma ServedReadsBack(s: State, w: Week)
    requires Fits(s, w)
    ensures var c, result := Serve(s, w), ResultOf(s, w);
            && Q(result.fulfilledBackorder) == Some(c.fulfilledBackorder) && Q(result.fulfilledOrder) == Some(c.fulfilledOrder)
  {
    var c := Serve(s, w);
    CloseFits(s, w);
    ReadBack(c.fulfilledBackorder);
    ReadBack(c.fulfilledOrder);
  }

  lemma ForecastReadsBack(s: State, w: Week)
    requires Fits(s, w)
    ensures var c, result := Serve(s, w), ResultOf(s, w);
            c.fulfilledForecast <= w.forecast && Q(result.fulfilledForecast) == Some(c.fulfilledForecast)
  {
    CloseFits(s, w);
    ReadBack(Serve(s, w).fulfilledForecast);
  }

  lemma ShortageReadsBack(s: State, w: Week)
    requires Fits(s, w)
    ensures var c, result := Serve(s, w), ResultOf(s, w);
            c.fulfilledForecast <= w.forecast && Q(result.forecastShortage) == Some(w.forecast - c.fulfilledForecast)
  {
    CloseFits(s, w);
    ReadBack(w.forecast - Serve(s, w).fulfilledForecast);
  }

  /** and those of the close. */
  lemma CloseReadsBack(s: State, w: Week)
    requires Fits(s, w)
    ensures var c, result := Serve(s, w), ResultOf(s, w);
            && Q(result.eoh) == Some(c.eoh) && Q(result.onHandEoh) == Some(c.eoh + s.reserved)
            && Q(result.backorderClose) == Some(c.backorder)
  {
    var c := Serve(s, w);
    CloseFits(s, w);
    ReadBack(c.eoh);
    ReadBack(c.eoh + s.reserved);
    ReadBack(c.backorder);
  }

  /** What a week serves and hands on, from its opening alone. */
  lemma ServedAre(s: State, w: Week)
    ensures var c, supply := Serve(s, w), s.available + w.inbound + w.recommended;
            && c.fulfilledBackorder == Min(supply, s.backorder) && c.fulfilledOrder == Min(Max0(supply - s.backorder), w.confirmed)
            && c.fulfilledForecast == Min(Max0(Max0(supply - s.backorder) - w.confirmed), w.forecast)
            && c.eoh == Max0(Max0(supply - s.backorder) - w.confirmed - w.forecast)
            && c.backorder == Max0(s.backorder + w.confirmed - supply)
  {
  }

  /** The row of the next week: this week's close, and the next week's demand and supply. */
  function Carried(result: Result, next: Row): Row {
    next.(available := result.eoh, reserved := result.reserved, backorder := result.backorderClose)
  }

  /** The closing texts read back as the closing quantities, so a chain of rows is a run of weeks. */
  lemma CarriedExactly(r: Row, next: Row)
    requires AdvanceTarget(r).Some? && Readable(next)
    ensures var carried := Carried(AdvanceTarget(r).value, next);
            && Readable(carried) && StateOf(carried) == Next(StateOf(r), WeekOf(r)) && WeekOf(carried) == WeekOf(next)
  {
    var s, w := StateOf(r), WeekOf(r);
    CloseFits(s, w);
    ReadBack(Serve(s, w).eoh);
    ReadBack(s.reserved);
    ReadBack(Serve(s, w).backorder);
  }

  // Runs.

  function After(s: State, weeks: seq<Week>): State {
    if weeks == [] then s else Next(After(s, weeks[..|weeks| - 1]), weeks[|weeks| - 1])
  }

  /** What has come in, been ordered and been served over a run. */
  datatype Totals = Totals(received: nat, ordered: nat, backorders: nat, orders: nat, forecasts: nat)

  function Sums(s: State, weeks: seq<Week>): Totals {
    if weeks == [] then Totals(0, 0, 0, 0, 0)
    else
      var before, w := weeks[..|weeks| - 1], weeks[|weeks| - 1];
      var t, c := Sums(s, before), Serve(After(s, before), w);
      Totals(t.received + w.inbound + w.recommended, t.ordered + w.confirmed, t.backorders + c.fulfilledBackorder,
             t.orders + c.fulfilledOrder, t.forecasts + c.fulfilledForecast)
  }

  /** Goods and backlog are conserved over every run. */
  lemma {:induction false} RunConserves(s: State, weeks: seq<Week>)
    ensures var t, e := Sums(s, weeks), After(s, weeks);
            && s.available + t.received == e.available + t.backorders + t.orders + t.forecasts
            && s.backorder + t.ordered == e.backorder + t.backorders + t.orders
            && e.reserved == s.reserved
  {
    if weeks != [] {
      RunConserves(s, weeks[..|weeks| - 1]);
      ServeIs(After(s, weeks[..|weeks| - 1]), weeks[|weeks| - 1]);
    }
  }

  /** The backlog with which each week of a run opened, added up, and what the weeks asked for. */
  function Opened(s: State, weeks: seq<Week>): nat {
    if weeks == [] then 0 else Opened(s, weeks[..|weeks| - 1]) + After(s, weeks[..|weeks| - 1]).backorder
  }

  function Forecast(weeks: seq<Week>): nat {
    if weeks == [] then 0 else Forecast(weeks[..|weeks| - 1]) + weeks[|weeks| - 1].forecast
  }

  function Confirmed(weeks: seq<Week>): nat {
    if weeks == [] then 0 else Confirmed(weeks[..|weeks| - 1]) + weeks[|weeks| - 1].confirmed
  }

  function Receipts(weeks: seq<Week>): nat {
    if weeks == [] then 0 else Receipts(weeks[..|weeks| - 1]) + weeks[|weeks| - 1].inbound + weeks[|weeks| - 1].recommended
  }

  /** Over a run, nothing is served beyond the backlog that was open, the orders and the forecast. */
  lemma {:induction false} ServedWithinDemand(s: State, weeks: seq<Week>)
    ensures var t := Sums(s, weeks);
            && t.backorders <= Opened(s, weeks) && t.orders <= Confirmed(weeks) && t.forecasts <= Forecast(weeks)
            && t.ordered == Confirmed(weeks) && t.received == Receipts(weeks)
  {
    if weeks != [] {
      ServedWithinDemand(s, weeks[..|weeks| - 1]);
      ServedInOrder(After(s, weeks[..|weeks| - 1]), weeks[|weeks| - 1]);
    }
  }

  function Net(s: State): int {
    s.available - s.backorder
  }

  /** The same demand, with at least as much stock at the start and as many receipts in every week. */
  predicate SuppliedMore(s: State, s': State, weeks: seq<Week>, weeks': seq<Week>) {
    && s.available <= s'.available && s.backorder == s'.backorder && |weeks| == |weeks'|
    && forall k :: 0 <= k < |weeks| ==>
         && weeks[k].confirmed == weeks'[k].confirmed && weeks[k].forecast == weeks'[k].forecast
         && weeks[k].inbound + weeks[k].recommended <= weeks'[k].inbound + weeks'[k].recommended
  }

  function Added(s: State, s': State, weeks: seq<Week>, weeks': seq<Week>): int {
    s'.available + Sums(s', weeks').received - s.available - Sums(s, weeks).received
  }

  /**
   More supply never lowers a week's closing stock and never raises its backorders, and it moves
   the net position by no more than was added.
   */
  lemma {:induction false} MoreSupplyNeverHurts(s: State, s': State, weeks: seq<Week>, weeks': seq<Week>)
    requires SuppliedMore(s, s', weeks, weeks')
    ensures var e, e' := After(s, weeks), After(s', weeks');
            && e.available <= e'.available && e'.backorder <= e.backorder
            && 0 <= Net(e') - Net(e) <= Added(s, s', weeks, weeks')
  {
    if weeks != [] {
      var n := |weeks| - 1;
      MoreSupplyNeverHurts(s, s', weeks[..n], weeks'[..n]);
      var e, e' := After(s, weeks[..n]), After(s', weeks'[..n]);
      ServeIs(e, weeks[n]);
      ServeIs(e', weeks'[n]);
    }
  }

  // Runs of rows.

  /** The row that is due after advancing from `r` with the demand and supply of `nexts`. */
  function Chain(r: Row, nexts: seq<Row>): Option<Row> {
    if nexts == [] then Some(r)
    else
      match Chain(r, nexts[..|nexts| - 1])
      case None => None
      case Some(row) =>
        match AdvanceTarget(row)
        case None => None
        case Some(result) => Some(Carried(result, nexts[|nexts| - 1]))
  }

  predicate AllReadable(rows: seq<Row>) {
    forall k {:trigger rows[k]} :: 0 <= k < |rows| ==> Readable(rows[k])
  }

  /** The weeks that have been advanced: that of `r`, and those of all but the last of `nexts`. */
  function Played(r: Row, nexts: seq<Row>): (weeks: seq<Week>)
    requires Readable(r) && AllReadable(nexts)
    ensures |weeks| == |nexts|
  {
    if nexts == [] then []
    else if |nexts| == 1 then [WeekOf(r)]
    else Played(r, nexts[..|nexts| - 1]) + [WeekOf(nexts[|nexts| - 2])]
  }

  /** A chain of rows of text is a run of weeks: nothing is lost between two rows. */
  lemma {:induction false} ChainIsRun(r: Row, nexts: seq<Row>)
    requires Readable(r) && AllReadable(nexts) && Chain(r, nexts).Some?
    ensures var row := Chain(r, nexts).value;
            && Readable(row) && StateOf(row) == After(StateOf(r), Played(r, nexts))
            && WeekOf(row) == if nexts == [] then WeekOf(r) else WeekOf(nexts[|nexts| - 1])
  {
    if nexts != [] {
      var before, last := nexts[..|nexts| - 1], nexts[|nexts| - 1];
      ChainIsRun(r, before);
      CarriedExactly(Chain(r, before).value, last);
      var weeks := Played(r, nexts);
      assert weeks[..|weeks| - 1] == Played(r, before);
    }
  }
}
