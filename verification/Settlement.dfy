/** Realized profit and loss of a position, from its confirmed fills. */
module Settlement {
  import opened Basics
  import opened LegPricing

  datatype Trade = Trade(
    platform: string,
    price: Field,
    fill: Field,
    size: Field,
    executedSize: Field,
    side: string,
    outcome: string,
    status: string)

  function VenueOf(platform: string): Venue {
    var p := Lower(platform);
    if p == "polymarket" then Shares
    else if p in {"kalshi", "smarkets", "sxbet", "gemini", "ibkr"} then Dollars
    else if p in {"betfair", "matchbook"} then Stake
    else Unknown
  }

  /** Winning-side matching with the yes/no aliases. */
  predicate LegWon(tradeSide: string, winningSide: string) {
    var ts, ws := Lower(tradeSide), Lower(winningSide);
    && ts != "" && ws != ""
    && (ts == ws
        || (ws == "yes" && ts in {"yes", "y", "buy", "back"})
        || (ws == "no" && ts in {"no", "n", "sell", "lay"}))
  }

  function SettledSide(t: Trade): string {
    var s := if VenueOf(t.platform) == Shares then t.outcome else t.side;
    if s != "" then s else t.side
  }

  predicate Filled(t: Trade) {
    Lower(t.status) == "filled"
  }

  function FilledOnly(ts: seq<Trade>): seq<Trade> {
    if ts == [] then []
    else
      var t := ts[|ts| - 1];
      FilledOnly(ts[..|ts| - 1]) + if Filled(t) then [t] else []
  }

  /** A persisted executed size wins over the requested one. */
  function Sized(t: Trade): Field {
    if MoneyValid(t.executedSize) then t.executedSize else t.size
  }

  /** What a confirmed fill is worth, and the side it settles on. */
  datatype Quote = Quote(leg: Option<Leg>, side: string)

  function QuoteOf(t: Trade): Quote {
    Quote(PriceLeg(VenueOf(t.platform), t.price, t.fill, Sized(t)), SettledSide(t))
  }

  function Quotes(ts: seq<Trade>): seq<Quote> {
    seq(|ts|, i requires 0 <= i < |ts| => QuoteOf(ts[i]))
  }

  predicate AllPriced(qs: seq<Quote>) {
    forall i :: 0 <= i < |qs| ==> qs[i].leg.Some?
  }

  /** Dollars known to be spent: legs that cannot be priced contribute nothing. */
  function KnownCost(qs: seq<Quote>): real {
    if qs == [] then 0.0
    else
      var q := qs[|qs| - 1];
      KnownCost(qs[..|qs| - 1]) + if q.leg.Some? then q.leg.value.cost else 0.0
  }

  function LeastContracts(qs: seq<Quote>): (m: real)
    requires qs != [] && AllPriced(qs)
    ensures forall i :: 0 <= i < |qs| ==> m <= qs[i].leg.value.contracts
    ensures exists i :: 0 <= i < |qs| && m == qs[i].leg.value.contracts
  {
    var c := qs[|qs| - 1].leg.value.contracts;
    if |qs| == 1 then c
    else
      var m := LeastContracts(qs[..|qs| - 1]);
      if c < m then c else m
  }

  function Payout(qs: seq<Quote>, winner: string): real
    requires AllPriced(qs)
  {
    if qs == [] then 0.0
    else
      var q := qs[|qs| - 1];
      Payout(qs[..|qs| - 1], winner) + if LegWon(q.side, winner) then q.leg.value.contracts else 0.0
  }

  function ExpectedLoss(expected: Field): real {
    if expected.Num? then MaxReal(expected.v, -expected.v) else 0.0
  }

  /** At least one confirmed fill: an unpriceable leg reports a loss; otherwise the winning side, or
      the smallest leg when none is given, decides the payout. */
  function Settle(qs: seq<Quote>, expected: Field, winner: Option<string>): real
    requires qs != []
  {
    if !AllPriced(qs) then -MaxReal(KnownCost(qs), ExpectedLoss(expected))
    else match winner
      case None => LeastContracts(qs) - KnownCost(qs)
      case Some(side) => Payout(qs, side) - KnownCost(qs)
  }

  /** Either the stored expectation is returned as it is, or a number computed from fills. */
  datatype Pnl = Expectation(expected: Field) | Realized(amount: real)

  function RealizedPnl(trades: seq<Trade>, expected: Field, winner: Option<string>): Pnl {
    var ts := FilledOnly(trades);
    if ts == [] then Expectation(expected) else Realized(Settle(Quotes(ts), expected, winner))
  }

  // ------------------------------------------------------------ the routine itself

  method KeepFilled(trades: seq<Trade>) returns (live: seq<Trade>)
    ensures live == FilledOnly(trades)
  {
    live := [];
    for i := 0 to |trades|
      invariant live == FilledOnly(trades[..i])
    {
      assert trades[..i + 1][..i] == trades[..i];
      if Filled(trades[i]) { live := live + [trades[i]]; }
    }
    assert trades[..|trades|] == trades;
  }

  lemma OneMoreQuote(qs: seq<Quote>, q: Quote)
    ensures AllPriced(qs + [q]) <==> AllPriced(qs) && q.leg.Some?
    ensures KnownCost(qs + [q]) == KnownCost(qs) + if q.leg.Some? then q.leg.value.cost else 0.0
  {
    var longer := qs + [q];
    assert longer[..|qs|] == qs && longer[|qs|] == q;
    assert forall i :: 0 <= i < |qs| ==> longer[i] == qs[i];
  }

  /** Prices every leg in one pass, remembering whether one could not be priced. */
  method PriceLegs(live: seq<Trade>) returns (qs: seq<Quote>, cost: real, invalid: bool)
    ensures qs == Quotes(live)
    ensures cost == KnownCost(qs)
    ensures invalid <==> !AllPriced(qs)
  {
    qs, cost, invalid := [], 0.0, false;
    for i := 0 to |live|
      invariant |qs| == i && forall j :: 0 <= j < i ==> qs[j] == QuoteOf(live[j])
      invariant cost == KnownCost(qs)
      invariant invalid <==> !AllPriced(qs)
    {
      var q := QuoteOf(live[i]);
      OneMoreQuote(qs, q);
      if q.leg.None? {
        invalid := true;
      } else {
        cost := cost + q.leg.value.cost;
      }
      qs := qs + [q];
    }
  }

  method PayoutTo(qs: seq<Quote>, winner: string) returns (payout: real)
    requires AllPriced(qs)
    ensures payout == Payout(qs, winner)
  {
    payout := 0.0;
    for i := 0 to |qs|
      invariant payout == Payout(qs[..i], winner)
    {
      assert qs[..i + 1][..i] == qs[..i];
      if LegWon(qs[i].side, winner) { payout := payout + qs[i].leg.value.contracts; }
    }
    assert qs[..|qs|] == qs;
  }

  /** The settlement routine as the code runs it. */
  method CalcRealizedPnl(trades: seq<Trade>, expected: Field, winner: Option<string>) returns (pnl: Pnl)
    ensures pnl == RealizedPnl(trades, expected, winner)
  {
    var live := KeepFilled(trades);
    if live == [] { return Expectation(expected); }
    var qs, cost, invalid := PriceLegs(live);
    if invalid { return Realized(-MaxReal(cost, ExpectedLoss(expected))); }
    if winner.None? { return Realized(LeastContracts(qs) - cost); }
    var payout := PayoutTo(qs, winner.value);
    pnl := Realized(payout - cost);
  }

  // ------------------------------------------------------- fail-closed, whatever the record

  lemma {:induction false} KnownCostIsNonNegative(ts: seq<Trade>)
    ensures 0.0 <= KnownCost(Quotes(ts))
  {
    if ts != [] {
      var t := ts[|ts| - 1];
      KnownCostIsNonNegative(ts[..|ts| - 1]);
      PricedIsNonNegative(VenueOf(t.platform), t.price, t.fill, Sized(t));
      assert Quotes(ts)[..|ts| - 1] == Quotes(ts[..|ts| - 1]);
    }
  }

  /** A confirmed fill without a usable size forces a loss of at least everything known to be spent and
      at least the size of the stored expectation, whatever the winning side: never a profit. */
  lemma UnpriceableLegForcesALoss(ts: seq<Trade>, expected: Field, winner: Option<string>, i: nat)
    requires i < |ts| && !MoneyValid(Sized(ts[i]))
    ensures var pnl := Settle(Quotes(ts), expected, winner);
            && pnl <= -KnownCost(Quotes(ts)) <= 0.0
            && (expected.Num? ==> pnl <= expected.v && pnl <= -expected.v)
  {
    KnownCostIsNonNegative(ts);
    PricedIsNonNegative(VenueOf(ts[i].platform), ts[i].price, ts[i].fill, Sized(ts[i]));
    assert Quotes(ts)[i].leg.None?;
  }

  lemma {:induction false} FilledOnlyConcat(a: seq<Trade>, b: seq<Trade>)
    ensures FilledOnly(a + b) == FilledOnly(a) + FilledOnly(b)
  {
    if b == [] {
      assert a + b == a;
    } else {
      assert (a + b)[..|a + b| - 1] == a + b[..|b| - 1];
      FilledOnlyConcat(a, b[..|b| - 1]);
    }
  }

  /** Rows that are not confirmed fills change nothing, wherever they stand. */
  lemma UnfilledRowsNeverMatter(a: seq<Trade>, t: Trade, b: seq<Trade>, expected: Field, winner: Option<string>)
    requires !Filled(t)
    ensures RealizedPnl(a + [t] + b, expected, winner) == RealizedPnl(a + b, expected, winner)
  {
    FilledOnlyConcat(a + [t], b);
    FilledOnlyConcat(a, [t]);
    FilledOnlyConcat(a, b);
    assert [t][..0] == [] && FilledOnly([t]) == [];
    assert FilledOnly(a + [t]) == FilledOnly(a);
    assert FilledOnly(a + [t] + b) == FilledOnly(a + b);
  }

  // -------------------------------------------------------- no winning side given

  lemma {:induction false} PayoutBounds(qs: seq<Quote>, winner: string, k: int)
    requires AllPriced(qs) && forall i :: 0 <= i < |qs| ==> 0.0 <= qs[i].leg.value.contracts
    ensures 0.0 <= Payout(qs, winner)
    ensures 0 <= k < |qs| && LegWon(qs[k].side, winner) ==> qs[k].leg.value.contracts <= Payout(qs, winner)
  {
    if qs != [] { PayoutBounds(qs[..|qs| - 1], winner, k); }
  }

  /** The report made without a winning side is at most the true result of every outcome in which some
      leg wins, and it is the true result when the smallest leg wins alone. */
  lemma UnsidedReportIsALowerBound(ts: seq<Trade>, expected: Field, winner: string, k: nat)
    requires k < |ts| && LegWon(SettledSide(ts[k]), winner) && AllPriced(Quotes(ts))
    ensures var qs := Quotes(ts);
            && Settle(qs, expected, None) <= qs[k].leg.value.contracts - KnownCost(qs) <= Settle(qs, expected, Some(winner))
            && exists i :: 0 <= i < |qs| && Settle(qs, expected, None) == qs[i].leg.value.contracts - KnownCost(qs)
  {
    var qs := Quotes(ts);
    forall i | 0 <= i < |qs| ensures 0.0 <= qs[i].leg.value.contracts {
      PricedIsNonNegative(VenueOf(ts[i].platform), ts[i].price, ts[i].fill, Sized(ts[i]));
    }
    PayoutBounds(qs, winner, k);
    var i :| 0 <= i < |qs| && LeastContracts(qs) == qs[i].leg.value.contracts;
    assert Settle(qs, expected, None) == qs[i].leg.value.contracts - KnownCost(qs);
  }

  // -------------------------------------------------- erased or corrupted prices

  /** `d` is `t` with its price or its fill lost. */
  predicate Damaged(t: Trade, d: Trade) {
    d == t.(price := d.price, fill := d.fill) && Lost(t.price, d.price) && Lost(t.fill, d.fill)
  }

  predicate RobustTrade(t: Trade) {
    Robust(VenueOf(t.platform), t.price, t.fill, Sized(t))
  }

  predicate NoBetterQuotes(worse: seq<Quote>, better: seq<Quote>) {
    && |worse| == |better| && AllPriced(worse) && AllPriced(better)
    && forall i :: 0 <= i < |worse| ==>
         worse[i].side == better[i].side && NoBetter(worse[i].leg.value, better[i].leg.value)
  }

  lemma {:induction false} NoBetterSums(worse: seq<Quote>, better: seq<Quote>, winner: string)
    requires NoBetterQuotes(worse, better)
    ensures KnownCost(worse) >= KnownCost(better)
    ensures Payout(worse, winner) - KnownCost(worse) <= Payout(better, winner) - KnownCost(better)
  {
    if worse != [] {
      NoBetterSums(worse[..|worse| - 1], better[..|better| - 1], winner);
    }
  }

  /** The total costs more by at least what any one leg does. */
  lemma {:induction false} CostRisesByEachLeg(worse: seq<Quote>, better: seq<Quote>, k: nat)
    requires NoBetterQuotes(worse, better) && k < |better|
    ensures KnownCost(worse) - KnownCost(better) >= worse[k].leg.value.cost - better[k].leg.value.cost
  {
    var n := |worse| - 1;
    if k < n {
      CostRisesByEachLeg(worse[..n], better[..n], k);
    } else {
      NoBetterSums(worse[..n], better[..n], "");
    }
  }

  lemma NoBetterSettles(worse: seq<Quote>, better: seq<Quote>, expected: Field, winner: Option<string>)
    requires worse != [] && NoBetterQuotes(worse, better)
    ensures Settle(worse, expected, winner) <= Settle(better, expected, winner)
  {
    NoBetterSums(worse, better, if winner.Some? then winner.value else "");
    if winner.None? {
      var k :| 0 <= k < |better| && LeastContracts(better) == better[k].leg.value.contracts;
      assert LeastContracts(worse) <= worse[k].leg.value.contracts;
      CostRisesByEachLeg(worse, better, k);
    }
  }

  /** A leg is as it was, whatever that is, or it was robust and has lost its price or its fill. */
  predicate KeptOrDamaged(t: Trade, d: Trade) {
    d == t || (Damaged(t, d) && RobustTrade(t))
  }

  /** Priced before and after, or not at all; and never for less. */
  predicate NoBetterOrSame(worse: Quote, better: Quote) {
    && worse.side == better.side && (worse.leg.Some? <==> better.leg.Some?)
    && (worse.leg.Some? ==> NoBetter(worse.leg.value, better.leg.value))
  }

  lemma KeptOrDamagedIsNoBetter(t: Trade, d: Trade)
    requires KeptOrDamaged(t, d)
    ensures NoBetterOrSame(QuoteOf(d), QuoteOf(t))
  {
    if d != t && MoneyValid(Sized(t)) { LostPriceIsNoBetter(VenueOf(t.platform), t.price, t.fill, Sized(t), d.price, d.fill); }
  }

  lemma {:induction false} KnownCostNeverFalls(worse: seq<Quote>, better: seq<Quote>)
    requires |worse| == |better| && forall i :: 0 <= i < |worse| ==> NoBetterOrSame(worse[i], better[i])
    ensures KnownCost(worse) >= KnownCost(better)
  {
    if worse != [] {
      var n := |worse| - 1;
      KnownCostNeverFalls(worse[..n], better[..n]);
      assert NoBetterOrSame(worse[n], better[n]);
    }
  }

  lemma NoBetterOrSameSettles(worse: seq<Quote>, better: seq<Quote>, expected: Field, winner: Option<string>)
    requires worse != [] && |worse| == |better|
    requires forall i :: 0 <= i < |worse| ==> NoBetterOrSame(worse[i], better[i])
    ensures Settle(worse, expected, winner) <= Settle(better, expected, winner)
  {
    if AllPriced(better) {
      NoBetterSettles(worse, better, expected, winner);
    } else {
      var i :| 0 <= i < |better| && better[i].leg.None?;
      assert NoBetterOrSame(worse[i], better[i]);
      KnownCostNeverFalls(worse, better);
    }
  }

  /** The halt can only over-trigger: whatever state the other legs are in, losing prices and fills of robust
      legs never raises the reported result, however the position settles. */
  lemma DamageNeverRaisesPnl(ts: seq<Trade>, ds: seq<Trade>, expected: Field, winner: Option<string>)
    requires ts != [] && |ds| == |ts| && forall i :: 0 <= i < |ts| ==> KeptOrDamaged(ts[i], ds[i])
    ensures Settle(Quotes(ds), expected, winner) <= Settle(Quotes(ts), expected, winner)
  {
    forall i | 0 <= i < |ts| ensures NoBetterOrSame(Quotes(ds)[i], Quotes(ts)[i]) {
      KeptOrDamagedIsNoBetter(ts[i], ds[i]);
    }
    NoBetterOrSameSettles(Quotes(ds), Quotes(ts), expected, winner);
  }

  /** Even from damaged records and without a winning side, the report never exceeds what the records would
      pay undamaged on any single winning leg. */
  lemma DamagedReportIsNeverOptimistic(ts: seq<Trade>, ds: seq<Trade>, expected: Field, k: nat)
    requires k < |ts| && |ds| == |ts| && AllPriced(Quotes(ts))
    requires forall i :: 0 <= i < |ts| ==> KeptOrDamaged(ts[i], ds[i])
    ensures Settle(Quotes(ds), expected, None) <= Quotes(ts)[k].leg.value.contracts - KnownCost(Quotes(ts))
  {
    DamageNeverRaisesPnl(ts, ds, expected, None);
    assert LeastContracts(Quotes(ts)) <= Quotes(ts)[k].leg.value.contracts;
  }

  ghost predicate DamageNeverHelps(t: Trade) {
    forall d: Trade, winner: Option<string> :: Damaged(t, d) ==>
      Settle(Quotes([d]), Missing, winner) <= Settle(Quotes([t]), Missing, winner)
  }

  lemma SettleOne(t: Trade, winner: Option<string>)
    requires QuoteOf(t).leg.Some? && (winner == None || winner == Some(""))
    ensures Settle(Quotes([t]), Missing, winner) ==
            (if winner.None? then QuoteOf(t).leg.value.contracts else 0.0) - QuoteOf(t).leg.value.cost
  {
    var qs := Quotes([t]);
    assert qs == [QuoteOf(t)] && qs[..0] == [];
    assert AllPriced(qs) && KnownCost(qs) == QuoteOf(t).leg.value.cost;
    assert !LegWon(qs[0].side, "") && Payout(qs, "") == 0.0;
  }

  /** The exact reach of the fail-closed claim for one record, in whatever state: it holds for every further
      damage and every way of settling if and only if the leg is robust. */
  lemma FailClosedExactlyWhenRobust(t: Trade)
    ensures DamageNeverHelps(t) <==> RobustTrade(t)
  {
    if RobustTrade(t) {
      forall d: Trade, winner: Option<string> | Damaged(t, d)
        ensures Settle(Quotes([d]), Missing, winner) <= Settle(Quotes([t]), Missing, winner)
      {
        DamageNeverRaisesPnl([t], [d], Missing, winner);
      }
    } else {
      var erased, spoiled := t.(fill := Missing), t.(fill := Garbage);
      FragileLegGains(VenueOf(t.platform), t.price, t.fill, Sized(t));
      SettleOne(t, None);
      SettleOne(t, Some(""));
      SettleOne(erased, None);
      SettleOne(spoiled, Some(""));
      assert Damaged(t, erased) && Damaged(t, spoiled);
      assert Settle(Quotes([erased]), Missing, None) > Settle(Quotes([t]), Missing, None)
          || Settle(Quotes([spoiled]), Missing, Some("")) > Settle(Quotes([t]), Missing, Some(""));
    }
  }

  /** A Kalshi order of $0.30 at 60 cents buys one whole contract for 60 cents; lose the fill and only
      30 cents are charged. */
  lemma SmallDollarOrderUnderTriggers()
    ensures var t := Trade("kalshi", Num(0.6), Num(0.6), Num(0.3), Missing, "yes", "", "filled");
            var d := t.(fill := Garbage);
            Damaged(t, d) && Settle(Quotes([d]), Missing, Some("")) > Settle(Quotes([t]), Missing, Some(""))
  {
    var t := Trade("kalshi", Num(0.6), Num(0.6), Num(0.3), Missing, "yes", "", "filled");
    var d := t.(fill := Garbage);
    assert Lower("kalshi") == "kalshi";
    assert VenueOf("kalshi") == Dollars;
    ContractsFitTheSize(0.3, 0.6, WholeContracts(0.3, 0.6) as real, WholeContracts(0.3, 0.6) as real * 0.6);
    SettleOne(t, Some(""));
    SettleOne(d, Some(""));
  }

  lemma {:induction false} ContractsAreNonNegative(ts: seq<Trade>, winner: string)
    requires AllPriced(Quotes(ts))
    ensures Payout(Quotes(ts), winner) >= 0.0 && (ts != [] ==> LeastContracts(Quotes(ts)) >= 0.0)
    ensures Payout(Quotes(ts), "") == 0.0
  {
    if ts != [] {
      var t := ts[|ts| - 1];
      assert Quotes(ts)[..|ts| - 1] == Quotes(ts[..|ts| - 1]);
      assert Quotes(ts)[|ts| - 1] == QuoteOf(t);
      ContractsAreNonNegative(ts[..|ts| - 1], winner);
      PricedIsNonNegative(VenueOf(t.platform), t.price, t.fill, Sized(t));
    }
  }

  /** With the size itself lost a leg cannot be priced.  The report is then safe, for every way the position
      may settle, if and only if what the priced records cost is covered by the larger of what is still
      known to be spent and the stored expectation. */
  lemma LostSizeIsSafeExactlyWhen(ts: seq<Trade>, ds: seq<Trade>, expected: Field)
    requires ts != [] && ds != [] && AllPriced(Quotes(ts)) && !AllPriced(Quotes(ds))
    ensures (forall winner: Option<string> ::
               Settle(Quotes(ds), expected, winner) <= Settle(Quotes(ts), expected, winner))
       <==> KnownCost(Quotes(ts)) <= MaxReal(KnownCost(Quotes(ds)), ExpectedLoss(expected))
  {
    ContractsAreNonNegative(ts, "");
    assert Settle(Quotes(ts), expected, Some("")) == -KnownCost(Quotes(ts));
    forall winner: Option<string> ensures Settle(Quotes(ts), expected, winner) >= -KnownCost(Quotes(ts)) {
      ContractsAreNonNegative(ts, if winner.Some? then winner.value else "");
    }
  }

  /** For example, a lone leg that really lost a dollar then reports nothing lost. */
  lemma LostSizeHidesALoss()
    ensures var t := Trade("polymarket", Num(0.5), Num(0.5), Num(2.0), Missing, "buy", "yes", "filled");
            var d := t.(size := Garbage);
            Settle(Quotes([d]), Missing, Some("")) == 0.0 && Settle(Quotes([t]), Missing, Some("")) == -1.0
  {
    var t := Trade("polymarket", Num(0.5), Num(0.5), Num(2.0), Missing, "buy", "yes", "filled");
    var d := t.(size := Garbage);
    assert Lower("polymarket") == "polymarket";
    SettleOne(t, Some(""));
    assert QuoteOf(t).leg == Some(Leg(2.0, 1.0));
    var qs := Quotes([d]);
    assert qs == [QuoteOf(d)] && qs[0].leg.None? && qs[..0] == [];
    assert !AllPriced(qs) && KnownCost(qs) == 0.0;
  }
}
