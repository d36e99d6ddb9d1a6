/** What a backtest run books, snapshot by snapshot, in terms of the recorded fields. */
module Bookings {
  import opened Backtest
  import opened Basics
  import opened Fees
  import opened Solvency

  // ------------------------------------------------------- what is worth a trade

  /** What one unit costs: both recorded prices, or the only one, or what the gross spread leaves of a dollar. */
  function Outlay(s: Snapshot): real {
    match (s.priceA, s.priceB)
    case (Some(a), Some(b)) => a + b
    case (Some(a), None) => a
    case (None, _) => if s.grossSpread > 0.0 then 1.0 - s.grossSpread else 0.0
  }

  /** A gain, on a positive outlay, of at least both thresholds, from a type of the wanted layer. */
  predicate Worthwhile(layers: Layers, p: Params, s: Snapshot) {
    && 0.0 < s.netProfit && 0.0 < Outlay(s)
    && p.minProfit <= s.netProfit
    && p.minRoi * Outlay(s) <= s.netProfit
    && (p.layer.Some? ==> GetLayer(layers, s.oppType) == p.layer.value)
  }

  lemma RatioAtLeast(x: real, d: real, r: real)
    requires 0.0 < d
    ensures x / d >= r <==> r * d <= x
  {
    var q := x / d;
    assert q * d == x;
    if r <= q { MulNonNegative(q - r, d); } else { PositiveProduct(r - q, d, (r - q) * d); }
  }

  lemma EligibleExactlyWhenWorthwhile(layers: Layers, p: Params, s: Snapshot)
    ensures TotalCost(s) == Outlay(s)
    ensures Eligible(layers, p, s) <==> Worthwhile(layers, p, s)
  {
    if 0.0 < Outlay(s) { RatioAtLeast(s.netProfit, Outlay(s), p.minRoi); }
  }

  // ------------------------------------------------------------ each booked trade

  /** The trade bought, for this stake, units of this snapshot: all it may stake, the smaller of the configured size and a
      tenth of the balance before it. */
  predicate Bought(fee: FeeModel, layers: Layers, p: Params, before: real, t: Trade, s: Snapshot, stake: real) {
    && Worthwhile(layers, p, s) && t.oppType == s.oppType && t.roi * Outlay(s) == s.netProfit
    && 0.0 < stake <= p.maxTradeSize && 10.0 * stake <= before && (stake == p.maxTradeSize || 10.0 * stake == before)
    && t.profit * Outlay(s) == fee(s) * stake && t.balanceAfter == before + t.profit
  }

  lemma ScaledProfit(unit: real, cost: real, size: real)
    requires 0.0 < cost
    ensures unit * (size / cost) * cost == unit * size
  {
    var q := size / cost;
    assert q * cost == size;
    assert unit * q * cost == unit * (q * cost);
  }

  lemma StepBuys(fee: FeeModel, layers: Layers, p: Params, b: Book, s: Snapshot)
    requires Eligible(layers, p, s) && 0.0 < TradeSize(p, b.balance)
    ensures var t := Step(fee, layers, p, b, s).log[|b.log|];
            Bought(fee, layers, p, b.balance, t, s, TradeSize(p, b.balance))
  {
    EligibleExactlyWhenWorthwhile(layers, p, s);
    ScaledProfit(fee(s), TotalCost(s), TradeSize(p, b.balance));
    RatioTimes(s.netProfit, TotalCost(s));
  }

  lemma RatioTimes(x: real, d: real)
    requires 0.0 < d
    ensures x / d * d == x
  {}

  function BalanceBefore(initial: real, log: seq<Trade>, k: nat): real
    requires k <= |log|
  {
    if k == 0 then initial else log[k - 1].balanceAfter
  }

  lemma {:induction false} BalanceIsLogged(fee: FeeModel, layers: Layers, p: Params, initial: real, snaps: seq<Snapshot>)
    ensures var b := Replay(fee, layers, p, initial, snaps); b.balance == BalanceBefore(initial, b.log, |b.log|)
  {
    if snaps != [] { BalanceIsLogged(fee, layers, p, initial, snaps[..|snaps| - 1]); }
  }

  /** In any run every booked trade bought a recorded snapshot that meets both thresholds and the layer, staked what the
      sizing rule says, and moved the balance by the unit's profit times the units bought. */
  lemma {:induction false} EveryTradeIsAccountedFor(fee: FeeModel, layers: Layers, p: Params, initial: real,
                                                    snaps: seq<Snapshot>, k: nat)
    returns (i: nat, stake: real)
    requires k < |Replay(fee, layers, p, initial, snaps).log|
    ensures var log := Replay(fee, layers, p, initial, snaps).log;
            i < |snaps| && Bought(fee, layers, p, BalanceBefore(initial, log, k), log[k], snaps[i], stake)
    decreases |snaps|
  {
    var init, s := snaps[..|snaps| - 1], snaps[|snaps| - 1];
    var b := Replay(fee, layers, p, initial, init);
    if k < |b.log| {
      i, stake := EveryTradeIsAccountedFor(fee, layers, p, initial, init, k);
    } else {
      i, stake := |snaps| - 1, TradeSize(p, b.balance);
      BalanceIsLogged(fee, layers, p, initial, init);
      StepBuys(fee, layers, p, b, s);
    }
  }

  // ------------------------------------------------------- and nothing is missed

  function WorthwhileOnly(layers: Layers, p: Params, snaps: seq<Snapshot>): seq<Snapshot> {
    if snaps == [] then []
    else
      var s := snaps[|snaps| - 1];
      WorthwhileOnly(layers, p, snaps[..|snaps| - 1]) + if Worthwhile(layers, p, s) then [s] else []
  }

  lemma {:induction false} SelectedAreWorthwhile(layers: Layers, p: Params, snaps: seq<Snapshot>)
    ensures Selected(layers, p, snaps) == WorthwhileOnly(layers, p, snaps)
  {
    if snaps != [] {
      SelectedAreWorthwhile(layers, p, snaps[..|snaps| - 1]);
      EligibleExactlyWhenWorthwhile(layers, p, snaps[|snaps| - 1]);
    }
  }

  /** A solvent run books exactly the worthwhile snapshots, one trade each, in order. */
  lemma SolventRunBooksTheWorthwhile(fee: FeeModel, layers: Layers, p: Params, initial: real, snaps: seq<Snapshot>)
    requires AllSurvivable(fee, layers, p, snaps) && 0.0 < initial && 0.0 < p.maxTradeSize
    ensures Books(Replay(fee, layers, p, initial, snaps).log, WorthwhileOnly(layers, p, snaps))
  {
    SolventAndFiltered(fee, layers, p, initial, snaps);
    SelectedAreWorthwhile(layers, p, snaps);
  }

  // --------------------------------------------------------- how a unit is priced

  /** A dollar less the outlay, less fees where that is a gain. */
  function Kept(a: real, b: real, fees: real): real {
    if a + b < 1.0 then 1.0 - (a + b) - fees else 1.0 - (a + b)
  }

  /** The commission of the one winning back bet of a two-runner book: on the cheaper runner's winnings. */
  function BookCommission(a: real, b: real, rate: real): real {
    var cheaper := if b < a then b else a;
    if cheaper < 1.0 then (1.0 - cheaper) * rate else 0.0
  }

  /** Backing at one price and laying at a better one. */
  function BackedAndLaid(back: real, lay: real, rate: real): real {
    if back < lay then (lay - back) - (lay - back) * rate else 0.0
  }

  lemma TwoLegs(cfg: Config, a: real, b: real)
    ensures Sum([a, b]) == a + b
    ensures SumPolymarket(cfg, [a, b]) == PolymarketTakerFee(cfg, a) + PolymarketTakerFee(cfg, b)
    ensures SumKalshi(cfg, [a, b]) == KalshiTakerFee(cfg, a, 1, false) + KalshiTakerFee(cfg, b, 1, false)
  {
    assert [a, b][..1] == [a] && [a][..0] == [];
    assert Sum([a]) == a && SumPolymarket(cfg, [a]) == PolymarketTakerFee(cfg, a);
    assert SumKalshi(cfg, [a]) == KalshiTakerFee(cfg, a, 1, false);
  }

  lemma CheaperOfTwo(a: real, b: real)
    ensures Least([a, b]) == if b < a then b else a
  {
    assert [a, b][..1] == [a] && Least([a]) == a;
  }

  /** Two legs of one venue: what is kept of the dollar. */
  lemma VenueUnits(cfg: Config, s: Snapshot, a: real, b: real)
    ensures var poly := PolymarketTakerFee(cfg, a) + PolymarketTakerFee(cfg, b) + 2.0 * cfg.gas;
            var kalshi := KalshiTakerFee(cfg, a, 1, false) + KalshiTakerFee(cfg, b, 1, false);
            && UnitBy(cfg, PolymarketPair, s, a, b) == UnitBy(cfg, PolymarketSet, s, a, b) == Kept(a, b, poly)
            && UnitBy(cfg, KalshiPair, s, a, b) == UnitBy(cfg, KalshiSet, s, a, b) == Kept(a, b, kalshi)
            && UnitBy(cfg, GeminiPair, s, a, b) == Kept(a, b, GeminiFee(cfg, a) + GeminiFee(cfg, b))
            && UnitBy(cfg, IbkrPair, s, a, b) == Kept(a, b, 0.0)
  {
    TwoLegs(cfg, a, b);
  }

  /** Two runners of an exchange, and a bet backed and laid. */
  lemma BookUnits(cfg: Config, s: Snapshot, a: real, b: real, rate: real)
    ensures UnitBy(cfg, BackAll(rate), s, a, b) == Kept(a, b, BookCommission(a, b, rate))
  {
    TwoLegs(cfg, a, b);
    CommissionOfTwo(a, b, rate);
  }

  lemma CommissionOfTwo(a: real, b: real, rate: real)
    ensures Commission(1.0 - Least([a, b]), rate) == BookCommission(a, b, rate)
  {
    CheaperOfTwo(a, b);
  }

  lemma BackLayUnits(cfg: Config, s: Snapshot, a: real, b: real, rate: real)
    ensures UnitBy(cfg, BackLay(rate), s, a, b) == BackedAndLaid(a, b, rate)
  {}

  // -------------------------------------------------------- which formula prices a type

  lemma Differ(t: string, u: string, i: nat)
    requires i < |t| && i < |u| && t[i] != u[i]
    ensures t != u && !(u <= t)
  {}

  /** What the tests of the chain that begin with another letter come to. */
  lemma ByFirstLetter(t: string)
    requires t != ""
    ensures t[0] != 'B' ==> t != "Binary" && t != "BetfairBackAll" && t != "BetfairBackLay"
    ensures t[0] != 'N' ==> !("NegRisk" <= t)
    ensures t[0] != 'K' ==> !("KalshiBinary" <= t) && !("KalshiMulti" <= t)
    ensures t[0] != 'T' ==> t != "TriangularCross"
    ensures t[0] != 'M' ==> !("MultiCross" <= t) && t != "MatchbookBackAll" && t != "MatchbookBackLay"
    ensures t[0] != 'S' ==> t != "SmarketsBackAll" && t != "SmarketsBackLay" && t != "SXBetBackAll" && t != "SXBetBackLay"
    ensures t[0] != 'G' ==> !("Gemini" <= t)
    ensures t[0] != 'I' ==> !("IBKR" <= t)
    ensures t[0] != 'C' ==> !("Cross" <= t)
  {}

  /** Polymarket's binaries, and Betfair at five percent. */
  lemma TypesInB(t: string)
    requires t != "" && t[0] == 'B'
    ensures t == "Binary" ==> FormulaOf(t) == PolymarketPair
    ensures t == "BetfairBackAll" ==> FormulaOf(t) == BackAll(0.05)
    ensures t == "BetfairBackLay" ==> FormulaOf(t) == BackLay(0.05)
  {
    ByFirstLetter(t);
    if t == "BetfairBackAll" {
      Differ(t, "Binary", 1);
    } else if t == "BetfairBackLay" {
      Differ(t, "Binary", 1);
    }
  }

  /** Parameterised types are priced by the name they begin with, whatever follows it. */
  lemma TypesInN(t: string)
    requires "NegRisk" <= t
    ensures FormulaOf(t) == PolymarketSet
  {
    ByFirstLetter(t);
  }

  lemma TypesInK(t: string)
    requires t != "" && t[0] == 'K'
    ensures "KalshiBinary" <= t ==> FormulaOf(t) == KalshiPair
    ensures "KalshiMulti" <= t ==> FormulaOf(t) == KalshiSet
  {
    ByFirstLetter(t);
    if "KalshiMulti" <= t { Differ(t, "KalshiBinary", 6); }
  }

  lemma TypesInGIC(t: string)
    requires "Gemini" <= t || "IBKR" <= t || "Cross" <= t
    ensures "Gemini" <= t ==> FormulaOf(t) == GeminiPair
    ensures "IBKR" <= t ==> FormulaOf(t) == IbkrPair
    ensures "Cross" <= t ==> FormulaOf(t) == TwoVenues
  {
    ByFirstLetter(t);
  }

  lemma TriangularIsTwoVenues()
    ensures FormulaOf("TriangularCross") == TwoVenues
  {
    ByFirstLetter("TriangularCross");
  }

  /** Sets across venues, and Matchbook without commission. */
  lemma TypesInM(t: string)
    requires t != "" && t[0] == 'M'
    ensures "MultiCross" <= t ==> FormulaOf(t) == ManyVenues
    ensures t == "MatchbookBackAll" ==> FormulaOf(t) == BackAll(0.0)
    ensures t == "MatchbookBackLay" ==> FormulaOf(t) == BackLay(0.0)
    ensures t == "MarketMake" ==> FormulaOf(t) == Estimate
  {
    ByFirstLetter(t);
    if t == "MatchbookBackAll" {
      Differ(t, "MultiCross", 1);
    } else if t == "MatchbookBackLay" {
      Differ(t, "MultiCross", 1);
      Differ(t, "MatchbookBackAll", 13);
    } else if t == "MarketMake" {
      Differ(t, "MultiCross", 1);
    }
  }

  /** Smarkets at two percent, and SX Bet without commission. */
  lemma TypesInS(t: string)
    requires t != "" && t[0] == 'S'
    ensures t == "SmarketsBackAll" ==> FormulaOf(t) == BackAll(0.02)
    ensures t == "SmarketsBackLay" ==> FormulaOf(t) == BackLay(0.02)
    ensures t == "SXBetBackAll" ==> FormulaOf(t) == BackAll(0.0)
    ensures t == "SXBetBackLay" ==> FormulaOf(t) == BackLay(0.0)
    ensures t == "StalePriceOpp" ==> FormulaOf(t) == Estimate
  {
    ByFirstLetter(t);
    if t == "SXBetBackLay" { Differ(t, "SXBetBackAll", 9); }
  }

  /** Signals and directional trades keep the profit estimated when they were found. */
  lemma EstimatedTypes(t: string)
    requires t == "ResolutionSnipeOpp" || t == "EventDivergence" || t == "ConvergenceOpp"
    ensures FormulaOf(t) == Estimate
  {
    ByFirstLetter(t);
    if t == "ConvergenceOpp" { Differ(t, "Cross", 1); }
  }

  // ------------------------------------------------------------------ the layers

  /** A strategy's layer: that of its own name, or else of the first listed name it begins with, or else none. */
  lemma {:induction false} LayerOfAType(layers: Layers, t: string, i: nat)
    requires i < |layers|
    ensures layers[i].0 == t && (forall j :: 0 <= j < i ==> layers[j].0 != t) ==> GetLayer(layers, t) == layers[i].1
    ensures (layers[i].0 <= t && (forall j :: 0 <= j < |layers| ==> layers[j].0 != t)
             && (forall j :: 0 <= j < i ==> !(layers[j].0 <= t))) ==> GetLayer(layers, t) == layers[i].1
    ensures (forall j :: 0 <= j < |layers| ==> !(layers[j].0 <= t)) ==> GetLayer(layers, t) == 0
  {
    var exact := seq(|layers|, j requires 0 <= j < |layers| => layers[j].0 == t);
    var prefix := seq(|layers|, j requires 0 <= j < |layers| => layers[j].0 <= t);
    FirstHit(layers, prefix, 0, i);
    FirstHit(layers, exact, FirstLayer(layers, prefix, 0), i);
    if layers[i].0 == t { assert layers[i].0 <= t; }
  }

  lemma {:induction false} FirstHit(layers: Layers, hit: seq<bool>, default: int, i: nat)
    requires |hit| == |layers| && i < |layers|
    ensures hit[i] && (forall j :: 0 <= j < i ==> !hit[j]) ==> FirstLayer(layers, hit, default) == layers[i].1
    ensures (forall j :: 0 <= j < |hit| ==> !hit[j]) ==> FirstLayer(layers, hit, default) == default
    decreases |layers|
  {
    if i > 0 && !hit[0] {
      FirstHit(layers[1..], hit[1..], default, i - 1);
      assert forall j :: 0 <= j < i - 1 ==> hit[1..][j] == hit[j + 1];
      assert forall j :: 0 <= j < |hit| - 1 ==> hit[1..][j] == hit[j + 1];
    } else if i == 0 && !hit[0] {
      NoHit(layers, hit, default);
    }
  }

  lemma {:induction false} NoHit(layers: Layers, hit: seq<bool>, default: int)
    requires |hit| == |layers|
    ensures (forall j :: 0 <= j < |hit| ==> !hit[j]) ==> FirstLayer(layers, hit, default) == default
    decreases |layers|
  {
    if layers != [] {
      NoHit(layers[1..], hit[1..], default);
      assert forall j :: 0 <= j < |hit| - 1 ==> hit[1..][j] == hit[j + 1];
    }
  }
}
