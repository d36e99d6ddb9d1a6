/** Solvency of the backtest: how much a unit may lose before a run can lose everything. */
module Solvency {
  import opened Basics
  import opened Fees
  import opened Backtest

  // ---------------------------------------------------------- what a unit can lose

  /** Recorded prices are prices: absent, or at least zero. */
  predicate PricesOk(s: Snapshot) {
    (s.priceA.Some? ==> 0.0 <= s.priceA.value) && (s.priceB.Some? ==> 0.0 <= s.priceB.value)
  }

  /** A set that pays one dollar loses no more than it cost if and only if it is charged nothing or its fees are
      at most the dollar. */
  lemma ChargedBoundExactlyWhen(gross: real, fees: real, cost: real)
    requires gross == 1.0 - cost
    ensures Charged(gross, fees).profit >= -cost <==> gross <= 0.0 || fees <= 1.0
  {}

  lemma SumOfTwo(a: real, b: real)
    ensures Sum([a, b]) == a + b
  {
    assert [a, b][..1] == [a] && [a][..0] == [];
    assert Sum([a]) == a;
  }

  lemma CrossBound(cfg: Config, a: real, b: real, platA: string, platB: string)
    requires Modest(cfg) && 0.0 <= a && 0.0 <= b && 0.0 < a + b
    ensures NetCrossGeneric(cfg, a, b, platA, platB).profit >= -(a + b)
  {
    EntryBound(cfg, a, platA);
    EntryBound(cfg, b, platB);
    WinBound(a, platA);
    WinBound(b, platB);
    var entry := EntryFee(cfg, a, platA) + EntryFee(cfg, b, platB);
    SelectBound(cfg, WinFee(a, platA) + entry, WinFee(b, platB) + entry, a, 0.57);
    var fees := SelectFees(cfg, WinFee(a, platA) + entry, WinFee(b, platB) + entry, a);
    ChargedBoundExactlyWhen(1.0 - (a + b), fees + (if platA == "polymarket" || platB == "polymarket" then cfg.gas else 0.0), a + b);
  }

  lemma EntriesOfTwo(cfg: Config, a: real, b: real, n: nat, plats: seq<string>)
    requires Modest(cfg) && n <= 2 && |plats| == n
    ensures SumEntry(cfg, [a, b][..n], plats) <= 0.52
  {
    var ps := [a, b][..n];
    if n >= 1 {
      EntryBound(cfg, a, plats[0]);
      assert ps[..1] == [a] && [a][..0] == [] && plats[..1][..0] == [];
      assert SumEntry(cfg, ps[..1], plats[..1]) == EntryFee(cfg, a, plats[0]);
      assert plats[..n] == plats && ps[..n] == ps;
    }
    if n == 2 { EntryBound(cfg, b, plats[1]); }
  }

  lemma WinOfTwo(a: real, b: real, n: nat, plats: seq<string>)
    requires 0.0 <= a && 0.0 <= b && n <= 2 && |plats| == n
    ensures Greatest(WinFees([a, b][..n], plats)) <= 0.05
  {
    var w := WinFees([a, b][..n], plats);
    forall i | 0 <= i < |w| ensures w[i] <= 0.05 { WinBound([a, b][i], plats[i]); }
  }

  lemma MultiCrossBound(cfg: Config, a: real, b: real, plats: seq<string>)
    requires Modest(cfg) && 0.0 <= a && 0.0 <= b && 0.0 < a + b && |plats| <= 2
    ensures NetMultiCross(cfg, [a, b], plats).profit >= -(a + b)
  {
    var ps, n := [a, b], |plats|;
    SumOfTwo(a, b);
    assert plats[..n] == plats;
    EntriesOfTwo(cfg, a, b, n, plats);
    WinOfTwo(a, b, n, plats);
    ChargedBoundExactlyWhen(1.0 - (a + b),
      SumEntry(cfg, ps[..n], plats) + Greatest(WinFees(ps[..n], plats)) + (if "polymarket" in plats then cfg.gas else 0.0),
      a + b);
  }

  lemma NegriskBound(cfg: Config, a: real, b: real)
    requires Modest(cfg) && 0.0 <= a && 0.0 <= b && 0.0 < a + b
    ensures NetNegriskInternal(cfg, [a, b]).profit >= -(a + b)
  {
    SumOfTwo(a, b);
    PolymarketBound(cfg, a);
    PolymarketBound(cfg, b);
    assert [a, b][..1] == [a] && [a][..0] == [];
    assert SumPolymarket(cfg, [a]) == PolymarketTakerFee(cfg, a);
    assert SumPolymarket(cfg, [a, b]) <= 0.5;
  }

  lemma KalshiMultiBound(cfg: Config, a: real, b: real)
    requires 0.0 < a + b
    ensures NetKalshiMulti(cfg, [a, b]).profit >= -(a + b)
  {
    SumOfTwo(a, b);
    KalshiBound(cfg, a);
    KalshiBound(cfg, b);
    assert [a, b][..1] == [a] && [a][..0] == [];
    assert SumKalshi(cfg, [a]) == KalshiTakerFee(cfg, a, 1, false);
    assert SumKalshi(cfg, [a, b]) <= 0.04;
  }

  lemma BackAllBound(a: real, b: real, rate: real)
    requires 0.0 <= a && 0.0 <= b && 0.0 < a + b && 0.0 <= rate <= 1.0
    ensures NetBackAll([a, b], rate).profit >= -(a + b)
  {
    SumOfTwo(a, b);
    assert 0.0 <= Least([a, b]);
    CommissionIsModest(1.0 - Least([a, b]), rate);
  }

  /** Commission on at most a dollar of winnings is at most a dollar. */
  lemma CommissionIsModest(winnings: real, rate: real)
    requires winnings <= 1.0 && 0.0 <= rate <= 1.0
    ensures 0.0 <= Commission(winnings, rate) <= 1.0
  {
    if winnings > 0.0 {
      Shrink(rate, winnings);
      assert winnings * rate == rate * winnings;
    }
  }

  lemma BackLayBound(back: real, lay: real, rate: real)
    requires 0.0 <= rate <= 1.0
    ensures NetBackLay(back, lay, rate).profit >= 0.0
  {
    if lay > back { Shrink(rate, lay - back); }
  }

  lemma BinaryBounds(cfg: Config, a: real, b: real)
    requires Modest(cfg) && 0.0 < a + b
    ensures NetBinaryInternal(cfg, a, b).profit >= -(a + b)
    ensures NetKalshiBinary(cfg, a, b).profit >= -(a + b)
    ensures NetGeminiBinary(cfg, a, b).profit >= -(a + b)
    ensures NetIbkrBinary(a, b).profit >= -(a + b)
  {
    PolymarketBound(cfg, a);
    PolymarketBound(cfg, b);
    KalshiBound(cfg, a);
    KalshiBound(cfg, b);
    GeminiBound(cfg, a);
    GeminiBound(cfg, b);
  }

  /** The fee functions the dispatch on the opportunity type chooses from. */
  predicate FeeModelled(cfg: Config, s: Snapshot, a: real, b: real, profit: real) {
    || profit == s.netProfit
    || profit == NetBinaryInternal(cfg, a, b).profit
    || profit == NetNegriskInternal(cfg, [a, b]).profit
    || profit == NetKalshiBinary(cfg, a, b).profit
    || profit == NetKalshiMulti(cfg, [a, b]).profit
    || profit == NetCrossGeneric(cfg, a, b, s.platformA, s.platformB).profit
    || profit == NetMultiCross(cfg, [a, b], FirstTwo(s.platforms)).profit
    || profit == NetBackAll([a, b], BETFAIR).profit
    || profit == NetBackAll([a, b], SMARKETS).profit
    || profit == NetBackAll([a, b], 0.0).profit
    || profit == NetBackLay(a, b, BETFAIR).profit
    || profit == NetBackLay(a, b, SMARKETS).profit
    || profit == NetBackLay(a, b, 0.0).profit
    || profit == NetGeminiBinary(cfg, a, b).profit
    || profit == NetIbkrBinary(a, b).profit
  }

  lemma DispatchChoosesAFeeModel(cfg: Config, s: Snapshot)
    requires s.priceA.Some? && s.priceB.Some?
    ensures FeeModelled(cfg, s, s.priceA.value, s.priceB.value, UnitProfit(cfg, s))
  {
    RatesOfFormulas(s.oppType);
    UnitIsModelled(cfg, FormulaOf(s.oppType), s, s.priceA.value, s.priceB.value);
  }

  lemma RatesOfFormulas(t: string)
    ensures var f := FormulaOf(t); f.BackAll? || f.BackLay? ==> f.rate == BETFAIR || f.rate == SMARKETS || f.rate == 0.0
  {}

  lemma UnitIsModelled(cfg: Config, f: Formula, s: Snapshot, a: real, b: real)
    requires f.BackAll? || f.BackLay? ==> f.rate == BETFAIR || f.rate == SMARKETS || f.rate == 0.0
    ensures FeeModelled(cfg, s, a, b, UnitBy(cfg, f, s, a, b))
  {}

  /** Whatever the strategy, a unit never loses more than it cost. */
  lemma UnitNeverLosesMoreThanItCost(cfg: Config, s: Snapshot)
    requires Modest(cfg) && PricesOk(s) && s.netProfit > 0.0 && TotalCost(s) > 0.0
    ensures UnitProfit(cfg, s) >= -TotalCost(s)
  {
    if s.priceA.Some? && s.priceB.Some? {
      var (a, b) := (s.priceA.value, s.priceB.value);
      DispatchChoosesAFeeModel(cfg, s);
      BinaryBounds(cfg, a, b);
      NegriskBound(cfg, a, b);
      KalshiMultiBound(cfg, a, b);
      CrossBound(cfg, a, b, s.platformA, s.platformB);
      MultiCrossBound(cfg, a, b, FirstTwo(s.platforms));
      BackAllBound(a, b, BETFAIR);
      BackAllBound(a, b, SMARKETS);
      BackAllBound(a, b, 0.0);
      BackLayBound(a, b, BETFAIR);
      BackLayBound(a, b, SMARKETS);
      BackLayBound(a, b, 0.0);
    }
  }

  // ------------------------------------------------------------ one trade's effect

  /** A unit loses less than ten times its cost; a trade stakes at most a tenth of the balance. */
  predicate Survivable(fee: FeeModel, s: Snapshot) {
    fee(s) > -10.0 * TotalCost(s)
  }

  lemma ScaleByUnits(unit: real, cost: real, size: real, factor: real)
    requires unit > factor * cost && 0.0 < cost && 0.0 < size
    ensures unit * (size / cost) > factor * size
  {
    var q := size / cost;
    assert q * cost == size;
    PositiveProduct(unit - factor * cost, q, (unit - factor * cost) * q);
    Expand(unit, factor, cost, q);
  }

  lemma Expand(unit: real, factor: real, cost: real, q: real)
    ensures (unit - factor * cost) * q == unit * q - factor * (q * cost)
  {}

  lemma ScaleByUnitsAtMost(unit: real, cost: real, size: real, factor: real)
    requires unit <= factor * cost && 0.0 < cost && 0.0 < size
    ensures unit * (size / cost) <= factor * size
  {
    var q := size / cost;
    assert q * cost == size;
    MulNonNegative(factor * cost - unit, q);
    Expand(unit, factor, cost, q);
  }

  /** A survivable trade leaves something; one that is not takes everything once its size is a tenth. */
  lemma TradeLeavesSomethingExactlyWhen(fee: FeeModel, p: Params, balance: real, s: Snapshot)
    requires TotalCost(s) > 0.0 && 0.0 < balance && 0.0 < p.maxTradeSize
    ensures Survivable(fee, s) ==> balance + TradeProfit(fee, p, balance, s) > 0.0
    ensures !Survivable(fee, s) && balance <= 10.0 * p.maxTradeSize ==> balance + TradeProfit(fee, p, balance, s) <= 0.0
  {
    if Survivable(fee, s) {
      ScaleByUnits(fee(s), TotalCost(s), TradeSize(p, balance), -10.0);
    } else {
      ScaleByUnitsAtMost(fee(s), TotalCost(s), TradeSize(p, balance), -10.0);
    }
  }

  /** One trade of a unit that loses at most its cost loses at most a tenth of the balance. */
  lemma TradeLosesAtMostATenth(fee: FeeModel, p: Params, balance: real, s: Snapshot)
    requires TotalCost(s) > 0.0 && fee(s) >= -TotalCost(s)
    requires 0.0 < TradeSize(p, balance)
    ensures TradeProfit(fee, p, balance, s) >= -0.1 * balance
  {
    ScaleByUnitsAtMost(-fee(s), TotalCost(s), TradeSize(p, balance), 1.0);
    Negate(fee(s), TradeSize(p, balance) / TotalCost(s));
  }

  lemma Negate(x: real, y: real)
    ensures (-x) * y == -(x * y)
  {}

  // ------------------------------------------------------------------- whole runs

  /** The snapshots that pass every filter but the trade size, in order. */
  function Selected(layers: Layers, p: Params, snaps: seq<Snapshot>): seq<Snapshot> {
    if snaps == [] then []
    else
      var s := snaps[|snaps| - 1];
      Selected(layers, p, snaps[..|snaps| - 1]) + if Eligible(layers, p, s) then [s] else []
  }

  predicate IsTradeOf(t: Trade, s: Snapshot) {
    t.oppType == s.oppType && TotalCost(s) > 0.0 && t.roi == s.netProfit / TotalCost(s)
  }

  /** The log books exactly these snapshots, one trade each, in order. */
  predicate Books(log: seq<Trade>, picked: seq<Snapshot>) {
    |log| == |picked| && forall i :: 0 <= i < |log| ==> IsTradeOf(log[i], picked[i])
  }

  predicate CanTrade(p: Params, initial: real) {
    0.0 < initial && 0.0 < p.maxTradeSize
  }

  lemma BooksOneMore(log: seq<Trade>, picked: seq<Snapshot>, t: Trade, s: Snapshot)
    requires Books(log, picked) && TotalCost(s) > 0.0
    requires t.oppType == s.oppType && t.roi == s.netProfit / TotalCost(s)
    ensures Books(log + [t], picked + [s])
  {}

  lemma StepBooks(fee: FeeModel, layers: Layers, p: Params, b: Book, s: Snapshot, picked: seq<Snapshot>)
    requires Eligible(layers, p, s) ==> Survivable(fee, s)
    requires 0.0 < b.balance && 0.0 < p.maxTradeSize && Books(b.log, picked)
    ensures var next := Step(fee, layers, p, b, s);
            0.0 < next.balance && Books(next.log, picked + if Eligible(layers, p, s) then [s] else [])
  {
    if Eligible(layers, p, s) {
      TradeLeavesSomethingExactlyWhen(fee, p, b.balance, s);
      var next := Step(fee, layers, p, b, s);
      BooksOneMore(b.log, picked, next.log[|b.log|], s);
    } else {
      assert picked + [] == picked;
    }
  }

  /** Every snapshot the run may trade is survivable. */
  predicate AllSurvivable(fee: FeeModel, layers: Layers, p: Params, snaps: seq<Snapshot>) {
    snaps == [] || (AllSurvivable(fee, layers, p, snaps[..|snaps| - 1])
                    && (Eligible(layers, p, snaps[|snaps| - 1]) ==> Survivable(fee, snaps[|snaps| - 1])))
  }

  /** The balance never reaches zero, so the traded snapshots are a pure filter of the input: the log books
      exactly the eligible ones, in order. */
  lemma {:induction false} SolventAndFiltered(fee: FeeModel, layers: Layers, p: Params, initial: real, snaps: seq<Snapshot>)
    requires AllSurvivable(fee, layers, p, snaps)
    ensures var b := Replay(fee, layers, p, initial, snaps);
            if CanTrade(p, initial) then 0.0 < b.balance && Books(b.log, Selected(layers, p, snaps))
            else b == Open(initial)
  {
    if snaps != [] {
      var init, s := snaps[..|snaps| - 1], snaps[|snaps| - 1];
      SolventAndFiltered(fee, layers, p, initial, init);
      if CanTrade(p, initial) {
        StepBooks(fee, layers, p, Replay(fee, layers, p, initial, init), s, Selected(layers, p, init));
      }
    }
  }

  /** How much one snapshot can multiply a balance, at most. */
  function Growth(fee: FeeModel, s: Snapshot): (g: real)
    ensures g >= 1.0
  {
    if TotalCost(s) > 0.0 && fee(s) > 0.0 then 1.0 + fee(s) / TotalCost(s) else 1.0
  }

  lemma GainIsBounded(unit: real, cost: real, size: real, balance: real)
    requires 0.0 < cost && 0.0 < size <= balance
    ensures balance + unit * (size / cost) <= balance * (if unit > 0.0 then 1.0 + unit / cost else 1.0)
  {
    var r := unit / cost;
    assert unit == r * cost;
    assert unit * (size / cost) == r * size by {
      var q := size / cost;
      assert q * cost == size;
      assert r * cost * q == r * (q * cost);
    }
    if unit > 0.0 {
      assert r > 0.0;
      MulNonNegative(r, balance - size);
      assert balance * (1.0 + r) == balance + r * balance;
      assert r * (balance - size) == r * balance - r * size;
    } else {
      ScaleByUnitsAtMost(unit, cost, size, 0.0);
    }
  }

  lemma StepGrowth(fee: FeeModel, layers: Layers, p: Params, b: Book, s: Snapshot)
    requires 0.0 < b.balance && 0.0 < p.maxTradeSize
    ensures Step(fee, layers, p, b, s).balance <= b.balance * Growth(fee, s)
  {
    if Eligible(layers, p, s) {
      GainIsBounded(fee(s), TotalCost(s), TradeSize(p, b.balance), b.balance);
    } else {
      MulNonNegative(b.balance, Growth(fee, s) - 1.0);
    }
  }

  lemma Shrunk(bound: real, g: real) returns (smaller: real)
    requires 0.0 < bound && g >= 1.0
    ensures 0.0 < smaller && smaller * g == bound
  {
    smaller := bound / g;
  }

  /** A balance small enough before a survivable trade is positive and within the bound after it. */
  lemma SmallStep(fee: FeeModel, layers: Layers, p: Params, b: Book, s: Snapshot, smaller: real, bound: real)
    requires 0.0 < b.balance <= smaller && smaller * Growth(fee, s) == bound && 0.0 < p.maxTradeSize
    requires Eligible(layers, p, s) ==> Survivable(fee, s)
    ensures 0.0 < Step(fee, layers, p, b, s).balance <= bound
  {
    StepGrowth(fee, layers, p, b, s);
    ScaleUp(b.balance, smaller, Growth(fee, s));
    if Eligible(layers, p, s) { TradeLeavesSomethingExactlyWhen(fee, p, b.balance, s); }
  }

  lemma ScaleUp(x: real, y: real, g: real)
    requires x <= y && g >= 1.0
    ensures x * g <= y * g
  {
    MulNonNegative(y - x, g);
  }

  /** A run can be started small enough to stay positive and below any bound for as long as its trades are
      survivable. */
  lemma {:induction false} SmallStart(fee: FeeModel, layers: Layers, p: Params, snaps: seq<Snapshot>, bound: real)
    returns (initial: real)
    requires 0.0 < bound && 0.0 < p.maxTradeSize && AllSurvivable(fee, layers, p, snaps)
    ensures 0.0 < initial && 0.0 < Replay(fee, layers, p, initial, snaps).balance <= bound
    decreases |snaps|
  {
    if snaps == [] {
      initial := bound;
    } else {
      var init, s := snaps[..|snaps| - 1], snaps[|snaps| - 1];
      var smaller := Shrunk(bound, Growth(fee, s));
      initial := SmallStart(fee, layers, p, init, smaller);
      SmallStep(fee, layers, p, Replay(fee, layers, p, initial, init), s, smaller, bound);
    }
  }

  /** A snapshot that is not survivable ruins some run: one started small enough to stake a full tenth on it. */
  lemma {:induction false} RuinousStart(fee: FeeModel, layers: Layers, p: Params, snaps: seq<Snapshot>) returns (initial: real)
    requires 0.0 < p.maxTradeSize && !AllSurvivable(fee, layers, p, snaps)
    ensures 0.0 < initial && Replay(fee, layers, p, initial, snaps).balance <= 0.0
    decreases |snaps|
  {
    var init, s := snaps[..|snaps| - 1], snaps[|snaps| - 1];
    if AllSurvivable(fee, layers, p, init) {
      initial := SmallStart(fee, layers, p, init, 10.0 * p.maxTradeSize);
      TradeLeavesSomethingExactlyWhen(fee, p, Replay(fee, layers, p, initial, init).balance, s);
    } else {
      initial := RuinousStart(fee, layers, p, init);
    }
  }

  ghost predicate AlwaysSolvent(fee: FeeModel, layers: Layers, p: Params, snaps: seq<Snapshot>) {
    forall initial: real :: 0.0 < initial ==> 0.0 < Replay(fee, layers, p, initial, snaps).balance
  }

  /** The exact condition for solvency: from every positive initial balance the run keeps a positive balance
      if and only if no eligible snapshot's unit loses ten times its cost or more. */
  lemma SolventExactlyWhenSurvivable(fee: FeeModel, layers: Layers, p: Params, snaps: seq<Snapshot>)
    requires 0.0 < p.maxTradeSize
    ensures AlwaysSolvent(fee, layers, p, snaps) <==> AllSurvivable(fee, layers, p, snaps)
  {
    if AllSurvivable(fee, layers, p, snaps) {
      forall initial: real | 0.0 < initial ensures 0.0 < Replay(fee, layers, p, initial, snaps).balance {
        SolventAndFiltered(fee, layers, p, initial, snaps);
      }
    } else {
      var initial := RuinousStart(fee, layers, p, snaps);
      assert !(0.0 < Replay(fee, layers, p, initial, snaps).balance);
    }
  }

  /** With modest configured rates every recorded price list is survivable, whatever the thresholds. */
  lemma {:induction false} ModestRatesSurvive(cfg: Config, layers: Layers, p: Params, snaps: seq<Snapshot>)
    requires Modest(cfg) && forall i :: 0 <= i < |snaps| ==> PricesOk(snaps[i])
    ensures AllSurvivable(FeesOf(cfg), layers, p, snaps)
  {
    if snaps != [] {
      var s := snaps[|snaps| - 1];
      ModestRatesSurvive(cfg, layers, p, snaps[..|snaps| - 1]);
      if Eligible(layers, p, s) { UnitNeverLosesMoreThanItCost(cfg, s); }
    }
  }

  // ---------------------------------------------------------- raising a threshold

  predicate Raises(loose: Params, tight: Params) {
    && tight == loose.(minRoi := tight.minRoi, minProfit := tight.minProfit)
    && loose.minRoi <= tight.minRoi && loose.minProfit <= tight.minProfit
  }

  /** Tighter thresholds select among what the looser ones select. */
  lemma {:induction false} TighterSelectsAmong(layers: Layers, loose: Params, tight: Params, snaps: seq<Snapshot>)
    requires Raises(loose, tight)
    ensures Selected(layers, tight, Selected(layers, loose, snaps)) == Selected(layers, tight, snaps)
    ensures |Selected(layers, tight, snaps)| <= |Selected(layers, loose, snaps)|
  {
    if snaps != [] {
      var init, s := snaps[..|snaps| - 1], snaps[|snaps| - 1];
      TighterSelectsAmong(layers, loose, tight, init);
      var among := Selected(layers, loose, init);
      assert (among + [s])[..|among|] == among && among + [] == among;
    }
  }

  lemma {:induction false} TighterSurvives(fee: FeeModel, layers: Layers, loose: Params, tight: Params, snaps: seq<Snapshot>)
    requires AllSurvivable(fee, layers, loose, snaps)
    requires Raises(loose, tight)
    ensures AllSurvivable(fee, layers, tight, snaps)
  {
    if snaps != [] { TighterSurvives(fee, layers, loose, tight, snaps[..|snaps| - 1]); }
  }

  /** Raising either threshold never adds a trade, although it changes every later trade's size. */
  lemma TradeCountIsMonotone(fee: FeeModel, layers: Layers, loose: Params, tight: Params, initial: real, snaps: seq<Snapshot>)
    requires AllSurvivable(fee, layers, loose, snaps)
    requires Raises(loose, tight)
    ensures |Replay(fee, layers, tight, initial, snaps).log| <= |Replay(fee, layers, loose, initial, snaps).log|
  {
    TighterSurvives(fee, layers, loose, tight, snaps);
    SolventAndFiltered(fee, layers, loose, initial, snaps);
    SolventAndFiltered(fee, layers, tight, initial, snaps);
    TighterSelectsAmong(layers, loose, tight, snaps);
  }

  // ------------------------------------------------ exactly when it never does

  /** Every snapshot the engine may be shown, and could trade, is survivable. */
  ghost predicate EverySurvivable(fee: FeeModel, recorded: Snapshot -> bool) {
    forall s: Snapshot :: recorded(s) && s.netProfit > 0.0 && TotalCost(s) > 0.0 ==> Survivable(fee, s)
  }

  predicate AllRecorded(snaps: seq<Snapshot>, recorded: Snapshot -> bool) {
    forall i :: 0 <= i < |snaps| ==> recorded(snaps[i])
  }

  /** Whatever is recorded, raising thresholds adds no trade. */
  ghost predicate RaisingNeverAdds(fee: FeeModel, recorded: Snapshot -> bool) {
    forall layers, loose, tight, initial, snaps :: AllRecorded(snaps, recorded) && Raises(loose, tight) ==>
      |Replay(fee, layers, tight, initial, snaps).log| <= |Replay(fee, layers, loose, initial, snaps).log|
  }

  lemma {:induction false} EveryIsAll(fee: FeeModel, recorded: Snapshot -> bool, layers: Layers, p: Params, snaps: seq<Snapshot>)
    requires EverySurvivable(fee, recorded) && AllRecorded(snaps, recorded)
    ensures AllSurvivable(fee, layers, p, snaps)
  {
    if snaps != [] { EveryIsAll(fee, recorded, layers, p, snaps[..|snaps| - 1]); }
  }

  /** A snapshot no fee function applies to: twenty cents, booked at its own estimate. */
  function Signal(profit: real): Snapshot {
    Snapshot(profit, 0.0, "Signal", Some(0.2), None, "", "", [])
  }

  /** Trades of up to 1000 dollars, and no threshold but one on profit. */
  function FromProfit(minProfit: real): Params {
    Params(0.0, minProfit, 1000.0, None)
  }

  lemma Tradable(s: Snapshot, minProfit: real)
    requires s.netProfit > 0.0 && TotalCost(s) > 0.0 && s.netProfit >= minProfit
    ensures Eligible([], FromProfit(minProfit), s)
  {
    var roi := s.netProfit / TotalCost(s);
    assert roi * TotalCost(s) == s.netProfit;
  }

  lemma ReplayOfThree(fee: FeeModel, p: Params, initial: real, s: Snapshot, r: Snapshot)
    ensures Replay(fee, [], p, initial, [s, r, r])
         == Step(fee, [], p, Step(fee, [], p, Step(fee, [], p, Open(initial), s), r), r)
  {
    assert [s, r, r][..2] == [s, r] && [s, r][..1] == [s] && [s][..0] == [];
    assert Replay(fee, [], p, initial, [s]) == Step(fee, [], p, Open(initial), s);
    assert Replay(fee, [], p, initial, [s, r]) == Step(fee, [], p, Step(fee, [], p, Open(initial), s), r);
  }

  lemma NothingAfterRuin(fee: FeeModel, p: Params, b: Book, r: Snapshot)
    requires b.balance <= 0.0
    ensures Step(fee, [], p, b, r) == b
  {}

  lemma RuinedByTheFirst(fee: FeeModel, s: Snapshot, r: Snapshot)
    requires s.netProfit > 0.0 && TotalCost(s) > 0.0 && !Survivable(fee, s)
    ensures var b := Step(fee, [], FromProfit(0.0), Open(100.0), s);
            b.balance <= 0.0 && |b.log| == 1 && Replay(fee, [], FromProfit(0.0), 100.0, [s, r, r]) == b
  {
    var b := Step(fee, [], FromProfit(0.0), Open(100.0), s);
    Tradable(s, 0.0);
    TradeLeavesSomethingExactlyWhen(fee, FromProfit(0.0), 100.0, s);
    ReplayOfThree(fee, FromProfit(0.0), 100.0, s, r);
    NothingAfterRuin(fee, FromProfit(0.0), b, r);
  }

  lemma GainKeepsTrading(fee: FeeModel, p: Params, b: Book, r: Snapshot)
    requires 0.0 < b.balance && 0.0 < p.maxTradeSize && Eligible([], p, r) && fee(r) >= 0.0
    ensures var next := Step(fee, [], p, b, r); 0.0 < next.balance && |next.log| == |b.log| + 1
  {
    TradeLeavesSomethingExactlyWhen(fee, p, b.balance, r);
  }

  /** A threshold that skips a ruinous snapshot books the two trades after it instead of the one before ruin. */
  lemma SkippingWinsTrades(fee: FeeModel, s: Snapshot, r: Snapshot, minProfit: real)
    requires s.netProfit > 0.0 && TotalCost(s) > 0.0 && !Survivable(fee, s)
    requires s.netProfit < minProfit <= r.netProfit && TotalCost(r) > 0.0 && fee(r) >= 0.0
    ensures |Replay(fee, [], FromProfit(0.0), 100.0, [s, r, r]).log| == 1
    ensures |Replay(fee, [], FromProfit(minProfit), 100.0, [s, r, r]).log| == 2
  {
    var p := FromProfit(minProfit);
    RuinedByTheFirst(fee, s, r);
    Tradable(r, minProfit);
    ReplayOfThree(fee, p, 100.0, s, r);
    assert Step(fee, [], p, Open(100.0), s) == Open(100.0);
    GainKeepsTrading(fee, p, Open(100.0), r);
    GainKeepsTrading(fee, p, Step(fee, [], p, Open(100.0), r), r);
  }

  lemma UnsurvivableAddsTrades(cfg: Config, s: Snapshot)
    requires s.netProfit > 0.0 && TotalCost(s) > 0.0 && !Survivable(FeesOf(cfg), s)
    ensures var (r, fee) := (Signal(s.netProfit + 1.0), FeesOf(cfg));
            && |Replay(fee, [], FromProfit(0.0), 100.0, [s, r, r]).log| == 1
            && |Replay(fee, [], FromProfit(s.netProfit + 1.0), 100.0, [s, r, r]).log| == 2
  {
    SkippingWinsTrades(FeesOf(cfg), s, Signal(s.netProfit + 1.0), s.netProfit + 1.0);
  }

  /** The exact condition for the sweep's monotonicity: for every configuration, and every class of recorded
      snapshots that holds the signals, raising thresholds never adds a trade if and only if no snapshot of the
      class that could be traded loses ten times its cost or more. */
  lemma RaisingNeverAddsExactlyWhen(cfg: Config, recorded: Snapshot -> bool)
    requires forall x: real :: recorded(Signal(x))
    ensures RaisingNeverAdds(FeesOf(cfg), recorded) <==> EverySurvivable(FeesOf(cfg), recorded)
  {
    var fee := FeesOf(cfg);
    if EverySurvivable(fee, recorded) {
      forall layers, loose, tight, initial, snaps | AllRecorded(snaps, recorded) && Raises(loose, tight)
        ensures |Replay(fee, layers, tight, initial, snaps).log| <= |Replay(fee, layers, loose, initial, snaps).log|
      {
        EveryIsAll(fee, recorded, layers, loose, snaps);
        TradeCountIsMonotone(fee, layers, loose, tight, initial, snaps);
      }
    } else {
      var s :| recorded(s) && s.netProfit > 0.0 && TotalCost(s) > 0.0 && !Survivable(fee, s);
      UnsurvivableAddsTrades(cfg, s);
      var r := Signal(s.netProfit + 1.0);
      assert recorded(r) && AllRecorded([s, r, r], recorded);
      assert Raises(FromProfit(0.0), FromProfit(s.netProfit + 1.0));
    }
  }

  function PricedRight(): Snapshot -> bool {
    (s: Snapshot) => PricesOk(s)
  }

  /** Modest rates meet that condition on prices that are prices. */
  lemma ModestIsSurvivable(cfg: Config)
    requires Modest(cfg)
    ensures EverySurvivable(FeesOf(cfg), PricedRight())
  {
    forall s: Snapshot | PricesOk(s) && s.netProfit > 0.0 && TotalCost(s) > 0.0 ensures Survivable(FeesOf(cfg), s) {
      UnitNeverLosesMoreThanItCost(cfg, s);
    }
  }

  lemma DearGasIsNotSurvivable(cfg: Config)
    requires FeesOf(cfg)(BAD) <= -1.02
    ensures PricesOk(BAD) && !Survivable(FeesOf(cfg), BAD) && !EverySurvivable(FeesOf(cfg), PricedRight())
  {
    assert PricedRight()(BAD) && TotalCost(BAD) == 0.02;
  }

  const BAD := Snapshot(0.9, 0.0, "Binary", Some(0.01), Some(0.01), "", "", [])

  /** And gas of a dollar or more fails it, on ordinary quotes: a binary at one cent a side loses more than the
      whole balance, trading stops, and the tighter threshold that skips it books more trades. */
  lemma DearGasBreaksTheSweep(cfg: Config)
    requires 1.0 <= cfg.gas && 0.0 <= cfg.polymarketRate
    ensures PricesOk(BAD) && !EverySurvivable(FeesOf(cfg), PricedRight())
    ensures var snaps := [BAD, Signal(1.0), Signal(1.0)];
            && Replay(FeesOf(cfg), [], FromProfit(0.0), 100.0, snaps).balance < 0.0
            && |Replay(FeesOf(cfg), [], FromProfit(0.0), 100.0, snaps).log|
               < |Replay(FeesOf(cfg), [], FromProfit(0.95), 100.0, snaps).log|
  {
    FeeOfTheBadQuote(cfg);
    DearGasIsNotSurvivable(cfg);
    SkippingWinsTrades(FeesOf(cfg), BAD, Signal(1.0), 0.95);
    RuinedByTheFirst(FeesOf(cfg), BAD, Signal(1.0));
    LossOnTheBadQuote(FeesOf(cfg));
  }

  lemma LossOnTheBadQuote(fee: FeeModel)
    requires fee(BAD) <= -1.02
    ensures Step(fee, [], FromProfit(0.0), Open(100.0), BAD).balance < 0.0
  {
    Tradable(BAD, 0.0);
    ScaleByUnitsAtMost(fee(BAD), 0.02, 10.0, -50.0);
  }

  /** What the engine charges for that quote. */
  lemma FeeOfTheBadQuote(cfg: Config)
    requires 1.0 <= cfg.gas && 0.0 <= cfg.polymarketRate
    ensures FeesOf(cfg)(BAD) <= -1.02
  {
    QuarterBound(0.01, 0.01 * (1.0 - 0.01));
    MulNonNegative(cfg.polymarketRate, 0.01 * (1.0 - 0.01));
    assert PolymarketTakerFee(cfg, 0.01) >= 0.0;
  }
}
