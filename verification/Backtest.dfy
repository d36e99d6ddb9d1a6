/** The backtest engine: replaying recorded snapshots through simulated execution. */
module Backtest {
  import opened Basics
  import opened Fees

  /** A recorded snapshot; absent platform fields carry the engine's defaults. */
  datatype Snapshot = Snapshot(
    netProfit: real,
    grossSpread: real,
    oppType: string,
    priceA: Option<real>,
    priceB: Option<real>,
    platformA: string,
    platformB: string,
    platforms: seq<string>)

  datatype Params = Params(minRoi: real, minProfit: real, maxTradeSize: real, layer: Option<int>)

  /** Strategy names and their layers, in table order. */
  type Layers = seq<(string, int)>

  function GetLayer(layers: Layers, oppType: string): int {
    var exact := seq(|layers|, i requires 0 <= i < |layers| => layers[i].0 == oppType);
    FirstLayer(layers, exact, FirstLayer(layers, seq(|layers|, i requires 0 <= i < |layers| => layers[i].0 <= oppType), 0))
  }

  function FirstLayer(layers: Layers, hit: seq<bool>, default: int): int
    requires |hit| == |layers|
  {
    if layers == [] then default else if hit[0] then layers[0].1 else FirstLayer(layers[1..], hit[1..], default)
  }

  // ----------------------------------------------------- pricing one snapshot

  function TotalCost(s: Snapshot): real {
    if s.priceA.Some? && s.priceB.Some? then s.priceA.value + s.priceB.value
    else if s.priceA.Some? then s.priceA.value
    else if s.grossSpread > 0.0 then 1.0 - s.grossSpread
    else 0.0
  }

  /** Every filter of the loop except the trade size. */
  predicate Eligible(layers: Layers, p: Params, s: Snapshot) {
    && s.netProfit > 0.0
    && (p.layer.None? || GetLayer(layers, s.oppType) == p.layer.value)
    && TotalCost(s) > 0.0
    && s.netProfit / TotalCost(s) >= p.minRoi
    && s.netProfit >= p.minProfit
  }

  function FirstTwo(platforms: seq<string>): seq<string> {
    if |platforms| <= 2 then platforms else platforms[..2]
  }

  /** Which fee function an opportunity type is priced by. */
  datatype Formula =
    | PolymarketPair
    | PolymarketSet
    | KalshiPair
    | KalshiSet
    | TwoVenues
    | ManyVenues
    | BackAll(rate: real)
    | BackLay(rate: real)
    | GeminiPair
    | IbkrPair
    | Estimate

  function FormulaOf(t: string): Formula {
    if t == "Binary" then PolymarketPair
    else if "NegRisk" <= t then PolymarketSet
    else if "KalshiBinary" <= t then KalshiPair
    else if "KalshiMulti" <= t then KalshiSet
    else if t == "TriangularCross" then TwoVenues
    else if "MultiCross" <= t then ManyVenues
    else if t == "BetfairBackAll" then BackAll(BETFAIR)
    else if t == "BetfairBackLay" then BackLay(BETFAIR)
    else if t == "SmarketsBackAll" then BackAll(SMARKETS)
    else if t == "SmarketsBackLay" then BackLay(SMARKETS)
    else if t == "SXBetBackAll" || t == "MatchbookBackAll" then BackAll(0.0)
    else if t == "SXBetBackLay" || t == "MatchbookBackLay" then BackLay(0.0)
    else if "Gemini" <= t then GeminiPair
    else if "IBKR" <= t then IbkrPair
    else if "Cross" <= t then TwoVenues
    else Estimate
  }

  function UnitBy(cfg: Config, f: Formula, s: Snapshot, a: real, b: real): real {
    match f
    case PolymarketPair => NetBinaryInternal(cfg, a, b).profit
    case PolymarketSet => NetNegriskInternal(cfg, [a, b]).profit
    case KalshiPair => NetKalshiBinary(cfg, a, b).profit
    case KalshiSet => NetKalshiMulti(cfg, [a, b]).profit
    case TwoVenues => NetCrossGeneric(cfg, a, b, s.platformA, s.platformB).profit
    case ManyVenues => NetMultiCross(cfg, [a, b], FirstTwo(s.platforms)).profit
    case BackAll(rate) => NetBackAll([a, b], rate).profit
    case BackLay(rate) => NetBackLay(a, b, rate).profit
    case GeminiPair => NetGeminiBinary(cfg, a, b).profit
    case IbkrPair => NetIbkrBinary(a, b).profit
    case Estimate => s.netProfit
  }

  /** Per-unit profit by opportunity type; the snapshot's own estimate where a price is missing or no fee function
      applies. */
  function UnitProfit(cfg: Config, s: Snapshot): real {
    if s.priceA.None? || s.priceB.None? then s.netProfit
    else UnitBy(cfg, FormulaOf(s.oppType), s, s.priceA.value, s.priceB.value)
  }

  /** Profit per unit of each snapshot. */
  type FeeModel = Snapshot -> real

  function FeesOf(cfg: Config): FeeModel {
    (s: Snapshot) => UnitProfit(cfg, s)
  }

  // ---------------------------------------------------------- running tallies

  /** A row of `trades_by_type`, or of the layer summary, in insertion order. */
  datatype Tally<K> = Tally(key: K, count: int, wins: int, pnl: real)

  function Add<K(==)>(rows: seq<Tally<K>>, key: K, count: int, wins: int, pnl: real): seq<Tally<K>> {
    if rows == [] then [Tally(key, count, wins, pnl)]
    else if rows[0].key == key then
      [Tally(key, rows[0].count + count, rows[0].wins + wins, rows[0].pnl + pnl)] + rows[1..]
    else [rows[0]] + Add(rows[1..], key, count, wins, pnl)
  }

  datatype Totals = Totals(count: int, wins: int, pnl: real)

  function Plus(a: Totals, b: Totals): Totals {
    Totals(a.count + b.count, a.wins + b.wins, a.pnl + b.pnl)
  }

  const ZERO := Totals(0, 0, 0.0)

  function Total<K>(rows: seq<Tally<K>>): Totals {
    if rows == [] then ZERO else Plus(Totals(rows[0].count, rows[0].wins, rows[0].pnl), Total(rows[1..]))
  }

  /** What the rows say about one key; zero when it has no row. */
  function At<K(==)>(rows: seq<Tally<K>>, key: K): Totals {
    if rows == [] then ZERO
    else if rows[0].key == key then Totals(rows[0].count, rows[0].wins, rows[0].pnl)
    else At(rows[1..], key)
  }

  /** The per-layer summary of the per-type rows. */
  function ByLayer(layers: Layers, rows: seq<Tally<string>>): seq<Tally<int>> {
    if rows == [] then []
    else
      var r := rows[|rows| - 1];
      Add(ByLayer(layers, rows[..|rows| - 1]), GetLayer(layers, r.key), r.count, r.wins, r.pnl)
  }

  // ----------------------------------------------------------------- the run

  datatype Trade = Trade(oppType: string, profit: real, balanceAfter: real, roi: real)

  datatype Book = Book(balance: real, peak: real, maxDrawdown: real, log: seq<Trade>, byType: seq<Tally<string>>)

  function Open(initial: real): Book {
    Book(initial, initial, 0.0, [], [])
  }

  function TradeSize(p: Params, balance: real): real {
    if p.maxTradeSize <= balance * 0.1 then p.maxTradeSize else balance * 0.1
  }

  function Record(b: Book, oppType: string, profit: real, roi: real): Book {
    var balance := b.balance + profit;
    var peak := if balance > b.peak then balance else b.peak;
    Book(
      balance,
      peak,
      if peak - balance > b.maxDrawdown then peak - balance else b.maxDrawdown,
      b.log + [Trade(oppType, profit, balance, roi)],
      Add(b.byType, oppType, 1, if profit > 0.0 then 1 else 0, profit))
  }

  /** Profit of the trade a snapshot triggers at a given balance. */
  function TradeProfit(fee: FeeModel, p: Params, balance: real, s: Snapshot): real
    requires TotalCost(s) > 0.0
  {
    fee(s) * (TradeSize(p, balance) / TotalCost(s))
  }

  function Step(fee: FeeModel, layers: Layers, p: Params, b: Book, s: Snapshot): Book {
    if !Eligible(layers, p, s) || TradeSize(p, b.balance) <= 0.0 then b
    else Record(b, s.oppType, TradeProfit(fee, p, b.balance, s), s.netProfit / TotalCost(s))
  }

  function Replay(fee: FeeModel, layers: Layers, p: Params, initial: real, snaps: seq<Snapshot>): Book {
    if snaps == [] then Open(initial)
    else Step(fee, layers, p, Replay(fee, layers, p, initial, snaps[..|snaps| - 1]), snaps[|snaps| - 1])
  }

  /** The engine's loop. */
  method Run(fee: FeeModel, layers: Layers, p: Params, initial: real, snaps: seq<Snapshot>) returns (b: Book)
    ensures b == Replay(fee, layers, p, initial, snaps)
  {
    var balance, peak, maxDrawdown := initial, initial, 0.0;
    var log: seq<Trade>, byType: seq<Tally<string>> := [], [];
    for i := 0 to |snaps|
      invariant Book(balance, peak, maxDrawdown, log, byType) == Replay(fee, layers, p, initial, snaps[..i])
    {
      assert snaps[..i + 1][..i] == snaps[..i];
      var s := snaps[i];
      if Eligible(layers, p, s) && TradeSize(p, balance) > 0.0 {
        var profit := TradeProfit(fee, p, balance, s);
        balance := balance + profit;
        if balance > peak { peak := balance; }
        if peak - balance > maxDrawdown { maxDrawdown := peak - balance; }
        log := log + [Trade(s.oppType, profit, balance, s.netProfit / TotalCost(s))];
        byType := Add(byType, s.oppType, 1, if profit > 0.0 then 1 else 0, profit);
      }
    }
    assert snaps[..|snaps|] == snaps;
    b := Book(balance, peak, maxDrawdown, log, byType);
  }

  /** The book that a trade log alone determines. */
  function FromLog(initial: real, log: seq<Trade>): (b: Book)
  {
    if log == [] then Open(initial)
    else
      var t := log[|log| - 1];
      Record(FromLog(initial, log[..|log| - 1]), t.oppType, t.profit, t.roi)
  }

  lemma {:induction false} ReplayIsItsLog(fee: FeeModel, layers: Layers, p: Params, initial: real, snaps: seq<Snapshot>)
    ensures var b := Replay(fee, layers, p, initial, snaps);
            FromLog(initial, b.log) == b
  {
    if snaps != [] {
      var init, s := snaps[..|snaps| - 1], snaps[|snaps| - 1];
      ReplayIsItsLog(fee, layers, p, initial, init);
      var b := Replay(fee, layers, p, initial, init);
      var b' := Step(fee, layers, p, b, s);
      if b' != b {
        assert b'.log[..|b'.log| - 1] == b.log;
      }
    }
  }

  // ---------------------------------------------------------------- drawdown

  /** The equity curve: the initial balance, then the balance after each trade. */
  function Curve(initial: real, log: seq<Trade>): seq<real> {
    [initial] + seq(|log|, i requires 0 <= i < |log| => log[i].balanceAfter)
  }

  /** `d` is the largest fall from any point of the curve to the same or a later one. */
  ghost predicate IsMaxFall(c: seq<real>, d: real) {
    && (forall i, j :: 0 <= i <= j < |c| ==> c[i] - c[j] <= d)
    && (exists i, j :: 0 <= i <= j < |c| && d == c[i] - c[j])
  }

  ghost predicate IsPeak(c: seq<real>, m: real) {
    (forall i :: 0 <= i < |c| ==> c[i] <= m) && (exists i :: 0 <= i < |c| && m == c[i])
  }

  lemma CurveGrows(c: seq<real>, x: real, peak: real, d: real)
    requires IsPeak(c, peak) && IsMaxFall(c, d)
    ensures var peak' := if x > peak then x else peak;
            && IsPeak(c + [x], peak')
            && IsMaxFall(c + [x], if peak' - x > d then peak' - x else d)
  {
    var c' := c + [x];
    var peak' := if x > peak then x else peak;
    var d' := if peak' - x > d then peak' - x else d;
    var k :| 0 <= k < |c| && peak == c[k];
    assert peak' == c'[if x > peak then |c| else k];
    forall i, j | 0 <= i <= j < |c'| ensures c'[i] - c'[j] <= d' {
      if j < |c| { assert c[i] - c[j] <= d; }
    }
    if peak' - x > d {
      assert d' == c'[if x > peak then |c| else k] - c'[|c|];
    } else {
      var i, j :| 0 <= i <= j < |c| && d == c[i] - c[j];
      assert d' == c'[i] - c'[j];
    }
  }

  ghost predicate TracksCurve(c: seq<real>, peak: real, maxDrawdown: real, balance: real) {
    c != [] && IsPeak(c, peak) && IsMaxFall(c, maxDrawdown) && balance == c[|c| - 1] && 0.0 <= maxDrawdown
  }

  ghost predicate Tracked(initial: real, b: Book) {
    TracksCurve(Curve(initial, b.log), b.peak, b.maxDrawdown, b.balance)
  }

  lemma CurveOneMore(initial: real, log: seq<Trade>, t: Trade)
    ensures Curve(initial, log + [t]) == Curve(initial, log) + [t.balanceAfter]
  {}

  lemma TrackOneMore(c: seq<real>, peak: real, d: real, x: real)
    requires c != [] && TracksCurve(c, peak, d, c[|c| - 1])
    ensures var peak' := if x > peak then x else peak;
            TracksCurve(c + [x], peak', if peak' - x > d then peak' - x else d, x)
  {
    CurveGrows(c, x, peak, d);
  }

  lemma RecordStaysTracked(initial: real, b: Book, oppType: string, profit: real, roi: real)
    requires Tracked(initial, b)
    ensures Tracked(initial, Record(b, oppType, profit, roi))
  {
    var balance := b.balance + profit;
    TrackOneMore(Curve(initial, b.log), b.peak, b.maxDrawdown, balance);
    CurveOneMore(initial, b.log, Trade(oppType, profit, balance, roi));
  }

  lemma OpensTracked(initial: real)
    ensures Tracked(initial, Open(initial))
  {
    var c := Curve(initial, []);
    assert c == [initial];
    assert c[0] - c[0] == 0.0;
  }

  lemma {:induction false} DrawdownOfLog(initial: real, log: seq<Trade>)
    ensures Tracked(initial, FromLog(initial, log))
  {
    if log == [] {
      OpensTracked(initial);
    } else {
      var t := log[|log| - 1];
      DrawdownOfLog(initial, log[..|log| - 1]);
      RecordStaysTracked(initial, FromLog(initial, log[..|log| - 1]), t.oppType, t.profit, t.roi);
    }
  }

  /** The one-pass tracker finds the true maximum drawdown of the whole curve. */
  lemma DrawdownIsExact(fee: FeeModel, layers: Layers, p: Params, initial: real, snaps: seq<Snapshot>)
    ensures var b := Replay(fee, layers, p, initial, snaps);
            var c := Curve(initial, b.log);
            && IsPeak(c, b.peak) && IsMaxFall(c, b.maxDrawdown) && b.balance == c[|c| - 1] && 0.0 <= b.maxDrawdown
  {
    ReplayIsItsLog(fee, layers, p, initial, snaps);
    DrawdownOfLog(initial, Replay(fee, layers, p, initial, snaps).log);
  }

  // ------------------------------------------------------------ conservation

  lemma {:induction false} AddConserves<K>(rows: seq<Tally<K>>, key: K, count: int, wins: int, pnl: real)
    ensures Total(Add(rows, key, count, wins, pnl)) == Plus(Total(rows), Totals(count, wins, pnl))
  {
    if rows != [] && rows[0].key != key {
      AddConserves(rows[1..], key, count, wins, pnl);
      assert Add(rows, key, count, wins, pnl)[1..] == Add(rows[1..], key, count, wins, pnl);
    }
  }

  lemma {:induction false} AddAt<K>(rows: seq<Tally<K>>, key: K, count: int, wins: int, pnl: real, other: K)
    ensures At(Add(rows, key, count, wins, pnl), other) ==
            if other == key then Plus(At(rows, key), Totals(count, wins, pnl)) else At(rows, other)
  {
    if rows != [] && rows[0].key != key {
      AddAt(rows[1..], key, count, wins, pnl, other);
      assert Add(rows, key, count, wins, pnl)[1..] == Add(rows[1..], key, count, wins, pnl);
    }
  }

  /** Count, wins and profit of the logged trades that `pick` selects. */
  function LogTotals(log: seq<Trade>, pick: string -> bool): Totals {
    if log == [] then ZERO
    else
      var t := log[|log| - 1];
      var rest := LogTotals(log[..|log| - 1], pick);
      if pick(t.oppType) then Plus(rest, Totals(1, if t.profit > 0.0 then 1 else 0, t.profit)) else rest
  }

  function AllTypes(): string -> bool { (t: string) => true }

  function OnlyType(oppType: string): string -> bool { (t: string) => t == oppType }

  function OnlyLayer(layers: Layers, layer: int): string -> bool { (t: string) => GetLayer(layers, t) == layer }

  lemma {:induction false} PnlOfLog(initial: real, log: seq<Trade>, oppType: string)
    ensures var b := FromLog(initial, log);
            && LogTotals(log, AllTypes()).pnl == b.balance - initial
            && LogTotals(log, AllTypes()).count == |log|
            && Total(b.byType) == LogTotals(log, AllTypes())
            && At(b.byType, oppType) == LogTotals(log, OnlyType(oppType))
  {
    if log != [] {
      var t := log[|log| - 1];
      var b := FromLog(initial, log[..|log| - 1]);
      var win := if t.profit > 0.0 then 1 else 0;
      PnlOfLog(initial, log[..|log| - 1], oppType);
      AddConserves(b.byType, t.oppType, 1, win, t.profit);
      AddAt(b.byType, t.oppType, 1, win, t.profit, oppType);
    }
  }

  /** Money is conserved: the change in balance is the logged profit, the per-type rows add up to it,
      and each type's row is exactly that type's share of the log. */
  lemma PnlIsConserved(fee: FeeModel, layers: Layers, p: Params, initial: real, snaps: seq<Snapshot>, oppType: string)
    ensures var b := Replay(fee, layers, p, initial, snaps);
            && LogTotals(b.log, AllTypes()).pnl == b.balance - initial
            && LogTotals(b.log, AllTypes()).count == |b.log|
            && Total(b.byType) == LogTotals(b.log, AllTypes())
            && At(b.byType, oppType) == LogTotals(b.log, OnlyType(oppType))
  {
    ReplayIsItsLog(fee, layers, p, initial, snaps);
    PnlOfLog(initial, Replay(fee, layers, p, initial, snaps).log, oppType);
  }

  // Regrouping the per-type rows by layer.

  lemma {:induction false} RegroupConserves(layers: Layers, rows: seq<Tally<string>>)
    ensures Total(ByLayer(layers, rows)) == Total(rows)
  {
    if rows != [] {
      var init, r := rows[..|rows| - 1], rows[|rows| - 1];
      RegroupConserves(layers, init);
      AddConserves(ByLayer(layers, init), GetLayer(layers, r.key), r.count, r.wins, r.pnl);
      TotalSnoc(rows);
    }
  }

  lemma {:induction false} TotalSnoc<K>(rows: seq<Tally<K>>)
    requires rows != []
    ensures var r := rows[|rows| - 1];
            Total(rows) == Plus(Total(rows[..|rows| - 1]), Totals(r.count, r.wins, r.pnl))
  {
    if |rows| > 1 {
      TotalSnoc(rows[1..]);
      assert rows[1..][..|rows| - 2] == rows[..|rows| - 1][1..];
    }
  }

  /** The rows of one layer, added up. */
  function LayerShare(layers: Layers, rows: seq<Tally<string>>, layer: int): Totals {
    if rows == [] then ZERO
    else
      var r := rows[0];
      var rest := LayerShare(layers, rows[1..], layer);
      if GetLayer(layers, r.key) == layer then Plus(Totals(r.count, r.wins, r.pnl), rest) else rest
  }

  lemma {:induction false} LayerShareSnoc(layers: Layers, rows: seq<Tally<string>>, layer: int)
    requires rows != []
    ensures var r := rows[|rows| - 1];
            var rest := LayerShare(layers, rows[..|rows| - 1], layer);
            LayerShare(layers, rows, layer) ==
            if GetLayer(layers, r.key) == layer then Plus(rest, Totals(r.count, r.wins, r.pnl)) else rest
  {
    if |rows| > 1 {
      LayerShareSnoc(layers, rows[1..], layer);
      assert rows[1..][..|rows| - 2] == rows[..|rows| - 1][1..];
    }
  }

  lemma {:induction false} LayerRowIsItsShare(layers: Layers, rows: seq<Tally<string>>, layer: int)
    ensures At(ByLayer(layers, rows), layer) == LayerShare(layers, rows, layer)
  {
    if rows != [] {
      var init, r := rows[..|rows| - 1], rows[|rows| - 1];
      LayerRowIsItsShare(layers, init, layer);
      AddAt(ByLayer(layers, init), GetLayer(layers, r.key), r.count, r.wins, r.pnl, layer);
      LayerShareSnoc(layers, rows, layer);
    }
  }

  lemma {:induction false} AddToShare(layers: Layers, rows: seq<Tally<string>>, key: string, count: int, wins: int, pnl: real, layer: int)
    ensures LayerShare(layers, Add(rows, key, count, wins, pnl), layer) ==
            if GetLayer(layers, key) == layer then Plus(LayerShare(layers, rows, layer), Totals(count, wins, pnl))
            else LayerShare(layers, rows, layer)
  {
    if rows != [] && rows[0].key != key {
      AddToShare(layers, rows[1..], key, count, wins, pnl, layer);
      assert Add(rows, key, count, wins, pnl)[1..] == Add(rows[1..], key, count, wins, pnl);
    }
  }

  lemma {:induction false} ShareIsLogged(layers: Layers, initial: real, log: seq<Trade>, layer: int)
    ensures LayerShare(layers, FromLog(initial, log).byType, layer) == LogTotals(log, OnlyLayer(layers, layer))
  {
    if log != [] {
      var t := log[|log| - 1];
      ShareIsLogged(layers, initial, log[..|log| - 1], layer);
      AddToShare(layers, FromLog(initial, log[..|log| - 1]).byType, t.oppType, 1, if t.profit > 0.0 then 1 else 0, t.profit, layer);
    }
  }

  /** The layer summary loses nothing: every layer's line is that layer's share of the trade log, and
      the lines add up to the change in balance. */
  lemma LayerSummaryIsExact(fee: FeeModel, layers: Layers, p: Params, initial: real, snaps: seq<Snapshot>, layer: int)
    ensures var b := Replay(fee, layers, p, initial, snaps);
            var summary := ByLayer(layers, b.byType);
            && At(summary, layer) == LogTotals(b.log, OnlyLayer(layers, layer))
            && Total(summary).pnl == b.balance - initial
            && Total(summary).count == |b.log|
            && Total(summary).wins == LogTotals(b.log, AllTypes()).wins
  {
    var b := Replay(fee, layers, p, initial, snaps);
    ReplayIsItsLog(fee, layers, p, initial, snaps);
    ShareIsLogged(layers, initial, b.log, layer);
    LayerRowIsItsShare(layers, b.byType, layer);
    RegroupConserves(layers, b.byType);
    PnlIsConserved(fee, layers, p, initial, snaps, "");
  }
}
