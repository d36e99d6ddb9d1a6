/** The threshold sweep: one backtest per pair of thresholds, and what raising a threshold does. */
module Sweep {
  import opened Backtest
  import opened Fees
  import opened Solvency
  import opened Sorting

  // ---------------------------------------------------------------- the grid

  function AtMost(): (real, real) -> bool {
    (x: real, y: real) => x <= y
  }

  lemma RealOrder()
    ensures TotalOrder(AtMost())
  {}

  /** Python's `sorted(set(xs))`. */
  function SortedSet(xs: seq<real>): seq<real> {
    RealOrder();
    Sorted((set x | x in xs), AtMost())
  }

  predicate StrictlyIncreasing(xs: seq<real>) {
    forall i, j :: 0 <= i < j < |xs| ==> xs[i] < xs[j]
  }

  lemma SortedSetIsSorted(xs: seq<real>)
    ensures StrictlyIncreasing(SortedSet(xs))
    ensures forall y :: y in SortedSet(xs) <==> y in xs
  {
    RealOrder();
    SortedAscends((set x | x in xs), AtMost());
    var r := SortedSet(xs);
    forall i, j | 0 <= i < j < |r| ensures r[i] < r[j] {
      assert AtMost()(r[i], r[j]) && r[i] != r[j];
    }
  }

  lemma LastIsGreatest(a: seq<real>, x: real)
    requires StrictlyIncreasing(a) && x in a
    ensures x <= a[|a| - 1]
    ensures x in a[..|a| - 1] <==> x != a[|a| - 1]
  {
    var i :| 0 <= i < |a| && a[i] == x;
    if i < |a| - 1 { assert a[..|a| - 1][i] == x; }
  }

  lemma SameLast(a: seq<real>, b: seq<real>)
    requires StrictlyIncreasing(a) && StrictlyIncreasing(b) && (forall x :: x in a <==> x in b) && a != []
    ensures b != [] && a[|a| - 1] == b[|b| - 1]
  {
    assert a[|a| - 1] in a;
    LastIsGreatest(b, a[|a| - 1]);
    assert b[|b| - 1] in b;
    LastIsGreatest(a, b[|b| - 1]);
  }

  /** Members determine a strictly increasing list. */
  lemma {:induction false} IncreasingIsUnique(a: seq<real>, b: seq<real>)
    requires StrictlyIncreasing(a) && StrictlyIncreasing(b) && forall x :: x in a <==> x in b
    ensures a == b
    decreases |a|
  {
    if a == [] {
      if b != [] { SameLast(b, a); }
    } else {
      SameLast(a, b);
      var c, d := a[..|a| - 1], b[..|b| - 1];
      forall x ensures x in c <==> x in d {
        if x in a { LastIsGreatest(a, x); LastIsGreatest(b, x); }
      }
      IncreasingIsUnique(c, d);
      assert a == c + [a[|a| - 1]] && b == d + [b[|b| - 1]];
    }
  }

  datatype Cell = Cell(minRoi: real, minProfit: real, trades: nat, pnl: real, finalBalance: real, maxDrawdown: real)

  function CellOf(fee: FeeModel, layers: Layers, p: Params, initial: real, snaps: seq<Snapshot>): Cell {
    var b := Replay(fee, layers, p, initial, snaps);
    Cell(p.minRoi, p.minProfit, |b.log|, b.balance - initial, b.balance, b.maxDrawdown)
  }

  /** The cells of one `min_roi`, and of the whole grid, in (min_roi, min_profit) order. */
  function Row(fee: FeeModel, layers: Layers, base: Params, initial: real, snaps: seq<Snapshot>, ps: seq<real>): (row: seq<Cell>)
    ensures |row| == |ps|
  {
    seq(|ps|, j requires 0 <= j < |ps| => CellOf(fee, layers, base.(minProfit := ps[j]), initial, snaps))
  }

  function Grid(fee: FeeModel, layers: Layers, base: Params, initial: real, snaps: seq<Snapshot>, rs: seq<real>, ps: seq<real>): seq<Cell> {
    if rs == [] then []
    else
      Grid(fee, layers, base, initial, snaps, rs[..|rs| - 1], ps)
      + Row(fee, layers, base.(minRoi := rs[|rs| - 1]), initial, snaps, ps)
  }

  method RunTuningSweep(fee: FeeModel, layers: Layers, base: Params, initial: real, snaps: seq<Snapshot>,
                        roiGrid: seq<real>, profitGrid: seq<real>)
    returns (cells: seq<Cell>)
    ensures cells == Grid(fee, layers, base, initial, snaps, SortedSet(roiGrid), SortedSet(profitGrid))
  {
    var rs, ps := SortedSet(roiGrid), SortedSet(profitGrid);
    cells := [];
    for i := 0 to |rs|
      invariant cells == Grid(fee, layers, base, initial, snaps, rs[..i], ps)
    {
      assert rs[..i + 1][..i] == rs[..i];
      var p := base.(minRoi := rs[i]);
      var row: seq<Cell> := [];
      for j := 0 to |ps|
        invariant row == Row(fee, layers, p, initial, snaps, ps)[..j]
      {
        var b := Run(fee, layers, p.(minProfit := ps[j]), initial, snaps);
        row := row + [Cell(rs[i], ps[j], |b.log|, b.balance - initial, b.balance, b.maxDrawdown)];
      }
      cells := cells + row;
    }
    assert rs[..|rs|] == rs;
  }

  /** The grid is the full product of the two threshold lists: one cell per pair, each a direct run. */
  lemma {:induction false} GridAt(fee: FeeModel, layers: Layers, base: Params, initial: real, snaps: seq<Snapshot>,
                                  rs: seq<real>, ps: seq<real>, i: nat, j: nat)
    requires i < |rs| && j < |ps|
    ensures var cells := Grid(fee, layers, base, initial, snaps, rs, ps);
            && |cells| == |rs| * |ps|
            && 0 <= i * |ps| + j < |cells|
            && cells[i * |ps| + j] == CellOf(fee, layers, base.(minRoi := rs[i], minProfit := ps[j]), initial, snaps)
  {
    var m := |rs| - 1;
    GridSize(fee, layers, base, initial, snaps, rs, ps);
    GridSize(fee, layers, base, initial, snaps, rs[..m], ps);
    CellIndex(i, j, |rs|, |ps|);
    if i < m {
      CellIndex(i, j, m, |ps|);
      GridAt(fee, layers, base, initial, snaps, rs[..m], ps, i, j);
    }
  }

  lemma CellIndex(i: nat, j: nat, rows: nat, width: nat)
    requires i < rows && j < width
    ensures 0 <= i * width + j < rows * width
  {
    assert (i + 1) * width <= rows * width;
  }

  lemma {:induction false} GridSize(fee: FeeModel, layers: Layers, base: Params, initial: real, snaps: seq<Snapshot>, rs: seq<real>, ps: seq<real>)
    ensures |Grid(fee, layers, base, initial, snaps, rs, ps)| == |rs| * |ps|
  {
    if rs != [] {
      GridSize(fee, layers, base, initial, snaps, rs[..|rs| - 1], ps);
    }
  }

  /** Across the whole sweep, moving to a later row or a later column never gains a trade, wherever the trades of
      the looser cell are survivable. */
  lemma SweepIsMonotone(fee: FeeModel, layers: Layers, base: Params, initial: real, snaps: seq<Snapshot>,
                        roiGrid: seq<real>, profitGrid: seq<real>, i: nat, j: nat, k: nat, l: nat)
    requires i <= k < |SortedSet(roiGrid)| && j <= l < |SortedSet(profitGrid)|
    requires var loose := base.(minRoi := SortedSet(roiGrid)[i], minProfit := SortedSet(profitGrid)[j]);
             AllSurvivable(fee, layers, loose, snaps)
    ensures var (rs, ps) := (SortedSet(roiGrid), SortedSet(profitGrid));
            var cells := Grid(fee, layers, base, initial, snaps, rs, ps);
            && 0 <= i * |ps| + j < |cells| && 0 <= k * |ps| + l < |cells|
            && cells[k * |ps| + l].trades <= cells[i * |ps| + j].trades
  {
    var (rs, ps) := (SortedSet(roiGrid), SortedSet(profitGrid));
    SortedSetIsSorted(roiGrid);
    SortedSetIsSorted(profitGrid);
    GridAt(fee, layers, base, initial, snaps, rs, ps, i, j);
    GridAt(fee, layers, base, initial, snaps, rs, ps, k, l);
    TradeCountIsMonotone(fee, layers, base.(minRoi := rs[i], minProfit := ps[j]),
                         base.(minRoi := rs[k], minProfit := ps[l]), initial, snaps);
  }

  /** In particular everywhere, with modest configured rates and recorded prices that are prices. */
  lemma ModestSweepIsMonotone(cfg: Config, layers: Layers, base: Params, initial: real, snaps: seq<Snapshot>,
                              roiGrid: seq<real>, profitGrid: seq<real>, i: nat, j: nat, k: nat, l: nat)
    requires Modest(cfg) && forall n :: 0 <= n < |snaps| ==> PricesOk(snaps[n])
    requires i <= k < |SortedSet(roiGrid)| && j <= l < |SortedSet(profitGrid)|
    ensures var (rs, ps) := (SortedSet(roiGrid), SortedSet(profitGrid));
            var cells := Grid(FeesOf(cfg), layers, base, initial, snaps, rs, ps);
            && 0 <= i * |ps| + j < |cells| && 0 <= k * |ps| + l < |cells|
            && cells[k * |ps| + l].trades <= cells[i * |ps| + j].trades
  {
    var loose := base.(minRoi := SortedSet(roiGrid)[i], minProfit := SortedSet(profitGrid)[j]);
    ModestRatesSurvive(cfg, layers, loose, snaps);
    SweepIsMonotone(FeesOf(cfg), layers, base, initial, snaps, roiGrid, profitGrid, i, j, k, l);
  }

  // ------------------------------------------------------ exactly when it is monotone

  /** The trades of cell (i, j) of a grid with rows of this width. */
  function TradesAt(cells: seq<Cell>, width: nat, i: nat, j: nat): nat {
    if i * width + j < |cells| then cells[i * width + j].trades else 0
  }

  /** Whatever is recorded and whatever the grid, no later row or column has more trades. */
  ghost predicate SweepNeverGains(fee: FeeModel, recorded: Snapshot -> bool) {
    forall layers, base, initial, snaps, roiGrid, profitGrid :: AllRecorded(snaps, recorded) ==>
      GridNeverGains(fee, layers, base, initial, snaps, SortedSet(roiGrid), SortedSet(profitGrid))
  }

  ghost predicate GridNeverGains(fee: FeeModel, layers: Layers, base: Params, initial: real, snaps: seq<Snapshot>,
                                 rs: seq<real>, ps: seq<real>)
  {
    var cells := Grid(fee, layers, base, initial, snaps, rs, ps);
    forall i: nat, j: nat, k: nat, l: nat :: i <= k < |rs| && j <= l < |ps| ==>
      TradesAt(cells, |ps|, k, l) <= TradesAt(cells, |ps|, i, j)
  }

  lemma TwoThresholds(x: real)
    requires 0.0 < x
    ensures SortedSet([0.0]) == [0.0] && SortedSet([0.0, x]) == [0.0, x]
  {
    SortedSetIsSorted([0.0]);
    SortedSetIsSorted([0.0, x]);
    IncreasingIsUnique(SortedSet([0.0]), [0.0]);
    IncreasingIsUnique(SortedSet([0.0, x]), [0.0, x]);
  }

  /** An unsurvivable snapshot, two signals after it, and a grid of two thresholds around its profit. */
  lemma UnsurvivableGains(cfg: Config, s: Snapshot)
    requires s.netProfit > 0.0 && TotalCost(s) > 0.0 && !Survivable(FeesOf(cfg), s)
    ensures var r := Signal(s.netProfit + 1.0);
            !GridNeverGains(FeesOf(cfg), [], FromProfit(0.0), 100.0, [s, r, r],
                            SortedSet([0.0]), SortedSet([0.0, s.netProfit + 1.0]))
  {
    var x, fee := s.netProfit + 1.0, FeesOf(cfg);
    var r := Signal(x);
    TwoThresholds(x);
    UnsurvivableAddsTrades(cfg, s);
    var cells := Grid(fee, [], FromProfit(0.0), 100.0, [s, r, r], [0.0], [0.0, x]);
    GridAt(fee, [], FromProfit(0.0), 100.0, [s, r, r], [0.0], [0.0, x], 0, 0);
    GridAt(fee, [], FromProfit(0.0), 100.0, [s, r, r], [0.0], [0.0, x], 0, 1);
    assert FromProfit(0.0).(minRoi := 0.0, minProfit := x) == FromProfit(x);
    assert !(TradesAt(cells, 2, 0, 1) <= TradesAt(cells, 2, 0, 0));
  }

  /** For every configuration and every class of recorded snapshots that holds the signals: no sweep ever gains a
      trade along an axis if and only if every snapshot that could be traded is survivable. */
  lemma SweepNeverGainsExactlyWhen(cfg: Config, recorded: Snapshot -> bool)
    requires forall x: real :: recorded(Signal(x))
    ensures SweepNeverGains(FeesOf(cfg), recorded) <==> EverySurvivable(FeesOf(cfg), recorded)
  {
    var fee := FeesOf(cfg);
    if EverySurvivable(fee, recorded) {
      forall layers, base, initial, snaps, roiGrid, profitGrid | AllRecorded(snaps, recorded)
        ensures GridNeverGains(fee, layers, base, initial, snaps, SortedSet(roiGrid), SortedSet(profitGrid))
      {
        EveryGridFalls(fee, recorded, layers, base, initial, snaps, roiGrid, profitGrid);
      }
    } else {
      var s :| recorded(s) && s.netProfit > 0.0 && TotalCost(s) > 0.0 && !Survivable(fee, s);
      var r := Signal(s.netProfit + 1.0);
      UnsurvivableGains(cfg, s);
      assert recorded(r) && AllRecorded([s, r, r], recorded);
    }
  }

  lemma EveryGridFalls(fee: FeeModel, recorded: Snapshot -> bool, layers: Layers, base: Params, initial: real,
                       snaps: seq<Snapshot>, roiGrid: seq<real>, profitGrid: seq<real>)
    requires EverySurvivable(fee, recorded) && AllRecorded(snaps, recorded)
    ensures GridNeverGains(fee, layers, base, initial, snaps, SortedSet(roiGrid), SortedSet(profitGrid))
  {
    var (rs, ps) := (SortedSet(roiGrid), SortedSet(profitGrid));
    forall i: nat, j: nat, k: nat, l: nat | i <= k < |rs| && j <= l < |ps|
      ensures var cells := Grid(fee, layers, base, initial, snaps, rs, ps);
              TradesAt(cells, |ps|, k, l) <= TradesAt(cells, |ps|, i, j)
    {
      EveryIsAll(fee, recorded, layers, base.(minRoi := rs[i], minProfit := ps[j]), snaps);
      SweepIsMonotone(fee, layers, base, initial, snaps, roiGrid, profitGrid, i, j, k, l);
    }
  }

  /** On recorded prices that are prices: modest rates never gain a trade, and gas of a dollar can. */
  lemma RatesDecideTheSweep(cfg: Config)
    ensures Modest(cfg) ==> SweepNeverGains(FeesOf(cfg), PricedRight())
    ensures 1.0 <= cfg.gas && 0.0 <= cfg.polymarketRate ==> !SweepNeverGains(FeesOf(cfg), PricedRight())
  {
    SweepNeverGainsExactlyWhen(cfg, PricedRight());
    if Modest(cfg) { ModestIsSurvivable(cfg); }
    if 1.0 <= cfg.gas && 0.0 <= cfg.polymarketRate { DearGasBreaksTheSweep(cfg); }
  }
}
