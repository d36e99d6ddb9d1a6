/** Claimed profit against every outcome: each net-profit function reports the exact worst case. */
module WorstCase {
  import opened Basics
  import opened Fees

  // -------------------------------------------------- multi-outcome, many venues

  /** Dollars left before the winner's own fee: one dollar, less every price, entry fee and the gas. */
  function MultiCrossBase(cfg: Config, ps: seq<real>, plats: seq<string>): real
    requires |ps| == |plats|
  {
    1.0 - Sum(ps) - SumEntry(cfg, ps, plats) - if "polymarket" in plats then cfg.gas else 0.0
  }

  /** The claim is the smallest, over which outcome settles YES, of what is left after that outcome's win fee. */
  lemma MultiCrossIsTheWorstOutcome(cfg: Config, ps: seq<real>, plats: seq<string>)
    requires |ps| == |plats| && ps != [] && Sum(ps) < 1.0
    ensures var claim := NetMultiCross(cfg, ps, plats).profit;
            && (forall w :: 0 <= w < |ps| ==> claim <= MultiCrossBase(cfg, ps, plats) - WinFee(ps[w], plats[w]))
            && (exists w :: 0 <= w < |ps| && claim == MultiCrossBase(cfg, ps, plats) - WinFee(ps[w], plats[w]))
  {
    var base, fees := MultiCrossBase(cfg, ps, plats), WinFees(ps, plats);
    var claim := base - Greatest(fees);
    MultiCrossClaim(cfg, ps, plats);
    forall w | 0 <= w < |ps| ensures claim <= base - WinFee(ps[w], plats[w]) {
      assert fees[w] in fees;
    }
    var w :| 0 <= w < |fees| && fees[w] == Greatest(fees);
    assert claim == base - WinFee(ps[w], plats[w]);
  }

  lemma MultiCrossClaim(cfg: Config, ps: seq<real>, plats: seq<string>)
    requires |ps| == |plats| && Sum(ps) < 1.0
    ensures NetMultiCross(cfg, ps, plats).profit == MultiCrossBase(cfg, ps, plats) - Greatest(WinFees(ps, plats))
  {
    assert ps[..|ps|] == ps && plats[..|ps|] == plats;
  }

  // --------------------------------------------------------- backing every runner

  lemma CommissionGrows(x: real, y: real, rate: real)
    requires x <= y && 0.0 <= rate
    ensures Commission(x, rate) <= Commission(y, rate)
  {
    if y > 0.0 { MulNonNegative(rate, y); }
    if x > 0.0 { MulNonNegative(rate, y - x); }
  }

  /** Commission is taken on the cheapest runner, and that is the runner whose win leaves least. */
  lemma BackAllIsTheWorstOutcome(ps: seq<real>, rate: real)
    requires ps != [] && Sum(ps) < 1.0 && 0.0 <= rate
    ensures var claim := NetBackAll(ps, rate).profit;
            && (forall w :: 0 <= w < |ps| ==> claim <= 1.0 - Sum(ps) - Commission(1.0 - ps[w], rate))
            && (exists w :: 0 <= w < |ps| && claim == 1.0 - Sum(ps) - Commission(1.0 - ps[w], rate))
  {
    var claim := NetBackAll(ps, rate).profit;
    forall w | 0 <= w < |ps| ensures claim <= 1.0 - Sum(ps) - Commission(1.0 - ps[w], rate) {
      assert ps[w] in ps;
      CommissionGrows(1.0 - ps[w], 1.0 - Least(ps), rate);
    }
    var w :| 0 <= w < |ps| && ps[w] == Least(ps);
    assert claim == 1.0 - Sum(ps) - Commission(1.0 - ps[w], rate);
  }

  // ---------------------------------------------------------- the NO side of an event

  /** NO shares that pay when outcome `w` resolves YES, counted leg by leg. */
  function NoSharesPaid(n: nat, w: int): nat {
    if n == 0 then 0 else NoSharesPaid(n - 1, w) + if n - 1 == w then 0 else 1
  }

  lemma {:induction false} AllButOnePay(n: nat, w: int)
    ensures NoSharesPaid(n, w) == if 0 <= w < n then n - 1 else n
  {
    if n > 0 { AllButOnePay(n - 1, w); }
  }

  /** Whichever outcome wins, the payout is the same, so the claim is what every outcome pays. */
  lemma NoSidePaysTheSameWhoeverWins(cfg: Config, ps: seq<real>, w: int)
    requires 2 <= |ps| && 0 <= w < |ps| && Sum(ps) < (|ps| - 1) as real
    ensures NetNegriskNoSide(cfg, ps).profit
         == NoSharesPaid(|ps|, w) as real - Sum(ps) - SumPolymarket(cfg, ps) - cfg.gas * |ps| as real
  {
    AllButOnePay(|ps|, w);
  }

  // ------------------------------------------------------- YES on every outcome

  /** YES shares that pay when outcome `w` resolves YES, counted leg by leg. */
  function YesSharesPaid(n: nat, w: int): nat {
    if n == 0 then 0 else YesSharesPaid(n - 1, w) + if n - 1 == w then 1 else 0
  }

  lemma {:induction false} ExactlyOnePays(n: nat, w: int)
    ensures YesSharesPaid(n, w) == if 0 <= w < n then 1 else 0
  {
    if n > 0 { ExactlyOnePays(n - 1, w); }
  }

  /** A YES share of every outcome pays the same whichever wins; the Polymarket and Kalshi claims are that
      amount after each venue's entry fees, and a pair of YES and NO is the set of two. */
  lemma FullSetPaysTheSameWhoeverWins(cfg: Config, ps: seq<real>, w: int)
    requires 0 <= w < |ps| && Sum(ps) < 1.0
    ensures var left := YesSharesPaid(|ps|, w) as real - Sum(ps);
            && NetNegriskInternal(cfg, ps).profit == left - SumPolymarket(cfg, ps) - cfg.gas * |ps| as real
            && NetKalshiMulti(cfg, ps).profit == left - SumKalshi(cfg, ps)
    ensures |ps| == 2 ==> NetBinaryInternal(cfg, ps[0], ps[1]).profit == NetNegriskInternal(cfg, ps).profit
  {
    ExactlyOnePays(|ps|, w);
    if |ps| == 2 {
      assert ps[..1] == [ps[0]] && ps[..1][..0] == [];
      assert SumPolymarket(cfg, ps[..1]) == PolymarketTakerFee(cfg, ps[0]);
      assert Sum(ps[..1]) == ps[0];
    }
  }

  // ------------------------------------------------------------- a crossed book

  /** Net market result of backing and laying one runner, in implied probabilities. */
  function BackLayOutcome(back: real, lay: real, wins: bool): real {
    (if wins then 1.0 - back else -back) + (if wins then lay - 1.0 else lay)
  }

  /** On a crossed book the result is the same whether the runner wins or loses, and commission is taken on it
      once; on any other book the claim is nothing. */
  lemma BackLayPaysTheSameEitherWay(back: real, lay: real, rate: real, wins: bool)
    ensures var net := BackLayOutcome(back, lay, wins);
            NetBackLay(back, lay, rate).profit == if net > 0.0 then net - Commission(net, rate) else 0.0
  {}

  // ------------------------------------------------------------ implication locks

  /** Payoff of YES on B plus NO on A. */
  function LockPays(a: bool, b: bool): real {
    (if b then 1.0 else 0.0) + (if a then 0.0 else 1.0)
  }

  function FrechetOutcome(cfg: Config, pa: real, pb: real, kalshi: bool, a: bool, b: bool): real {
    var fees :=
      if kalshi then KalshiTakerFee(cfg, pb, 1, false) + KalshiTakerFee(cfg, 1.0 - pa, 1, false)
      else PolymarketTakerFee(cfg, pb) + PolymarketTakerFee(cfg, 1.0 - pa) + 2.0 * cfg.gas;
    LockPays(a, b) - (pb + (1.0 - pa)) - fees
  }

  /** Over the three states that A implies B allows, the claim is attained and never undercut; the
      forbidden state is the only one that would undercut it, by exactly a dollar. */
  lemma FrechetIsTheWorstReachableState(cfg: Config, pa: real, pb: real, kalshi: bool)
    requires pa > pb
    ensures var claim := NetFrechet(cfg, pa, pb, kalshi).profit;
            && (forall a: bool, b: bool :: (claim <= FrechetOutcome(cfg, pa, pb, kalshi, a, b) <==> (a ==> b)))
            && (exists a: bool, b: bool :: (a ==> b) && claim == FrechetOutcome(cfg, pa, pb, kalshi, a, b))
            && FrechetOutcome(cfg, pa, pb, kalshi, true, false) == claim - 1.0
  {
    var claim := NetFrechet(cfg, pa, pb, kalshi).profit;
    assert claim == FrechetOutcome(cfg, pa, pb, kalshi, true, true);
    assert claim == FrechetOutcome(cfg, pa, pb, kalshi, false, false);
    assert claim + 1.0 == FrechetOutcome(cfg, pa, pb, kalshi, false, true);
  }

  // ---------------------------------------------------------------- two venues

  function CrossOutcome(cfg: Config, a: real, b: real, platA: string, platB: string, aWins: bool): real {
    var gas := if platA == "polymarket" || platB == "polymarket" then cfg.gas else 0.0;
    var win := if aWins then WinFee(a, platA) else WinFee(b, platB);
    1.0 - (a + b) - EntryFee(cfg, a, platA) - EntryFee(cfg, b, platB) - win - gas
  }

  lemma SelectedFees(cfg: Config, x: real, y: real, a: real)
    ensures var fees := SelectFees(cfg, x, y, a);
            && (!cfg.expectedValue ==> fees == MaxReal(x, y))
            && (if x <= y then x else y) <= fees <= MaxReal(x, y)
  {
    var prob := if a < 0.0 then 0.0 else if a > 1.0 then 1.0 else a;
    Between(prob, x, y, if x <= y then x else y, MaxReal(x, y));
  }

  /** Worst-case mode reports the worse outcome exactly; expected-value mode lies between the two. */
  lemma CrossClaimsTheWorstOrBetween(cfg: Config, a: real, b: real, platA: string, platB: string)
    requires a + b < 1.0
    ensures var claim := NetCrossGeneric(cfg, a, b, platA, platB).profit;
            var whenA := CrossOutcome(cfg, a, b, platA, platB, true);
            var whenB := CrossOutcome(cfg, a, b, platA, platB, false);
            var worse := if whenA <= whenB then whenA else whenB;
            && (!cfg.expectedValue ==> claim == worse)
            && worse <= claim <= MaxReal(whenA, whenB)
  {
    var entry := EntryFee(cfg, a, platA) + EntryFee(cfg, b, platB);
    SelectedFees(cfg, WinFee(a, platA) + entry, WinFee(b, platB) + entry, a);
  }

  /** In expected-value mode the claim is the mean of the two outcomes, weighted by the first leg's price, kept between
      zero and one, as the probability that it wins. */
  lemma ExpectedClaimIsTheMean(cfg: Config, a: real, b: real, platA: string, platB: string, prob: real, whenA: real, whenB: real)
    requires cfg.expectedValue && a + b < 1.0
    requires prob == if a < 0.0 then 0.0 else if a > 1.0 then 1.0 else a
    requires whenA == CrossOutcome(cfg, a, b, platA, platB, true) && whenB == CrossOutcome(cfg, a, b, platA, platB, false)
    ensures NetCrossGeneric(cfg, a, b, platA, platB).profit == prob * whenA + (1.0 - prob) * whenB
  {
    var entry := EntryFee(cfg, a, platA) + EntryFee(cfg, b, platB);
    var gas := if platA == "polymarket" || platB == "polymarket" then cfg.gas else 0.0;
    var x, y := WinFee(a, platA) + entry, WinFee(b, platB) + entry;
    var mean := SelectFees(cfg, x, y, a);
    ClaimLessFees(cfg, a, b, platA, platB, entry, gas, x, y);
    SelectedMean(cfg, x, y, a, prob);
    MeanOfWhatIsLeft(prob, 1.0 - (a + b) - gas, x, y, mean, whenA, whenB);
  }

  lemma ClaimLessFees(cfg: Config, a: real, b: real, platA: string, platB: string, entry: real, gas: real, x: real, y: real)
    requires a + b < 1.0 && entry == EntryFee(cfg, a, platA) + EntryFee(cfg, b, platB)
    requires gas == if platA == "polymarket" || platB == "polymarket" then cfg.gas else 0.0
    requires x == WinFee(a, platA) + entry && y == WinFee(b, platB) + entry
    ensures NetCrossGeneric(cfg, a, b, platA, platB).profit == 1.0 - (a + b) - gas - SelectFees(cfg, x, y, a)
    ensures CrossOutcome(cfg, a, b, platA, platB, true) == 1.0 - (a + b) - gas - x
    ensures CrossOutcome(cfg, a, b, platA, platB, false) == 1.0 - (a + b) - gas - y
  {}

  lemma SelectedMean(cfg: Config, x: real, y: real, a: real, prob: real)
    requires cfg.expectedValue && prob == if a < 0.0 then 0.0 else if a > 1.0 then 1.0 else a
    ensures SelectFees(cfg, x, y, a) == prob * x + (1.0 - prob) * y
  {}

  lemma MeanOfWhatIsLeft(t: real, base: real, x: real, y: real, mean: real, p: real, q: real)
    requires mean == t * x + (1.0 - t) * y && p == base - x && q == base - y
    ensures base - mean == t * p + (1.0 - t) * q
  {
    assert t * p == t * base - t * x && (1.0 - t) * q == (1.0 - t) * base - (1.0 - t) * y;
    assert (1.0 - t) * base == base - t * base;
  }

  lemma Mix(t: real, x: real, y: real, p: real, q: real, m: real)
    requires p == t * (y - x) && q == (1.0 - t) * (y - x) && m == t * x + (1.0 - t) * y
    ensures m == y - p && m == x + q
  {}

  /** A strict weighted average of two different numbers lies strictly between them. */
  lemma StrictlyBetween(t: real, x: real, y: real, m: real)
    requires 0.0 < t < 1.0 && x < y && m == t * x + (1.0 - t) * y
    ensures x < m < y
  {
    var p, q := t * (y - x), (1.0 - t) * (y - x);
    PositiveProduct(t, y - x, p);
    PositiveProduct(1.0 - t, y - x, q);
    Mix(t, x, y, p, q, m);
  }

  /** When the two outcomes' fees differ, the weighted fee covers the dearer one only at the ends of the
      weight's range, and only when that end is the dearer outcome. */
  lemma SelectedFeesCoverBoth(cfg: Config, x: real, y: real, a: real)
    requires cfg.expectedValue
    ensures SelectFees(cfg, x, y, a) >= MaxReal(x, y) <==> DearerFeeIsCharged(a, x, y)
  {
    if 0.0 < a < 1.0 {
      var m := SelectFees(cfg, x, y, a);
      if x < y {
        StrictlyBetween(a, x, y, m);
      } else if y < x {
        assert (1.0 - (1.0 - a)) * x == a * x;
        StrictlyBetween(1.0 - a, y, x, m);
      } else {
        WeightsAddUp(a, x);
      }
    }
  }

  lemma WeightsAddUp(t: real, x: real)
    ensures t * x + (1.0 - t) * x == x
  {}

  predicate DearerFeeIsCharged(a: real, feeA: real, feeB: real) {
    feeA == feeB || (a <= 0.0 && feeA < feeB) || (a >= 1.0 && feeB < feeA)
  }

  /** Expected-value mode, the default, binds exactly when the venues' win fees agree: for a price strictly
      between zero and one the claim is paid by both outcomes if and only if they are equal. */
  lemma ExpectedValueBindsExactlyWhen(cfg: Config, a: real, b: real, platA: string, platB: string)
    requires cfg.expectedValue && a + b < 1.0
    ensures var claim := NetCrossGeneric(cfg, a, b, platA, platB).profit;
            (claim <= CrossOutcome(cfg, a, b, platA, platB, true) && claim <= CrossOutcome(cfg, a, b, platA, platB, false))
            <==> DearerFeeIsCharged(a, WinFee(a, platA), WinFee(b, platB))
  {
    var entry := EntryFee(cfg, a, platA) + EntryFee(cfg, b, platB);
    SelectedFeesCoverBoth(cfg, WinFee(a, platA) + entry, WinFee(b, platB) + entry, a);
  }

  /** For example, a 10-cent Betfair leg against an 86-cent SX Bet leg promises a profit that the Betfair
      leg's win does not pay. */
  lemma ExpectedValueCanOverpromise(cfg: Config)
    requires cfg.expectedValue
    ensures var (a, b) := (0.1, 0.86);
            NetCrossGeneric(cfg, a, b, "betfair", "sxbet").profit > 0.0
            && CrossOutcome(cfg, a, b, "betfair", "sxbet", true) < 0.0
  {}
}
