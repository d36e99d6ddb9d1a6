/** The fee calculus, in exact arithmetic.  Prices are dollars per one-dollar contract. */
module Fees {
  import opened Basics

  /** The environment-configured rates the fee functions read. */
  datatype Config = Config(
    gas: real,
    polymarketRate: real,
    geminiRate: real,
    kalshiCapCents: int,
    expectedValue: bool)

  datatype Net = Net(gross: real, fees: real, profit: real)

  function Ceil(x: real): (c: int)
    ensures (c - 1) as real < x <= c as real
  {
    -((-x).Floor)
  }

  function Least(xs: seq<real>): (m: real)
    requires xs != []
    ensures m in xs && forall x :: x in xs ==> m <= x
  {
    if |xs| == 1 then xs[0]
    else
      var m := Least(xs[..|xs| - 1]);
      assert forall x :: x in xs ==> x in xs[..|xs| - 1] || x == xs[|xs| - 1];
      if xs[|xs| - 1] < m then xs[|xs| - 1] else m
  }

  // ------------------------------------------------------------- venue fees

  function PolymarketTakerFee(cfg: Config, price: real): real {
    if price <= 0.0 || price >= 1.0 then 0.0 else cfg.polymarketRate * (price * (1.0 - price))
  }

  const EPSILON: real := 0.000000001

  function KalshiRate(half: bool): real {
    if half then 0.035 else 0.07
  }

  /** Rounded up once per order; the epsilon absorbs floating-point artefacts. */
  function KalshiTakerFee(cfg: Config, price: real, contracts: nat, half: bool): real {
    if price <= 0.0 || price >= 1.0 then 0.0
    else
      var cents := Ceil(KalshiRate(half) * contracts as real * price * (1.0 - price) * 100.0 - EPSILON);
      MinInt(cents, cfg.kalshiCapCents * contracts) as real / 100.0
  }

  function GeminiFee(cfg: Config, price: real): real {
    if price <= 0.0 || price >= 1.0 then 0.0
    else Ceil(cfg.geminiRate * (price * (1.0 - price)) * 100.0) as real / 100.0
  }

  /** Exchange commission: a share of net winnings, never negative. */
  function Commission(winnings: real, rate: real): real {
    if winnings <= 0.0 then 0.0 else winnings * rate
  }

  const BETFAIR: real := 0.05
  const SMARKETS: real := 0.02

  function EntryFee(cfg: Config, price: real, platform: string): real {
    if platform == "polymarket" then PolymarketTakerFee(cfg, price)
    else if platform == "kalshi" then KalshiTakerFee(cfg, price, 1, false)
    else if platform == "gemini" then GeminiFee(cfg, price)
    else 0.0
  }

  function WinFee(price: real, platform: string): real {
    if platform == "betfair" then Commission(1.0 - price, BETFAIR)
    else if platform == "smarkets" then Commission(1.0 - price, SMARKETS)
    else 0.0
  }

  function SelectFees(cfg: Config, caseA: real, caseB: real, priceA: real): real {
    if cfg.expectedValue then
      var prob := if priceA < 0.0 then 0.0 else if priceA > 1.0 then 1.0 else priceA;
      prob * caseA + (1.0 - prob) * caseB
    else MaxReal(caseA, caseB)
  }

  // ------------------------------------------------------------- net profits

  /** Above the break-even line fees are charged; at or below it the gross spread is reported as it is. */
  function Charged(gross: real, fees: real): Net {
    if gross <= 0.0 then Net(gross, 0.0, gross) else Net(gross, fees, gross - fees)
  }

  function SumPolymarket(cfg: Config, ps: seq<real>): real {
    if ps == [] then 0.0 else SumPolymarket(cfg, ps[..|ps| - 1]) + PolymarketTakerFee(cfg, ps[|ps| - 1])
  }

  function SumKalshi(cfg: Config, ps: seq<real>): real {
    if ps == [] then 0.0 else SumKalshi(cfg, ps[..|ps| - 1]) + KalshiTakerFee(cfg, ps[|ps| - 1], 1, false)
  }

  function NetBinaryInternal(cfg: Config, yes: real, no: real): Net {
    Charged(1.0 - (yes + no), PolymarketTakerFee(cfg, yes) + PolymarketTakerFee(cfg, no) + cfg.gas * 2.0)
  }

  function NetNegriskInternal(cfg: Config, ps: seq<real>): Net {
    Charged(1.0 - Sum(ps), SumPolymarket(cfg, ps) + cfg.gas * |ps| as real)
  }

  function NetNegriskNoSide(cfg: Config, ps: seq<real>): Net {
    if |ps| < 2 then Net(0.0, 0.0, 0.0)
    else Charged((|ps| - 1) as real - Sum(ps), SumPolymarket(cfg, ps) + cfg.gas * |ps| as real)
  }

  function NetKalshiBinary(cfg: Config, yes: real, no: real): Net {
    Charged(1.0 - (yes + no), KalshiTakerFee(cfg, yes, 1, false) + KalshiTakerFee(cfg, no, 1, false))
  }

  function NetKalshiMulti(cfg: Config, ps: seq<real>): Net {
    Charged(1.0 - Sum(ps), SumKalshi(cfg, ps))
  }

  /** Betfair, Smarkets, SX Bet and Matchbook back-all differ only in the commission rate. */
  function NetBackAll(ps: seq<real>, rate: real): Net
    requires ps != []
  {
    Charged(1.0 - Sum(ps), Commission(1.0 - Least(ps), rate))
  }

  function NetBackLay(back: real, lay: real, rate: real): Net {
    if lay <= back then Net(0.0, 0.0, 0.0) else Charged(lay - back, Commission(lay - back, rate))
  }

  function NetGeminiBinary(cfg: Config, yes: real, no: real): Net {
    Charged(1.0 - (yes + no), GeminiFee(cfg, yes) + GeminiFee(cfg, no))
  }

  function NetIbkrBinary(yes: real, no: real): Net {
    Charged(1.0 - (yes + no), 0.0)
  }

  /** `net_profit_cross_generic`, and `net_profit_triangular`, which computes the same thing. */
  function NetCrossGeneric(cfg: Config, a: real, b: real, platA: string, platB: string): Net {
    var entry := EntryFee(cfg, a, platA) + EntryFee(cfg, b, platB);
    var fees := SelectFees(cfg, WinFee(a, platA) + entry, WinFee(b, platB) + entry, a);
    var gas := if platA == "polymarket" || platB == "polymarket" then cfg.gas else 0.0;
    Charged(1.0 - (a + b), fees + gas)
  }

  function SumEntry(cfg: Config, ps: seq<real>, plats: seq<string>): real
    requires |ps| == |plats|
  {
    if ps == [] then 0.0
    else SumEntry(cfg, ps[..|ps| - 1], plats[..|plats| - 1]) + EntryFee(cfg, ps[|ps| - 1], plats[|plats| - 1])
  }

  function WinFees(ps: seq<real>, plats: seq<string>): (w: seq<real>)
    requires |ps| == |plats|
    ensures |w| == |ps|
  {
    seq(|ps|, i requires 0 <= i < |ps| => WinFee(ps[i], plats[i]))
  }

  function Greatest(xs: seq<real>): (m: real)
    ensures forall x :: x in xs ==> x <= m
    ensures xs == [] ==> m == 0.0
    ensures xs != [] ==> m in xs
  {
    if xs == [] then 0.0
    else if |xs| == 1 then xs[0]
    else
      var m := Greatest(xs[..|xs| - 1]);
      assert forall x :: x in xs ==> x in xs[..|xs| - 1] || x == xs[|xs| - 1];
      if xs[|xs| - 1] > m then xs[|xs| - 1] else m
  }

  /** The two lists are walked together, so the shorter one decides how many legs are charged. */
  function NetMultiCross(cfg: Config, ps: seq<real>, plats: seq<string>): Net {
    var n := if |ps| <= |plats| then |ps| else |plats|;
    var gas := if "polymarket" in plats then cfg.gas else 0.0;
    Charged(1.0 - Sum(ps), SumEntry(cfg, ps[..n], plats[..n]) + Greatest(WinFees(ps[..n], plats[..n])) + gas)
  }

  function NetFrechet(cfg: Config, a: real, b: real, kalshi: bool): Net {
    var fees :=
      if kalshi then KalshiTakerFee(cfg, b, 1, false) + KalshiTakerFee(cfg, 1.0 - a, 1, false)
      else PolymarketTakerFee(cfg, b) + PolymarketTakerFee(cfg, 1.0 - a) + cfg.gas * 2.0;
    Charged(a - b, fees)
  }

  // ------------------------------------------------------- what each venue charges

  /** A venue charges on entry or on a win, never both: Betfair five percent of the winnings and Smarkets two, on a price
      below a dollar; Polymarket a share of price times complement on a price inside the range, Gemini the same rounded up
      to a cent; Kalshi on entry; nobody else anything. */
  lemma VenuesChargeOnce(cfg: Config, p: real, venue: string)
    ensures WinFee(p, venue) == if p >= 1.0 then 0.0
                                else if venue == "betfair" then (1.0 - p) / 20.0
                                else if venue == "smarkets" then (1.0 - p) / 50.0
                                else 0.0
    ensures venue !in ["polymarket", "kalshi", "gemini"] ==> EntryFee(cfg, p, venue) == 0.0
    ensures p <= 0.0 || p >= 1.0 ==> EntryFee(cfg, p, venue) == 0.0
    ensures 0.0 < p < 1.0 ==> EntryFee(cfg, p, "polymarket") == cfg.polymarketRate * (p * (1.0 - p))
    ensures EntryFee(cfg, p, "kalshi") == KalshiTakerFee(cfg, p, 1, false)
  {}

  lemma GeminiRoundsUp(cfg: Config, p: real, spread: real)
    requires 0.0 < p < 1.0 && spread == p * (1.0 - p)
    ensures WholeCentsAbove(cfg.geminiRate * spread, GeminiFee(cfg, p))
  {
    UpToACent(cfg.geminiRate * spread);
  }

  lemma GeminiOnEntry(cfg: Config, p: real)
    ensures EntryFee(cfg, p, "gemini") == GeminiFee(cfg, p)
  {}

  /** The least whole number of cents that is not below the exact fee. */
  predicate WholeCentsAbove(exact: real, fee: real) {
    fee * 100.0 == (fee * 100.0).Floor as real && fee - 0.01 < exact <= fee
  }

  lemma UpToACent(x: real)
    ensures WholeCentsAbove(x, Ceil(x * 100.0) as real / 100.0)
  {
    assert Ceil(x * 100.0) as real / 100.0 * 100.0 == Ceil(x * 100.0) as real;
  }

  // ----------------------------------------------------------- bounds on fees

  /** Rates at which two legs can never cost more than the dollar they pay back. */
  predicate Modest(cfg: Config) {
    0.0 <= cfg.gas <= 0.1 && 0.0 <= cfg.polymarketRate <= 1.0 && 0.0 <= cfg.geminiRate <= 1.0
  }

  lemma MulNonNegative(a: real, b: real)
    requires 0.0 <= a && 0.0 <= b
    ensures 0.0 <= a * b
  {}

  lemma Shrink(r: real, x: real)
    requires 0.0 <= r <= 1.0 && 0.0 <= x
    ensures 0.0 <= r * x <= x
  {
    MulNonNegative(r, x);
    MulNonNegative(1.0 - r, x);
    assert (1.0 - r) * x == x - r * x;
  }

  /** A weighted average lies between its two ends. */
  lemma Between(t: real, x: real, y: real, low: real, high: real)
    requires 0.0 <= t <= 1.0 && low <= x <= high && low <= y <= high
    ensures low <= t * x + (1.0 - t) * y <= high
  {
    MulNonNegative(t, high - x);
    MulNonNegative(1.0 - t, high - y);
    MulNonNegative(t, x - low);
    MulNonNegative(1.0 - t, y - low);
  }

  lemma QuarterBound(p: real, spread: real)
    requires spread == p * (1.0 - p)
    ensures spread <= 0.25
    ensures 0.0 < p < 1.0 ==> 0.0 < spread
  {
    var d := p - 0.5;
    SquareIsNonNegative(d, d * d);
    CompleteTheSquare(p, d);
    if 0.0 < p < 1.0 { PositiveProduct(p, 1.0 - p, spread); }
  }

  lemma PositiveProduct(x: real, y: real, s: real)
    requires x > 0.0 && y > 0.0 && s == x * y
    ensures s > 0.0
  {}

  lemma SquareIsNonNegative(x: real, s: real)
    requires s == x * x
    ensures s >= 0.0
  {
    if x >= 0.0 { MulNonNegative(x, x); } else { MulNonNegative(-x, -x); }
  }

  lemma CompleteTheSquare(p: real, d: real)
    requires d == p - 0.5
    ensures p * (1.0 - p) == 0.25 - d * d
  {}

  lemma PolymarketBound(cfg: Config, p: real)
    requires 0.0 <= cfg.polymarketRate <= 1.0
    ensures 0.0 <= PolymarketTakerFee(cfg, p) <= 0.25
  {
    var spread := p * (1.0 - p);
    QuarterBound(p, spread);
    if 0.0 < p < 1.0 { Shrink(cfg.polymarketRate, spread); }
  }

  lemma KalshiBound(cfg: Config, p: real)
    ensures KalshiTakerFee(cfg, p, 1, false) <= 0.02
  {
    var spread := p * (1.0 - p);
    QuarterBound(p, spread);
    if 0.0 < p < 1.0 {
      var raw := KalshiRate(false) * 1 as real * p * (1.0 - p) * 100.0;
      RawKalshiCents(p, spread, raw);
      AtMostTwoCents(Ceil(raw - EPSILON), cfg.kalshiCapCents * 1);
    }
  }

  lemma RawKalshiCents(p: real, spread: real, raw: real)
    requires spread == p * (1.0 - p) && spread <= 0.25
    requires raw == KalshiRate(false) * 1 as real * p * (1.0 - p) * 100.0
    ensures raw <= 1.75
  {
    assert raw == 7.0 * spread;
  }

  lemma AtMostTwoCents(cents: int, cap: int)
    requires cents <= 2
    ensures MinInt(cents, cap) as real / 100.0 <= 0.02
  {}

  lemma GeminiBound(cfg: Config, p: real)
    requires 0.0 <= cfg.geminiRate <= 1.0
    ensures 0.0 <= GeminiFee(cfg, p) <= 0.26
  {
    var spread := p * (1.0 - p);
    QuarterBound(p, spread);
    if 0.0 < p < 1.0 {
      Shrink(cfg.geminiRate, spread);
      CentsUp(cfg.geminiRate * spread);
    }
  }

  /** Rounding up to the next cent. */
  lemma CentsUp(x: real)
    requires 0.0 <= x <= 0.25
    ensures 0.0 <= Ceil(x * 100.0) as real / 100.0 <= 0.26
  {
    assert 0.0 <= x * 100.0 <= 25.0;
  }

  lemma EntryBound(cfg: Config, p: real, plat: string)
    requires Modest(cfg)
    ensures EntryFee(cfg, p, plat) <= 0.26
  {
    PolymarketBound(cfg, p);
    KalshiBound(cfg, p);
    GeminiBound(cfg, p);
  }

  lemma WinBound(p: real, plat: string)
    requires 0.0 <= p
    ensures 0.0 <= WinFee(p, plat) <= 0.05
  {}

  lemma SelectBound(cfg: Config, x: real, y: real, p: real, bound: real)
    requires x <= bound && y <= bound
    ensures SelectFees(cfg, x, y, p) <= bound
  {
    if cfg.expectedValue {
      var prob := if p < 0.0 then 0.0 else if p > 1.0 then 1.0 else p;
      Between(prob, x, y, if x <= y then x else y, bound);
    }
  }
}
