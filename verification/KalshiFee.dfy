/** The Kalshi taker fee on cent prices: an exact integer ceiling, and what follows from it. */
module KalshiFee {
  import opened Basics
  import opened Fees

  function CeilDiv(n: int, d: int): int
    requires d > 0
  {
    -((-n) / d)
  }

  lemma CeilDivBounds(n: int, d: int)
    requires d > 0
    ensures (CeilDiv(n, d) - 1) * d < n <= CeilDiv(n, d) * d
  {}

  lemma MulCancelInt(a: int, b: int, d: int)
    requires d > 0 && a * d < b * d
    ensures a < b
  {}

  lemma CeilDivIsLeast(n: int, d: int, q: int)
    requires d > 0 && n <= q * d
    ensures CeilDiv(n, d) <= q
  {
    CeilDivBounds(n, d);
    MulCancelInt(CeilDiv(n, d) - 1, q, d);
  }

  /** Price of `k` cents, in dollars. */
  function Cents(k: int): real {
    k as real / 100.0
  }

  /** Hundred-thousandths of a cent owed before rounding. */
  function RawFee(k: int, contracts: nat, half: bool): int {
    (if half then 35 else 70) * (contracts * (k * (100 - k)))
  }

  const UNIT := 100_000

  function FeeCents(k: int, contracts: nat, half: bool): int {
    CeilDiv(RawFee(k, contracts, half), UNIT)
  }

  lemma {:induction false} RealOfProduct(a: nat, b: int)
    ensures (a * b) as real == a as real * b as real
  {
    if a > 0 {
      RealOfProduct(a - 1, b);
      assert a * b == (a - 1) * b + b;
      assert a as real == (a - 1) as real + 1.0;
      assert a as real * b as real == (a - 1) as real * b as real + b as real;
    }
  }

  lemma CentProduct(k: nat)
    ensures Cents(k) * (1.0 - Cents(k)) == (k * (100 - k)) as real / 10000.0
  {
    RealOfProduct(k, 100 - k);
    var x := k as real;
    assert Cents(k) * (1.0 - Cents(k)) == x * (100.0 - x) / 10000.0;
  }

  lemma Rearrange(rate: real, c: real, p: real, q: real)
    ensures rate * c * p * q * 100.0 == (rate * 100.0) * (c * (p * q))
  {
    assert rate * c * p * q == (rate * c) * (p * q);
    assert (rate * c) * (p * q) == rate * (c * (p * q));
  }

  lemma DivideLast(c: real, m: real)
    ensures c * (m / 10000.0) == c * m / 10000.0
  {}

  lemma RawFeeInReals(k: nat, contracts: nat, half: bool)
    requires 0 < k < 100
    ensures KalshiRate(half) * contracts as real * Cents(k) * (1.0 - Cents(k)) * 100.0 == RawFee(k, contracts, half) as real / 100000.0
  {
    var m := k * (100 - k);
    CentProduct(k);
    RealOfProduct(contracts, m);
    Rearrange(KalshiRate(half), contracts as real, Cents(k), 1.0 - Cents(k));
    DivideLast(contracts as real, m as real);
  }

  lemma CeilOnTheGrid(n: int, q: int)
    requires (q - 1) * UNIT < n <= q * UNIT
    ensures Ceil(n as real / 100000.0 - EPSILON) == q
  {
    assert n as real >= (q - 1) as real * 100000.0 + 1.0;
    assert n as real <= q as real * 100000.0;
  }

  /** The floating epsilon is harmless on cent prices: for every order size the charge is the exact
      ceiling, never more than the cap and less than one cent above the raw fee. */
  lemma FeeIsExactCeiling(cfg: Config, k: nat, contracts: nat, half: bool)
    requires 0 < k < 100 && 2 <= cfg.kalshiCapCents
    ensures KalshiTakerFee(cfg, Cents(k), contracts, half) == FeeCents(k, contracts, half) as real / 100.0
    ensures (FeeCents(k, contracts, half) - 1) * UNIT < RawFee(k, contracts, half) <= FeeCents(k, contracts, half) * UNIT
    ensures 0 <= FeeCents(k, contracts, half) <= 2 * contracts
  {
    var n, q := RawFee(k, contracts, half), FeeCents(k, contracts, half);
    CeilDivBounds(n, UNIT);
    RawFeeBound(k, contracts, half);
    CeilDivIsLeast(n, UNIT, 2 * contracts);
    CeilOnTheGrid(n, q);
    FeeFormula(cfg, k, contracts, half);
    UnderCap(q, contracts, cfg.kalshiCapCents);
  }

  lemma UnderCap(q: int, contracts: nat, cap: int)
    requires q <= 2 * contracts && 2 <= cap
    ensures MinInt(q, cap * contracts) == q
  {}

  lemma FeeFormula(cfg: Config, k: nat, contracts: nat, half: bool)
    requires 0 < k < 100
    ensures KalshiTakerFee(cfg, Cents(k), contracts, half) ==
            MinInt(Ceil(RawFee(k, contracts, half) as real / 100000.0 - EPSILON), cfg.kalshiCapCents * contracts) as real / 100.0
  {
    RawFeeInReals(k, contracts, half);
  }

  lemma RawFeeBound(k: nat, contracts: nat, half: bool)
    requires 0 < k < 100
    ensures 0 <= RawFee(k, contracts, half) <= 2 * contracts * UNIT
  {
    var m := k * (100 - k);
    assert 0 <= m <= 2500 by {
      assert (k - 50) * (k - 50) >= 0;
      assert m == 2500 - (k - 50) * (k - 50);
    }
    assert 0 <= contracts * m <= contracts * 2500;
  }

  /** The default cap of 175 cents a contract is never even reached. */
  lemma CapNeverBinds(k: nat, contracts: nat, half: bool)
    requires 0 < k < 100 && 0 < contracts
    ensures FeeCents(k, contracts, half) < 175 * contracts
  {
    RawFeeBound(k, contracts, half);
    CeilDivIsLeast(RawFee(k, contracts, half), UNIT, 2 * contracts);
  }

  lemma FeeIsSymmetric(cfg: Config, k: nat, contracts: nat, half: bool)
    requires 0 < k < 100
    ensures KalshiTakerFee(cfg, Cents(k), contracts, half) == KalshiTakerFee(cfg, 1.0 - Cents(k), contracts, half)
  {
    RawFeeInReals(k, contracts, half);
    RawFeeInReals(100 - k, contracts, half);
    assert k * (100 - k) == (100 - k) * (100 - (100 - k));
    assert 1.0 - Cents(k) == Cents(100 - k);
  }

  /** One order never costs more in fees than the same contracts split into two. */
  lemma BatchingNeverCostsMore(k: nat, c: nat, d: nat, half: bool)
    requires 0 < k < 100
    ensures FeeCents(k, c + d, half) <= FeeCents(k, c, half) + FeeCents(k, d, half)
  {
    var m := k * (100 - k);
    assert (c + d) * m == c * m + d * m;
    CeilDivBounds(RawFee(k, c, half), UNIT);
    CeilDivBounds(RawFee(k, d, half), UNIT);
    CeilDivIsLeast(RawFee(k, c + d, half), UNIT, FeeCents(k, c, half) + FeeCents(k, d, half));
  }

  lemma OneCentUp(k: nat, contracts: nat, half: bool)
    requires 0 < k < 99
    ensures contracts * k + FeeCents(k, contracts, half) <= contracts * (k + 1) + FeeCents(k + 1, contracts, half)
  {
    var rate := if half then 35 else 70;
    var m, m' := k * (100 - k), (k + 1) * (100 - (k + 1));
    assert m' == m + 99 - 2 * k;
    assert contracts * m == contracts * m' - contracts * (99 - 2 * k);
    assert contracts * (99 - 2 * k) >= contracts * (-99);
    assert RawFee(k, contracts, half) <= RawFee(k + 1, contracts, half) + contracts * UNIT;
    CeilDivBounds(RawFee(k + 1, contracts, half), UNIT);
    var q := FeeCents(k + 1, contracts, half) + contracts;
    assert q * UNIT == FeeCents(k + 1, contracts, half) * UNIT + contracts * UNIT;
    CeilDivIsLeast(RawFee(k, contracts, half), UNIT, q);
    assert contracts * (k + 1) == contracts * k + contracts;
  }

  /** Price plus fee never falls as the price rises, for every order size. */
  lemma {:induction false} PricePlusFeeIsMonotone(k: nat, l: nat, contracts: nat, half: bool)
    requires 0 < k <= l < 100
    ensures contracts * k + FeeCents(k, contracts, half) <= contracts * l + FeeCents(l, contracts, half)
    decreases l
  {
    if k < l {
      PricePlusFeeIsMonotone(k, l - 1, contracts, half);
      OneCentUp(l - 1, contracts, half);
    }
  }

  // ------------------------------------------------------- lowering one ask

  /** Dollars needed to buy one contract of each leg, fees included. */
  function AllIn(cfg: Config, ps: seq<real>): real {
    if ps == [] then 0.0
    else AllIn(cfg, ps[..|ps| - 1]) + ps[|ps| - 1] + KalshiTakerFee(cfg, ps[|ps| - 1], 1, false)
  }

  lemma {:induction false} AllInSplits(cfg: Config, ps: seq<real>)
    ensures AllIn(cfg, ps) == Sum(ps) + SumKalshi(cfg, ps)
  {
    if ps != [] { AllInSplits(cfg, ps[..|ps| - 1]); }
  }

  lemma LegGetsCheaper(cfg: Config, k: nat, l: nat)
    requires 0 < k <= l < 100 && 2 <= cfg.kalshiCapCents
    ensures Cents(k) + KalshiTakerFee(cfg, Cents(k), 1, false) <= Cents(l) + KalshiTakerFee(cfg, Cents(l), 1, false)
  {
    PricePlusFeeIsMonotone(k, l, 1, false);
    FeeIsExactCeiling(cfg, k, 1, false);
    FeeIsExactCeiling(cfg, l, 1, false);
  }

  lemma {:induction false} SetGetsCheaper(cfg: Config, ps: seq<real>, i: nat, k: nat, l: nat)
    requires i < |ps| && ps[i] == Cents(l)
    requires 0 < k <= l < 100 && 2 <= cfg.kalshiCapCents
    ensures AllIn(cfg, ps[i := Cents(k)]) <= AllIn(cfg, ps)
    ensures Sum(ps[i := Cents(k)]) <= Sum(ps)
  {
    var ps' := ps[i := Cents(k)];
    if i == |ps| - 1 {
      assert ps'[..|ps| - 1] == ps[..|ps| - 1];
      LegGetsCheaper(cfg, k, l);
    } else {
      assert ps'[..|ps| - 1] == ps[..|ps| - 1][i := Cents(k)];
      SetGetsCheaper(cfg, ps[..|ps| - 1], i, k, l);
    }
  }

  /** In a profitable Kalshi set, lowering any leg's ask never lowers the net profit. */
  lemma LowerAskNeverHurts(cfg: Config, ps: seq<real>, i: nat, k: nat, l: nat)
    requires i < |ps| && ps[i] == Cents(l)
    requires 0 < k <= l < 100 && 2 <= cfg.kalshiCapCents
    requires NetKalshiMulti(cfg, ps).gross > 0.0
    ensures NetKalshiMulti(cfg, ps[i := Cents(k)]).profit >= NetKalshiMulti(cfg, ps).profit
    ensures NetKalshiMulti(cfg, ps).profit == 1.0 - AllIn(cfg, ps)
  {
    SetGetsCheaper(cfg, ps, i, k, l);
    AllInSplits(cfg, ps);
    AllInSplits(cfg, ps[i := Cents(k)]);
  }

  /** The binary set is the two-leg case, so the same holds for either leg. */
  lemma BinaryIsATwoLegSet(cfg: Config, yes: real, no: real)
    ensures NetKalshiBinary(cfg, yes, no) == NetKalshiMulti(cfg, [yes, no])
  {
    assert [yes, no][..1] == [yes] && [yes][..0] == [];
    assert Sum([yes]) == yes && SumKalshi(cfg, [yes]) == KalshiTakerFee(cfg, yes, 1, false);
  }

  predicate CutPaysItsFees(cfg: Config, before: seq<real>, after: seq<real>) {
    Sum(before) < 1.0 || Sum(after) >= 1.0 || SumKalshi(cfg, after) <= Sum(before) - Sum(after)
  }

  /** The exact reach of the law, on both sides of the break-even line: lowering one ask does not lower the
      net profit if and only if the set was already profitable, or still is not, or the price cut pays for
      the fees that start to be charged. */
  lemma LowerAskNeverHurtsExactlyWhen(cfg: Config, ps: seq<real>, i: nat, k: nat, l: nat)
    requires i < |ps| && ps[i] == Cents(l)
    requires 0 < k <= l < 100 && 2 <= cfg.kalshiCapCents
    ensures NetKalshiMulti(cfg, ps[i := Cents(k)]).profit >= NetKalshiMulti(cfg, ps).profit <==>
            CutPaysItsFees(cfg, ps, ps[i := Cents(k)])
  {
    SetGetsCheaper(cfg, ps, i, k, l);
    if Sum(ps) < 1.0 { LowerAskNeverHurts(cfg, ps, i, k, l); }
  }

  /** For example, 50 + 50 cents reports zero and 49 + 50 cents a loss. */
  lemma BreakEvenLineIsAStep(cfg: Config)
    requires 2 <= cfg.kalshiCapCents
    ensures NetKalshiBinary(cfg, Cents(49), Cents(50)).profit < NetKalshiBinary(cfg, Cents(50), Cents(50)).profit
  {
    FeeIsExactCeiling(cfg, 49, 1, false);
    FeeIsExactCeiling(cfg, 50, 1, false);
  }
}
