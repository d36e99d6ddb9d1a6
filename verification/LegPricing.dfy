/** Venue-aware pricing of one trade leg, fail-closed on malformed money data. */
module LegPricing {
  import opened Basics

  /** A stored number as the code meets it: absent, unusable (NaN, infinity, a bool, text), or a finite number. */
  datatype Field = Missing | Garbage | Num(v: real)

  predicate MoneyValid(f: Field) {
    f.Num? && f.v > 0.0
  }

  datatype Venue = Shares | Dollars | Stake | Unknown

  /** One-dollar contracts held, and dollars paid for them. */
  datatype Leg = Leg(contracts: real, cost: real)

  /** Python's `round(x, 2)` in exact arithmetic: to the nearest cent, ties to the even cent. */
  function RoundCents(x: real): (r: real)
    ensures -0.005 <= r - x <= 0.005
    ensures 0.0 <= x ==> 0.0 <= r
  {
    var down := (x * 100.0).Floor;
    var frac := x * 100.0 - down as real;
    (if frac < 0.5 || (frac == 0.5 && down % 2 == 0) then down as real else (down + 1) as real) / 100.0
  }

  /** `max(1, int(size / price))`. */
  function WholeContracts(size: real, price: real): (n: int)
    requires price > 0.0
    ensures n >= 1
  {
    var q := (size / price).Floor;
    if q >= 1 then q else 1
  }

  /** A missing fill falls back to the order price; a recorded but unusable one does not. */
  function EffectiveFill(price: Field, fill: Field): Field {
    if fill.Missing? then price else fill
  }

  // One pricing rule per venue; `f` is the effective fill.  A rule that cannot use the prices it
  // needs books no payout and the worst dollar cost the venue allows.

  function PriceShares(f: Field, size: real): Leg {
    if MoneyValid(f) then Leg(size, f.v * size) else Leg(0.0, size)
  }

  function PriceDollars(price: Field, f: Field, size: real): Leg {
    if MoneyValid(price) && MoneyValid(f) then
      var contracts := WholeContracts(size, price.v) as real;
      Leg(contracts, contracts * f.v)
    else Leg(0.0, size)
  }

  function PriceStake(f: Field, size: real): Leg {
    var stake := RoundCents(size);
    if MoneyValid(f) then Leg(stake / f.v, stake) else Leg(0.0, stake)
  }

  function PriceUnknown(f: Field, size: real): Leg {
    Leg(0.0, MaxReal(size, (if MoneyValid(f) then f.v else 0.0) * size))
  }

  function PriceLeg(venue: Venue, price: Field, fill: Field, size: Field): Option<Leg> {
    var f := EffectiveFill(price, fill);
    if !MoneyValid(size) then None
    else match venue
      case Shares => Some(PriceShares(f, size.v))
      case Dollars => Some(PriceDollars(price, f, size.v))
      case Stake => Some(PriceStake(f, size.v))
      case Unknown => Some(PriceUnknown(f, size.v))
  }

  lemma PricedIsNonNegative(venue: Venue, price: Field, fill: Field, size: Field)
    ensures PriceLeg(venue, price, fill, size).Some? <==> MoneyValid(size)
    ensures var leg := PriceLeg(venue, price, fill, size);
            leg.Some? ==> 0.0 <= leg.value.cost && 0.0 <= leg.value.contracts
  {
    var f := EffectiveFill(price, fill);
    if MoneyValid(size) && MoneyValid(f) {
      assert f.v * size.v >= 0.0;
      assert RoundCents(size.v) / f.v >= 0.0;
      if MoneyValid(price) {
        var n := WholeContracts(size.v, price.v) as real;
        assert n * f.v >= 0.0;
      }
    }
  }

  // -------------------------------------------------- erased or corrupted prices

  /** `after` is `before` kept as it was, or lost: absent, unusable, or not positive. */
  predicate Lost(before: Field, after: Field) {
    after == before || !MoneyValid(after)
  }

  /** When losing the price or the fill, or more of them, cannot make a leg look better; a caller can read it off
      the record.  A usable fill must not exceed what an order price to fall back on, or the worst case, charges;
      an unusable one must not hide an order price that would book a gain on the worst case. */
  predicate Robust(venue: Venue, price: Field, fill: Field, size: Field) {
    !MoneyValid(size) || RobustFill(venue, price, EffectiveFill(price, fill), size.v)
  }

  predicate RobustFill(venue: Venue, price: Field, f: Field, size: real) {
    match venue
    case Shares =>
      if MoneyValid(f) then f.v <= 1.0 && (MoneyValid(price) ==> f.v <= price.v)
      else MoneyValid(price) ==> 2.0 <= price.v
    case Dollars =>
      MoneyValid(price) ==>
        if MoneyValid(f) then f.v <= price.v && (size >= price.v || f.v <= size) else size + 1.0 <= price.v
    case Stake => MoneyValid(price) ==> (MoneyValid(f) && f.v <= price.v) || RoundCents(size) == 0.0
    case Unknown => MoneyValid(f) ==> f.v <= 1.0
  }

  /** Costs no less, and is worth no more, won or lost. */
  predicate NoBetter(worse: Leg, better: Leg) {
    worse.cost >= better.cost && worse.contracts - worse.cost <= better.contracts - better.cost
  }

  lemma MulMono(a: real, b: real, c: real)
    requires a <= b && 0.0 <= c
    ensures a * c <= b * c
    ensures a < b && 0.0 < c ==> a * c < b * c
  {}

  lemma Quotient(a: real, b: real, c: real)
    requires 0.0 <= a && 0.0 < b <= c
    ensures a / c <= a / b
    ensures 0.0 < a && b < c ==> a / c < a / b
  {
    var q, r := a / c, a / b;
    assert q * c == a && r * b == a;
    assert q >= 0.0;
    MulMono(b, c, q);
    if r < q { MulMono(r, q, b); }
    if 0.0 < a && b < c {
      assert q > 0.0;
      MulMono(b, c, q);
      if r <= q { MulMono(r, q, b); }
    }
  }

  lemma QuotientAtLeastOne(size: real, price: real)
    requires 0.0 < size && 0.0 < price
    ensures size / price >= 1.0 <==> size >= price
  {
    var q := size / price;
    assert q * price == size;
    if q < 1.0 { BelowOne(q, price); } else { MulMono(1.0, q, price); }
  }

  lemma BelowOne(q: real, price: real)
    requires q < 1.0 && 0.0 < price
    ensures q * price < price
  {
    assert (1.0 - q) * price > 0.0;
  }

  lemma SharesCompare(size: real, x: real, y: real, c: real, d: real)
    requires 0.0 < size && c == x * size && d == y * size
    ensures (x <= y <==> c <= d) && (x < y <==> c < d)
  {
    if x <= y { MulMono(x, y, size); } else { MulMono(y, x, size); }
  }

  lemma ContractsFitTheSize(size: real, price: real, n: real, d: real)
    requires 0.0 < size && 0.0 < price && n == WholeContracts(size, price) as real && d == n * price
    ensures if size >= price then d <= size else n == 1.0
  {
    var q := size / price;
    QuotientAtLeastOne(size, price);
    if size >= price {
      assert q * price == size && n <= q;
      SharesCompare(price, n, q, d, size);
    }
  }

  /** What can be left of an effective fill: itself, nothing usable, or the order price it falls back on. */
  predicate FillLeft(price: Field, f: Field, f': Field) {
    f' == f || !MoneyValid(f') || (MoneyValid(price) && f' == price)
  }

  lemma SpoiledShares(f: Field, size: real)
    requires 0.0 < size && (MoneyValid(f) ==> f.v <= 1.0)
    ensures NoBetter(Leg(0.0, size), PriceShares(f, size))
  {
    if MoneyValid(f) { SharesCompare(size, f.v, 1.0, f.v * size, size); }
  }

  lemma FallenBackShares(price: real, f: Field, size: real)
    requires 0.0 < size && 0.0 < price && if MoneyValid(f) then f.v <= price else 2.0 <= price
    ensures NoBetter(PriceShares(Num(price), size), PriceShares(f, size))
  {
    var x := if MoneyValid(f) then f.v else 2.0;
    SharesCompare(size, x, price, x * size, price * size);
  }

  lemma LostShares(price: Field, f: Field, size: real, f': Field)
    requires 0.0 < size && RobustFill(Shares, price, f, size) && FillLeft(price, f, f')
    ensures NoBetter(PriceShares(f', size), PriceShares(f, size))
  {
    if f' == f {
    } else if MoneyValid(f') {
      FallenBackShares(price.v, f, size);
    } else {
      SpoiledShares(f, size);
    }
  }

  /** What `n` contracts cost, and what they would have cost at the order price. */
  lemma DollarsCompare(size: real, price: real, f: real, n: real, c: real, d: real)
    requires 0.0 < size && 0.0 < price && 0.0 < f && n == WholeContracts(size, price) as real && c == n * f && d == n * price
    ensures (f <= price <==> c <= d) && 1.0 <= n
    ensures f <= price ==> (c <= size <==> size >= price || f <= size)
    ensures n - d <= -size <==> size + 1.0 <= price
    ensures size + 1.0 <= price ==> d >= size
  {
    ContractsFitTheSize(size, price, n, d);
    SharesCompare(n, f, price, f * n, price * n);
    if size >= price {
      assert d <= size;
    } else {
      OneContract(n, f, c);
      OneContract(n, price, d);
    }
  }

  lemma OneContract(n: real, f: real, c: real)
    requires n == 1.0 && c == n * f
    ensures c == f
  {}

  lemma DollarLegs(size: real, price: real, f: real, n: real, c: real, d: real)
    requires 0.0 < size && 0.0 < price && 0.0 < f && n == WholeContracts(size, price) as real && c == n * f && d == n * price
    ensures f <= price ==> NoBetter(Leg(n, d), Leg(n, c))
    ensures f <= price && (size >= price || f <= size) ==> NoBetter(Leg(0.0, size), Leg(n, c))
    ensures size + 1.0 <= price ==> NoBetter(Leg(n, d), Leg(0.0, size))
  {
    DollarsCompare(size, price, f, n, c, d);
  }

  lemma SpoiledDollars(price: Field, f: Field, size: real)
    requires 0.0 < size && RobustFill(Dollars, price, f, size)
    ensures NoBetter(Leg(0.0, size), PriceDollars(price, f, size))
  {
    if MoneyValid(price) && MoneyValid(f) {
      var n := WholeContracts(size, price.v) as real;
      var c := n * f.v;
      DollarLegs(size, price.v, f.v, n, c, n * price.v);
      assert PriceDollars(price, f, size) == Leg(n, c);
    }
  }

  lemma FallenBackDollars(price: Field, f: Field, size: real)
    requires 0.0 < size && RobustFill(Dollars, price, f, size) && MoneyValid(price)
    ensures NoBetter(PriceDollars(price, price, size), PriceDollars(price, f, size))
  {
    var n := WholeContracts(size, price.v) as real;
    var fill := if MoneyValid(f) then f.v else price.v;
    var c, d := n * fill, n * price.v;
    DollarLegs(size, price.v, fill, n, c, d);
    assert PriceDollars(price, price, size) == Leg(n, d);
    assert MoneyValid(f) ==> PriceDollars(price, f, size) == Leg(n, c);
  }

  lemma LostDollars(price: Field, f: Field, size: real, price': Field, f': Field)
    requires 0.0 < size && RobustFill(Dollars, price, f, size) && FillLeft(price, f, f') && Lost(price, price')
    ensures NoBetter(PriceDollars(price', f', size), PriceDollars(price, f, size))
  {
    if price' == price && f' == f {
    } else if MoneyValid(price') && MoneyValid(f') {
      FallenBackDollars(price, f, size);
    } else {
      SpoiledDollars(price, f, size);
    }
  }

  lemma LostStake(price: Field, f: Field, size: real, f': Field)
    requires 0.0 < size && RobustFill(Stake, price, f, size) && FillLeft(price, f, f')
    ensures NoBetter(PriceStake(f', size), PriceStake(f, size))
  {
    var stake := RoundCents(size);
    if MoneyValid(f) {
      ShareOfStake(stake, f.v);
      if MoneyValid(price) && f.v <= price.v { Quotient(stake, f.v, price.v); }
    }
    if MoneyValid(price) { ShareOfStake(stake, price.v); }
  }

  lemma ShareOfStake(stake: real, odds: real)
    requires 0.0 <= stake && 0.0 < odds
    ensures 0.0 <= stake / odds
    ensures stake / odds == 0.0 <==> stake == 0.0
  {
    var q := stake / odds;
    assert q * odds == stake;
  }

  lemma UnknownCost(f: Field, size: real)
    requires 0.0 < size
    ensures PriceUnknown(f, size).cost >= size
    ensures RobustFill(Unknown, Missing, f, size) <==> PriceUnknown(f, size).cost == size
  {
    if MoneyValid(f) { SharesCompare(size, f.v, 1.0, f.v * size, size); }
  }

  lemma LostUnknown(f: Field, size: real, f': Field)
    requires 0.0 < size && RobustFill(Unknown, Missing, f, size)
    ensures NoBetter(PriceUnknown(f', size), PriceUnknown(f, size))
  {
    UnknownCost(f, size);
    UnknownCost(f', size);
  }

  /** Losing a price or a fill of a robust leg, whatever state they are in, never makes it worth more. */
  lemma LostPriceIsNoBetter(venue: Venue, price: Field, fill: Field, size: Field, price': Field, fill': Field)
    requires MoneyValid(size) && Robust(venue, price, fill, size) && Lost(price, price') && Lost(fill, fill')
    ensures NoBetter(PriceLeg(venue, price', fill', size).value, PriceLeg(venue, price, fill, size).value)
  {
    var f, f' := EffectiveFill(price, fill), EffectiveFill(price', fill');
    assert FillLeft(price, f, f');
    match venue
    case Shares => LostShares(price, f, size.v, f');
    case Dollars => LostDollars(price, f, size.v, price', f');
    case Stake => LostStake(price, f, size.v, f');
    case Unknown => LostUnknown(f, size.v, f');
  }

  predicate Gains(before: Leg, erased: Leg, spoiled: Leg) {
    erased.contracts - erased.cost > before.contracts - before.cost || spoiled.cost < before.cost
  }

  lemma FragileDollars(price: Field, f: Field, size: real)
    requires 0.0 < size && !RobustFill(Dollars, price, f, size)
    ensures Gains(PriceDollars(price, f, size), PriceDollars(price, price, size), PriceDollars(price, Garbage, size))
  {
    var n := WholeContracts(size, price.v) as real;
    var fill := if MoneyValid(f) then f.v else price.v;
    DollarsCompare(size, price.v, fill, n, n * fill, n * price.v);
  }

  lemma FragileShares(price: Field, f: Field, size: real)
    requires 0.0 < size && !RobustFill(Shares, price, f, size)
    ensures Gains(PriceShares(f, size), PriceShares(price, size), PriceShares(Garbage, size))
  {
    if !MoneyValid(f) {
      SharesCompare(size, price.v, 2.0, price.v * size, 2.0 * size);
    } else if f.v > 1.0 {
      SharesCompare(size, 1.0, f.v, size, f.v * size);
    } else {
      SharesCompare(size, price.v, f.v, price.v * size, f.v * size);
    }
  }

  lemma FragileStake(price: Field, f: Field, size: real)
    requires 0.0 < size && !RobustFill(Stake, price, f, size)
    ensures Gains(PriceStake(f, size), PriceStake(price, size), PriceStake(Garbage, size))
  {
    var stake := RoundCents(size);
    var back := stake / price.v;
    ShareOfStake(stake, price.v);
    assert PriceStake(price, size) == Leg(back, stake);
    if MoneyValid(f) {
      Quotient(stake, price.v, f.v);
      assert PriceStake(f, size) == Leg(stake / f.v, stake) && stake / f.v < back;
    } else {
      assert PriceStake(f, size) == Leg(0.0, stake) && 0.0 < back;
    }
  }

  lemma FragileUnknown(f: Field, size: real)
    requires 0.0 < size && !RobustFill(Unknown, Missing, f, size)
    ensures PriceUnknown(Garbage, size).cost < PriceUnknown(f, size).cost
  {
    UnknownCost(f, size);
    UnknownCost(Garbage, size);
  }

  /** A leg that is not robust gains from losing its fill one way or another: either erasing it raises
      contracts less cost, or spoiling it lowers the cost of a losing leg. */
  lemma FragileLegGains(venue: Venue, price: Field, fill: Field, size: Field)
    requires !Robust(venue, price, fill, size)
    ensures PriceLeg(venue, price, fill, size).Some?
    ensures PriceLeg(venue, price, Missing, size).Some? && PriceLeg(venue, price, Garbage, size).Some?
    ensures Gains(PriceLeg(venue, price, fill, size).value, PriceLeg(venue, price, Missing, size).value,
                  PriceLeg(venue, price, Garbage, size).value)
  {
    var f := EffectiveFill(price, fill);
    match venue
    case Shares => FragileShares(price, f, size.v);
    case Dollars => FragileDollars(price, f, size.v);
    case Stake => FragileStake(price, f, size.v);
    case Unknown => FragileUnknown(f, size.v);
  }
}
