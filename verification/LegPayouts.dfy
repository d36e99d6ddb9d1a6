/** What a recorded leg holds, costs and pays, in terms of the recorded fields. */
module LegPayouts {
  import opened Basics
  import opened LegPricing
  import opened Settlement

  // ------------------------------------------------------------ amounts, by venue

  /** The size executed, where one was recorded, or else the size requested. */
  function SizeOf(t: Trade): Field {
    if t.executedSize.Num? && t.executedSize.v > 0.0 then t.executedSize else t.size
  }

  /** The price paid, where one was recorded, or else the price ordered at. */
  function PaidAt(t: Trade): Field {
    if t.fill == Missing then t.price else t.fill
  }

  predicate Usable(f: Field) {
    f.Num? && 0.0 < f.v
  }

  /** Whole contracts for a dollar amount: as many as it buys, and one at least. */
  lemma ContractsForDollars(size: real, price: real)
    requires 0.0 < size && 0.0 < price
    ensures var n := WholeContracts(size, price) as real;
            1.0 <= n && (n * price <= size || n == 1.0) && size < (n + 1.0) * price
  {
    var q, n := size / price, WholeContracts(size, price) as real;
    assert q * price == size && q < n + 1.0;
    SharesCompare(price, q, n + 1.0, size, (n + 1.0) * price);
    if n <= q { SharesCompare(price, n, q, n * price, size); }
  }

  predicate DollarVenue(p: string) {
    p == "kalshi" || p == "smarkets" || p == "sxbet" || p == "gemini" || p == "ibkr"
  }

  predicate StakeVenue(p: string) {
    p == "betfair" || p == "matchbook"
  }

  lemma VenueByName(platform: string)
    ensures VenueOf(platform) == var p := Lower(platform);
            if p == "polymarket" then Shares else if DollarVenue(p) then Dollars else if StakeVenue(p) then Stake else Unknown
  {}

  /** What a usable size at usable prices holds and costs: shares; whole contracts for dollars; a stake in cents; and at
      a venue not known nothing, for the most it can have cost. */
  predicate Buys(v: Venue, leg: Leg, price: real, paid: real, size: real) {
    match v
    case Shares => leg.contracts == size && leg.cost == paid * size
    case Dollars =>
      && 1.0 <= leg.contracts == leg.contracts.Floor as real && leg.cost == leg.contracts * paid
      && (leg.contracts * price <= size || leg.contracts == 1.0) && size < (leg.contracts + 1.0) * price
    case Stake => leg.cost == RoundCents(size) && leg.contracts * paid == leg.cost
    case Unknown => leg.contracts == 0.0 && leg.cost == if paid > 1.0 then paid * size else size
  }

  lemma SharesBuy(price: real, f: Field, size: real)
    requires Usable(f)
    ensures Buys(Shares, PriceShares(f, size), price, f.v, size)
  {}

  lemma DollarsBuy(price: Field, f: Field, size: real)
    requires 0.0 < size && Usable(price) && Usable(f)
    ensures Buys(Dollars, PriceDollars(price, f, size), price.v, f.v, size)
  {
    ContractsForDollars(size, price.v);
  }

  lemma StakeBuys(price: real, f: Field, size: real)
    requires 0.0 < size && Usable(f)
    ensures Buys(Stake, PriceStake(f, size), price, f.v, size)
  {}

  lemma UnknownBuys(price: real, f: Field, size: real)
    requires 0.0 < size && Usable(f)
    ensures Buys(Unknown, PriceUnknown(f, size), price, f.v, size)
  {
    SharesCompare(size, 1.0, f.v, size, f.v * size);
  }

  lemma LegBuys(v: Venue, price: Field, fill: Field, size: Field)
    requires Usable(price) && Usable(size) && Usable(if fill == Missing then price else fill)
    ensures PriceLeg(v, price, fill, size).Some?
    ensures Buys(v, PriceLeg(v, price, fill, size).value, price.v, (if fill == Missing then price else fill).v, size.v)
  {
    var f := if fill == Missing then price else fill;
    match v
    case Shares => SharesBuy(price.v, f, size.v);
    case Dollars => DollarsBuy(price, f, size.v);
    case Stake => StakeBuys(price.v, f, size.v);
    case Unknown => UnknownBuys(price.v, f, size.v);
  }

  /** A leg whose numbers are all usable buys what its venue sells for them. */
  lemma PricedByVenue(t: Trade)
    requires Usable(SizeOf(t)) && Usable(t.price) && Usable(PaidAt(t))
    ensures QuoteOf(t).leg.Some?
    ensures Buys(VenueOf(t.platform), QuoteOf(t).leg.value, t.price.v, PaidAt(t).v, SizeOf(t).v)
  {
    LegBuys(VenueOf(t.platform), t.price, t.fill, SizeOf(t));
  }

  /** A leg without a price it needs holds nothing and has cost the most its venue allows; one without a size has no
      price at all. */
  lemma WorstByVenue(t: Trade)
    requires !Usable(PaidAt(t)) || (VenueOf(t.platform) == Dollars && !Usable(t.price))
    ensures var leg := QuoteOf(t).leg;
            (leg.Some? <==> Usable(SizeOf(t)))
            && (leg.Some? ==>
                leg.value.contracts == 0.0
                && leg.value.cost == if Lower(t.platform) == "betfair" || Lower(t.platform) == "matchbook"
                                     then RoundCents(SizeOf(t).v) else SizeOf(t).v)
  {}

  lemma NearestWhole(y: real, n: int)
    ensures -0.5 < y - n as real < 0.5 ==> y.Floor == if y >= n as real then n else n - 1
    ensures y == n as real + 0.5 ==> y.Floor == n
  {}

  /** Rounding to cents: the nearest whole number of them, and of two equally near the even one. */
  lemma RoundsToTheNearestCent(x: real, y: real, cents: int)
    requires y == x * 100.0
    ensures -0.5 < y - cents as real < 0.5 ==> RoundCents(x) == cents as real / 100.0
    ensures y == cents as real + 0.5 ==> RoundCents(x) == (if cents % 2 == 0 then cents else cents + 1) as real / 100.0
  {
    NearestWhole(y, cents);
  }

  // -------------------------------------------------------------- sides, by venue

  /** A winner named yes, or no, is matched by its aliases; any other by its own name alone; case never matters. */
  lemma AliasesOfTheWinner(side: string, winner: string)
    ensures LegWon(side, winner) <==>
            var s := Lower(side);
            match Lower(winner)
            case "yes" => s == "yes" || s == "y" || s == "buy" || s == "back"
            case "no" => s == "no" || s == "n" || s == "sell" || s == "lay"
            case w => s != "" && s == w
  {}

  /** So no side wins for both. */
  lemma NeverBothWays(side: string)
    ensures !(LegWon(side, "yes") && LegWon(side, "no"))
  {
    var s := Lower(side);
    assert Lower("yes") == "yes" && Lower("no") == "no";
    AliasesOfTheWinner(side, "yes");
    AliasesOfTheWinner(side, "no");
    assert "yes"[0] == 'y' && "y"[0] == 'y' && "buy"[0] == 'b' && "back"[0] == 'b';
    assert "no"[0] == 'n' && "n"[0] == 'n' && "sell"[0] == 's' && "lay"[0] == 'l';
  }

  /** A Polymarket leg settles on the outcome bought, whatever its execution side; any other venue's on its side; either
      on its side if there is nothing else. */
  lemma SettlesOn(t: Trade)
    ensures Lower(t.platform) == "polymarket" && t.outcome != "" ==> QuoteOf(t).side == t.outcome
    ensures Lower(t.platform) != "polymarket" || t.outcome == "" ==> QuoteOf(t).side == t.side
  {}

  /** Whether a leg is on this side of its question. */
  predicate IsOn(t: Trade, side: string) {
    var held := if Lower(t.platform) == "polymarket" && t.outcome != "" then t.outcome else t.side;
    match side
    case "yes" => Lower(held) == "yes" || Lower(held) == "y" || Lower(held) == "buy" || Lower(held) == "back"
    case "no" => Lower(held) == "no" || Lower(held) == "n" || Lower(held) == "sell" || Lower(held) == "lay"
    case _ => false
  }

  lemma IsOnWins(t: Trade)
    ensures IsOn(t, "yes") <==> LegWon(QuoteOf(t).side, "yes")
    ensures IsOn(t, "no") <==> LegWon(QuoteOf(t).side, "no")
  {
    SettlesOn(t);
    assert Lower("yes") == "yes" && Lower("no") == "no";
    AliasesOfTheWinner(QuoteOf(t).side, "yes");
    AliasesOfTheWinner(QuoteOf(t).side, "no");
  }

  lemma SettleTwo(a: Trade, b: Trade, expected: Field, winner: string)
    requires QuoteOf(a).leg.Some? && QuoteOf(b).leg.Some?
    ensures Settle(Quotes([a, b]), expected, Some(winner))
         == (if LegWon(QuoteOf(a).side, winner) then QuoteOf(a).leg.value.contracts else 0.0)
            + (if LegWon(QuoteOf(b).side, winner) then QuoteOf(b).leg.value.contracts else 0.0)
            - QuoteOf(a).leg.value.cost - QuoteOf(b).leg.value.cost
  {
    var qs := Quotes([a, b]);
    assert qs == [QuoteOf(a), QuoteOf(b)] && qs[..1] == [QuoteOf(a)] && qs[..1][..0] == [];
    assert KnownCost(qs[..1]) == QuoteOf(a).leg.value.cost;
    assert Payout(qs[..1], winner) == if LegWon(QuoteOf(a).side, winner) then QuoteOf(a).leg.value.contracts else 0.0;
  }

  /** A yes leg and a no leg, at any venues: exactly one pays, the one the question resolved for, and both are paid for. */
  lemma HedgedPairPaysOnce(yes: Trade, no: Trade, expected: Field)
    requires QuoteOf(yes).leg.Some? && QuoteOf(no).leg.Some? && IsOn(yes, "yes") && IsOn(no, "no")
    ensures var (y, n) := (QuoteOf(yes).leg.value, QuoteOf(no).leg.value);
            && Settle(Quotes([yes, no]), expected, Some("yes")) == y.contracts - y.cost - n.cost
            && Settle(Quotes([yes, no]), expected, Some("no")) == n.contracts - y.cost - n.cost
  {
    IsOnWins(yes);
    IsOnWins(no);
    NeverBothWays(QuoteOf(yes).side);
    NeverBothWays(QuoteOf(no).side);
    SettleTwo(yes, no, expected, "yes");
    SettleTwo(yes, no, expected, "no");
  }

  lemma OutcomeIsHeld(t: Trade, side: string)
    requires Lower(t.platform) == "polymarket" && Lower(t.outcome) == side && (side == "yes" || side == "no")
    ensures IsOn(t, side)
  {
    assert t.outcome != "";
  }

  /** In particular Polymarket shares of both outcomes, logged with whatever sides. */
  lemma BothOutcomesPayOnce(yes: Trade, no: Trade, expected: Field)
    requires Lower(yes.platform) == Lower(no.platform) == "polymarket"
    requires Lower(yes.outcome) == "yes" && Lower(no.outcome) == "no"
    requires Usable(SizeOf(yes)) && Usable(yes.price) && Usable(PaidAt(yes))
    requires Usable(SizeOf(no)) && Usable(no.price) && Usable(PaidAt(no))
    ensures var cost := PaidAt(yes).v * SizeOf(yes).v + PaidAt(no).v * SizeOf(no).v;
            && Settle(Quotes([yes, no]), expected, Some("yes")) == SizeOf(yes).v - cost
            && Settle(Quotes([yes, no]), expected, Some("no")) == SizeOf(no).v - cost
  {
    VenueByName(yes.platform);
    VenueByName(no.platform);
    PricedByVenue(yes);
    PricedByVenue(no);
    OutcomeIsHeld(yes, "yes");
    OutcomeIsHeld(no, "no");
    HedgedPairPaysOnce(yes, no, expected);
  }

  // ------------------------------------------------------------- which legs count

  lemma {:induction false} OnlyFilledLegsCount(ts: seq<Trade>, t: Trade)
    ensures t in FilledOnly(ts) <==> t in ts && Lower(t.status) == "filled"
  {
    if ts != [] {
      OnlyFilledLegsCount(ts[..|ts| - 1], t);
      assert ts == ts[..|ts| - 1] + [ts[|ts| - 1]];
    }
  }

  /** Without a single confirmed fill the stored expectation is reported, and only then. */
  lemma ExpectationExactlyWhenNothingFilled(ts: seq<Trade>, expected: Field, winner: Option<string>)
    ensures RealizedPnl(ts, expected, winner).Expectation? <==> forall t :: t in ts ==> Lower(t.status) != "filled"
    ensures RealizedPnl(ts, expected, winner).Expectation? ==> RealizedPnl(ts, expected, winner).expected == expected
  {
    forall t ensures t in FilledOnly(ts) <==> t in ts && Lower(t.status) == "filled" { OnlyFilledLegsCount(ts, t); }
    if FilledOnly(ts) != [] { assert FilledOnly(ts)[0] in FilledOnly(ts); }
  }
}
