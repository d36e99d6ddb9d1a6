/** Choosing where to buy YES and where to buy NO across venues. */
module FeePath {
  import opened Basics
  import opened Fees
  import W = WorstCase

  /** `estimate_total_fee` for a taker order: entry fee, commission on a win, and gas, as the venue charges them. */
  function EstimateTotalFee(cfg: Config, platform: string, price: real): real {
    if platform == "polymarket" then PolymarketTakerFee(cfg, price) + cfg.gas
    else if platform == "kalshi" then KalshiTakerFee(cfg, price, 1, false)
    else if platform == "gemini" then GeminiFee(cfg, price)
    else if platform == "betfair" then (1.0 - price) * BETFAIR
    else if platform == "smarkets" then (1.0 - price) * SMARKETS
    else 0.0
  }

  type Prices = map<string, real>

  datatype Path = Path(yes: string, no: string, yesPrice: real, noPrice: real, cost: real, fees: real, profit: real)

  predicate Quoted(prices: Prices, platform: string) {
    platform in prices && 0.0 < prices[platform] < 1.0
  }

  /** The path from buying YES here and NO there, when it is admissible and strictly profitable. */
  function Offer(cfg: Config, yes: Prices, no: Prices, a: string, b: string): Option<Path> {
    if !Quoted(yes, a) || a == b || !Quoted(no, b) || yes[a] + no[b] >= 1.0 then None
    else
      var fees := EstimateTotalFee(cfg, a, yes[a]) + EstimateTotalFee(cfg, b, no[b]);
      var profit := 1.0 - (yes[a] + no[b]) - fees;
      if profit <= 0.0 then None else Some(Path(a, b, yes[a], no[b], yes[a] + no[b], fees, profit))
  }

  /** Pair (i, j) of platform positions comes before (k, l) in the order the loops visit them. */
  predicate Before(i: int, j: int, k: int, l: int) {
    i < k || (i == k && j < l)
  }

  type Offers = (string, string) -> Option<Path>

  /** The offer at (i, j) is the choice among the pairs visited before (k, l): none of them beats it, and
      none visited earlier matches it. */
  ghost predicate Chosen(offers: Offers, ps: seq<string>, best: Path, i: int, j: int, k: int, l: int) {
    && 0 <= i < |ps| && 0 <= j < |ps| && Before(i, j, k, l) && offers(ps[i], ps[j]) == Some(best)
    && forall a, b :: 0 <= a < |ps| && 0 <= b < |ps| && Before(a, b, k, l) ==>
         NotBetter(offers(ps[a], ps[b]), best, Before(a, b, i, j))
  }

  predicate NotBetter(o: Option<Path>, best: Path, strictly: bool) {
    o.Some? ==> o.value.profit <= best.profit && (strictly ==> o.value.profit < best.profit)
  }

  ghost predicate BestBefore(offers: Offers, ps: seq<string>, best: Option<Path>, k: int, l: int) {
    match best
    case None => forall i, j :: 0 <= i < |ps| && 0 <= j < |ps| && Before(i, j, k, l) ==> offers(ps[i], ps[j]).None?
    case Some(path) => exists i, j :: Chosen(offers, ps, path, i, j, k, l)
  }

  predicate Improves(offer: Option<Path>, best: Option<Path>) {
    offer.Some? && (best.None? || offer.value.profit > best.value.profit)
  }

  lemma VisitOne(offers: Offers, ps: seq<string>, best: Option<Path>, k: nat, l: nat)
    requires k < |ps| && l < |ps| && BestBefore(offers, ps, best, k, l)
    ensures var offer := offers(ps[k], ps[l]);
            BestBefore(offers, ps, if Improves(offer, best) then offer else best, k, l + 1)
  {
    var offer := offers(ps[k], ps[l]);
    if Improves(offer, best) {
      VisitBetter(offers, ps, best, k, l);
    } else if best.Some? {
      var i, j :| Chosen(offers, ps, best.value, i, j, k, l);
      VisitNoBetter(offers, ps, best.value, i, j, k, l);
    }
  }

  lemma VisitBetter(offers: Offers, ps: seq<string>, best: Option<Path>, k: nat, l: nat)
    requires k < |ps| && l < |ps| && BestBefore(offers, ps, best, k, l) && Improves(offers(ps[k], ps[l]), best)
    ensures Chosen(offers, ps, offers(ps[k], ps[l]).value, k, l, k, l + 1)
  {
    if best.Some? { var i, j :| Chosen(offers, ps, best.value, i, j, k, l); }
  }

  lemma VisitNoBetter(offers: Offers, ps: seq<string>, best: Path, i: int, j: int, k: nat, l: nat)
    requires k < |ps| && l < |ps| && Chosen(offers, ps, best, i, j, k, l) && !Improves(offers(ps[k], ps[l]), Some(best))
    ensures Chosen(offers, ps, best, i, j, k, l + 1)
  {}

  /** A finished row is the start of the next, and a row without offers changes nothing. */
  lemma NextRow(offers: Offers, ps: seq<string>, best: Option<Path>, k: nat, l: nat)
    requires k < |ps| && l <= |ps| && BestBefore(offers, ps, best, k, l)
    requires forall j :: l <= j < |ps| ==> offers(ps[k], ps[j]).None?
    ensures BestBefore(offers, ps, best, k + 1, 0)
  {
    if best.Some? {
      var i, j :| Chosen(offers, ps, best.value, i, j, k, l);
      assert Chosen(offers, ps, best.value, i, j, k + 1, 0);
    }
  }

  function AllOffers(cfg: Config, yes: Prices, no: Prices): Offers {
    (a, b) => Offer(cfg, yes, no, a, b)
  }

  lemma VisitOffer(cfg: Config, ps: seq<string>, yes: Prices, no: Prices, best: Option<Path>, k: nat, l: nat)
    requires k < |ps| && l < |ps| && BestBefore(AllOffers(cfg, yes, no), ps, best, k, l)
    ensures var offer := Offer(cfg, yes, no, ps[k], ps[l]);
            BestBefore(AllOffers(cfg, yes, no), ps, if Improves(offer, best) then offer else best, k, l + 1)
  {
    VisitOne(AllOffers(cfg, yes, no), ps, best, k, l);
  }

  lemma RowWithoutYes(cfg: Config, ps: seq<string>, yes: Prices, no: Prices, best: Option<Path>, k: nat)
    requires k < |ps| && !Quoted(yes, ps[k]) && BestBefore(AllOffers(cfg, yes, no), ps, best, k, 0)
    ensures BestBefore(AllOffers(cfg, yes, no), ps, best, k + 1, 0)
  {
    NextRow(AllOffers(cfg, yes, no), ps, best, k, 0);
  }

  lemma NothingFound(cfg: Config, ps: seq<string>, yes: Prices, no: Prices)
    requires BestBefore(AllOffers(cfg, yes, no), ps, None, |ps|, 0)
    ensures forall i, j :: 0 <= i < |ps| && 0 <= j < |ps| ==> Offer(cfg, yes, no, ps[i], ps[j]).None?
  {
    forall i, j | 0 <= i < |ps| && 0 <= j < |ps| ensures Offer(cfg, yes, no, ps[i], ps[j]).None? {
      assert Before(i, j, |ps|, 0);
      assert AllOffers(cfg, yes, no)(ps[i], ps[j]).None?;
    }
  }

  /** The inner loop: every platform to buy NO on, for one platform to buy YES on. */
  method SearchRow(cfg: Config, platforms: seq<string>, yes: Prices, no: Prices, k: nat, best0: Option<Path>)
    returns (best: Option<Path>)
    requires k < |platforms| && Quoted(yes, platforms[k])
    requires BestBefore(AllOffers(cfg, yes, no), platforms, best0, k, 0)
    ensures BestBefore(AllOffers(cfg, yes, no), platforms, best, k + 1, 0)
  {
    best := best0;
    for l := 0 to |platforms|
      invariant BestBefore(AllOffers(cfg, yes, no), platforms, best, k, l)
    {
      VisitOffer(cfg, platforms, yes, no, best, k, l);
      if platforms[l] != platforms[k] && Quoted(no, platforms[l]) {
        best := Better(cfg, yes, no, platforms[k], platforms[l], best);
      }
    }
    NextRow(AllOffers(cfg, yes, no), platforms, best, k, |platforms|);
  }

  /** The nested loop returns the first most profitable admissible path, and nothing exactly when there is none. */
  method FindLowestFeePath(cfg: Config, platforms: seq<string>, yes: Prices, no: Prices) returns (best: Option<Path>)
    ensures var n := |platforms|;
            match best
            case None => forall i, j :: 0 <= i < n && 0 <= j < n ==> Offer(cfg, yes, no, platforms[i], platforms[j]).None?
            case Some(path) => exists i, j :: Chosen(AllOffers(cfg, yes, no), platforms, path, i, j, n, 0)
  {
    best := None;
    for k := 0 to |platforms|
      invariant BestBefore(AllOffers(cfg, yes, no), platforms, best, k, 0)
    {
      if Quoted(yes, platforms[k]) {
        best := SearchRow(cfg, platforms, yes, no, k, best);
      } else {
        RowWithoutYes(cfg, platforms, yes, no, best, k);
      }
    }
    if best.None? { NothingFound(cfg, platforms, yes, no); }
  }

  /** The body of the inner loop once both prices are usable. */
  method Better(cfg: Config, yes: Prices, no: Prices, a: string, b: string, best: Option<Path>) returns (next: Option<Path>)
    requires Quoted(yes, a) && a != b && Quoted(no, b)
    ensures var offer := Offer(cfg, yes, no, a, b);
            next == if Improves(offer, best) then offer else best
  {
    var cost := yes[a] + no[b];
    if cost >= 1.0 { return best; }
    var fees := EstimateTotalFee(cfg, a, yes[a]) + EstimateTotalFee(cfg, b, no[b]);
    var profit := 1.0 - cost - fees;
    if profit <= 0.0 { return best; }
    if best.None? || profit > best.value.profit {
      return Some(Path(a, b, yes[a], no[b], cost, fees, profit));
    }
    next := best;
  }

  // -------------------------------------------------------- what a path is worth

  lemma FeeParts(cfg: Config, platform: string, price: real)
    requires 0.0 < price < 1.0
    ensures WinFee(price, platform) >= 0.0
    ensures EstimateTotalFee(cfg, platform, price)
         == EntryFee(cfg, price, platform) + WinFee(price, platform) + if platform == "polymarket" then cfg.gas else 0.0
  {
    if platform == "betfair" { MulNonNegative(1.0 - price, BETFAIR); }
    if platform == "smarkets" { MulNonNegative(1.0 - price, SMARKETS); }
  }

  /** A path charges the winner's commission on both legs, so what it promises is paid whichever leg wins. */
  lemma PathProfitIsPaidEitherWay(cfg: Config, yes: Prices, no: Prices, a: string, b: string, yesWins: bool)
    requires Offer(cfg, yes, no, a, b).Some?
    ensures Offer(cfg, yes, no, a, b).value.profit <= W.CrossOutcome(cfg, yes[a], no[b], a, b, yesWins)
  {
    FeeParts(cfg, a, yes[a]);
    FeeParts(cfg, b, no[b]);
  }

  /** What both venues charge on a path: each entry fee, each commission, and gas for a Polymarket leg. */
  function PathFees(cfg: Config, a: string, yes: real, b: string, no: real): real {
    EntryFee(cfg, yes, a) + WinFee(yes, a) + EntryFee(cfg, no, b) + WinFee(no, b)
      + (if a == "polymarket" || b == "polymarket" then cfg.gas else 0.0)
  }

  /** A path is on offer between two venues, quoted between zero and a dollar, exactly when something is left of the
      dollar after both prices, and after everything both venues charge. */
  lemma OfferedExactlyWhen(cfg: Config, yes: Prices, no: Prices, a: string, b: string)
    ensures Offer(cfg, yes, no, a, b).Some? <==>
            && a != b && a in yes && b in no && 0.0 < yes[a] < 1.0 && 0.0 < no[b] < 1.0
            && yes[a] + no[b] < 1.0 && yes[a] + no[b] + PathFees(cfg, a, yes[a], b, no[b]) < 1.0
    ensures Offer(cfg, yes, no, a, b).Some? ==>
              Offer(cfg, yes, no, a, b).value
              == Path(a, b, yes[a], no[b], yes[a] + no[b], PathFees(cfg, a, yes[a], b, no[b]),
                      1.0 - (yes[a] + no[b]) - PathFees(cfg, a, yes[a], b, no[b]))
  {
    if Quoted(yes, a) { FeeParts(cfg, a, yes[a]); }
    if Quoted(no, b) { FeeParts(cfg, b, no[b]); }
  }

  // -------------------------------------------- when the cheapest path is found

  ghost predicate Priced(offers: Offers) {
    forall a: string, b: string :: offers(a, b).Some? ==>
      offers(a, b).value.profit == 1.0 - (offers(a, b).value.cost + offers(a, b).value.fees)
  }

  /** Whether the offer at (a, b), if there is one, costs no less than `o` in fees, and no less with its prices
      added; strictly more where (a, b) is visited earlier. */
  predicate NoDearer(o: Path, other: Option<Path>, earlier: bool) {
    other.Some? ==>
      && o.fees <= other.value.fees
      && o.cost + o.fees <= other.value.cost + other.value.fees
      && (earlier ==> o.cost + o.fees < other.value.cost + other.value.fees)
  }

  /** The offer at (i, j) attains at once the least fees of all and, first in visiting order, the least outlay. */
  ghost predicate CheapestBothWays(offers: Offers, ps: seq<string>, i: int, j: int) {
    && 0 <= i < |ps| && 0 <= j < |ps| && offers(ps[i], ps[j]).Some?
    && forall a, b :: 0 <= a < |ps| && 0 <= b < |ps| ==>
         NoDearer(offers(ps[i], ps[j]).value, offers(ps[a], ps[b]), Before(a, b, i, j))
  }

  ghost predicate LeastFees(offers: Offers, ps: seq<string>, best: Path) {
    forall a, b :: 0 <= a < |ps| && 0 <= b < |ps| && offers(ps[a], ps[b]).Some? ==>
      best.fees <= offers(ps[a], ps[b]).value.fees
  }

  /** The documented promise, "the lowest fees", holds for the path returned if and only if some admissible pair
      has both the least fees and, first in visiting order, the least total outlay. */
  lemma LowestFeesExactlyWhen(offers: Offers, ps: seq<string>, best: Path, k: int, l: int)
    requires Priced(offers) && Chosen(offers, ps, best, k, l, |ps|, 0)
    ensures LeastFees(offers, ps, best) <==> exists i, j :: CheapestBothWays(offers, ps, i, j)
  {
    if LeastFees(offers, ps, best) {
      ChosenIsCheapest(offers, ps, best, k, l);
    }
    if i, j :| CheapestBothWays(offers, ps, i, j) {
      CheapestIsChosen(offers, ps, best, k, l, i, j);
    }
  }

  lemma ChosenIsCheapest(offers: Offers, ps: seq<string>, best: Path, k: int, l: int)
    requires Priced(offers) && Chosen(offers, ps, best, k, l, |ps|, 0) && LeastFees(offers, ps, best)
    ensures CheapestBothWays(offers, ps, k, l)
  {
    forall a, b | 0 <= a < |ps| && 0 <= b < |ps|
      ensures NoDearer(best, offers(ps[a], ps[b]), Before(a, b, k, l))
    {
      assert NotBetter(offers(ps[a], ps[b]), best, Before(a, b, k, l));
    }
  }

  lemma CheapestIsChosen(offers: Offers, ps: seq<string>, best: Path, k: int, l: int, i: int, j: int)
    requires Priced(offers) && Chosen(offers, ps, best, k, l, |ps|, 0) && CheapestBothWays(offers, ps, i, j)
    ensures i == k && j == l && LeastFees(offers, ps, best)
  {
    var path := offers(ps[i], ps[j]).value;
    assert NotBetter(offers(ps[i], ps[j]), best, Before(i, j, k, l));
    assert NoDearer(path, offers(ps[k], ps[l]), Before(k, l, i, j));
    assert i == k && j == l;
    forall a, b | 0 <= a < |ps| && 0 <= b < |ps| && offers(ps[a], ps[b]).Some?
      ensures best.fees <= offers(ps[a], ps[b]).value.fees
    {
      assert NoDearer(path, offers(ps[a], ps[b]), Before(a, b, i, j));
    }
  }

  lemma OffersArePriced(cfg: Config, yes: Prices, no: Prices)
    ensures Priced(AllOffers(cfg, yes, no))
  {}

  /** For the search itself, by what it promises about the path it returns. */
  lemma SearchFindsLowestFeesExactlyWhen(cfg: Config, ps: seq<string>, yes: Prices, no: Prices, best: Path)
    requires exists k, l :: Chosen(AllOffers(cfg, yes, no), ps, best, k, l, |ps|, 0)
    ensures LeastFees(AllOffers(cfg, yes, no), ps, best) <==>
            exists i, j :: CheapestBothWays(AllOffers(cfg, yes, no), ps, i, j)
  {
    var k, l :| Chosen(AllOffers(cfg, yes, no), ps, best, k, l, |ps|, 0);
    OffersArePriced(cfg, yes, no);
    LowestFeesExactlyWhen(AllOffers(cfg, yes, no), ps, best, k, l);
  }

  /** For example: whatever path the search returns from these quotes, it is the dearer Smarkets one, not the
      free IBKR one. */
  lemma CheapestPathIsNotChosen(cfg: Config, best: Path, i: int, j: int)
    requires Chosen(AllOffers(cfg, map["ibkr" := 0.50, "smarkets" := 0.30], map["sxbet" := 0.45]),
                    ["ibkr", "smarkets", "sxbet"], best, i, j, 3, 0)
    ensures best.yes == "smarkets" && best.fees > 0.0
    ensures Offer(cfg, map["ibkr" := 0.50, "smarkets" := 0.30], map["sxbet" := 0.45], "ibkr", "sxbet").Some?
    ensures Offer(cfg, map["ibkr" := 0.50, "smarkets" := 0.30], map["sxbet" := 0.45], "ibkr", "sxbet").value.fees == 0.0
  {
    var yes: Prices := map["ibkr" := 0.50, "smarkets" := 0.30];
    var no: Prices := map["sxbet" := 0.45];
    var ps, offers := ["ibkr", "smarkets", "sxbet"], AllOffers(cfg, yes, no);
    assert offers(ps[1], ps[2]) == Offer(cfg, yes, no, "smarkets", "sxbet");
    assert NotBetter(offers(ps[1], ps[2]), best, Before(1, 2, i, j));
    assert offers(ps[i], ps[j]) == Offer(cfg, yes, no, ps[i], ps[j]);
  }
}
