/** The persistent index of matched Polymarket/Kalshi pairs and its cache-driven evaluation. */
module CrossPairs {
  import opened Basics
  import opened Fees
  import opened KeyedIndex

  /** One result of the title matcher, reduced to what the index reads. */
  datatype Match = Match(
    hasPoly: bool,
    hasKalshi: bool,
    inWindow: bool,
    tokens: seq<string>,
    kalshiTickers: seq<string>,
    title: string,
    inverted: bool)

  datatype CrossPair = CrossPair(tokenYes: string, tokenNo: string, ticker: string, title: string, inverted: bool)

  /** The pair a match becomes, if it survives every filter; the event's first Kalshi market is the one used. */
  function PairOf(m: Match): Option<CrossPair> {
    if !m.hasPoly || !m.hasKalshi || !m.inWindow then None
    else if |m.tokens| < 2 || m.kalshiTickers == [] || m.kalshiTickers[0] == "" then None
    else Some(CrossPair(m.tokens[0], m.tokens[1], m.kalshiTickers[0], m.title, m.inverted))
  }

  function PairsOf(matched: seq<Match>): seq<CrossPair> {
    if matched == [] then []
    else
      var p := PairOf(matched[|matched| - 1]);
      PairsOf(matched[..|matched| - 1]) + if p.Some? then [p.value] else []
  }

  function PairKeys(p: CrossPair): seq<Key> {
    [Key("polymarket", p.tokenYes), Key("polymarket", p.tokenNo), Key("kalshi", p.ticker)]
  }

  /** Which pairs the index holds: those of the matches that have both sides, inside their window, with two Polymarket
      tokens at least and a ticker for the event's first Kalshi market; bought as its first token for yes and its second
      for no. */
  lemma {:induction false} PairsComeFromMatches(matched: seq<Match>, p: CrossPair)
    ensures p in PairsOf(matched) <==>
            exists m :: m in matched && Becomes(m, p)
  {
    if matched != [] {
      var init, last := matched[..|matched| - 1], matched[|matched| - 1];
      PairsComeFromMatches(init, p);
      assert matched == init + [last];
      assert PairOf(last) == Some(p) <==> Becomes(last, p);
    }
  }

  predicate Becomes(m: Match, p: CrossPair) {
    && m.hasPoly && m.hasKalshi && m.inWindow && 2 <= |m.tokens| && 1 <= |m.kalshiTickers| && m.kalshiTickers[0] != ""
    && p.tokenYes == m.tokens[0] && p.tokenNo == m.tokens[1] && p.ticker == m.kalshiTickers[0]
    && p.title == m.title && p.inverted == m.inverted
  }

  class PairIndex {
    var index: map<Key, seq<CrossPair>>
    var pairs: seq<CrossPair>
    var lastRebuild: real

    ghost predicate Valid()
      reads this
    {
      Indexes(index, pairs, PairKeys)
    }

    constructor ()
      ensures Valid() && pairs == []
    {
      index, pairs, lastRebuild := map[], [], 0.0;
    }

    /** `comparable` says that there was something on both sides to match. */
    method Rebuild(comparable: bool, matched: seq<Match>, now: real) returns (count: nat)
      modifies this
      ensures Valid() && pairs == (if comparable then PairsOf(matched) else [])
      ensures count == |pairs| && lastRebuild == now
    {
      var newPairs: seq<CrossPair> := [];
      var newIndex: map<Key, seq<CrossPair>> := map[];
      if comparable {
        for i := 0 to |matched|
          invariant newPairs == PairsOf(matched[..i]) && Indexes(newIndex, newPairs, PairKeys)
        {
          assert matched[..i + 1][..i] == matched[..i];
          var p := PairOf(matched[i]);
          if p.Some? {
            newIndex := FilePair(newIndex, newPairs, p.value);
            newPairs := newPairs + [p.value];
          }
        }
        assert matched[..|matched|] == matched;
      }
      index, pairs, lastRebuild := newIndex, newPairs, now;
      count := |newPairs|;
    }

    method Touching(platform: string, ticker: string) returns (found: seq<CrossPair>)
      requires Valid()
      ensures found == Scan(pairs, PairKeys, Key(platform, ticker))
    {
      found := Lookup(index, Key(platform, ticker));
    }
  }

  /** The three appends made for one pair; a pair whose two tokens coincide is filed twice under that token. */
  method FilePair(index: map<Key, seq<CrossPair>>, pairs: seq<CrossPair>, p: CrossPair)
    returns (filed: map<Key, seq<CrossPair>>)
    requires Indexes(index, pairs, PairKeys)
    ensures Indexes(filed, pairs + [p], PairKeys)
  {
    FileAllExtends(index, pairs, PairKeys, p);
    FilingThree(index, p);
    filed := File(index, Key("polymarket", p.tokenYes), p);
    filed := File(filed, Key("polymarket", p.tokenNo), p);
    filed := File(filed, Key("kalshi", p.ticker), p);
  }

  lemma FilingThree(index: map<Key, seq<CrossPair>>, p: CrossPair)
    ensures var first := File(index, Key("polymarket", p.tokenYes), p);
            var second := File(first, Key("polymarket", p.tokenNo), p);
            FileAll(index, PairKeys(p), p) == File(second, Key("kalshi", p.ticker), p)
  {
    var keys := PairKeys(p);
    assert keys[..2][..1][..0] == [] && keys[..2][..1][0] == keys[0] && keys[..2][1] == keys[1];
    assert FileAll(index, keys[..2][..1], p) == File(index, keys[0], p);
    assert FileAll(index, keys[..2], p) == File(File(index, keys[0], p), keys[1], p);
  }

  // ------------------------------------------------------------ cached prices

  /** A cached value after an attempt to read it as a finite number. */
  datatype Scalar = Number(x: real) | Unreadable

  /** A price message; a missing timestamp reads as zero. */
  datatype Entry = Entry(fields: map<string, Scalar>, stamp: real)

  function AsProbability(s: Scalar): Option<real> {
    if s.Number? && 0.0 <= s.x <= 1.0 then Some(s.x) else None
  }

  /** The first of the named fields that reads as a probability. */
  function FirstProbability(fields: map<string, Scalar>, names: seq<string>): Option<real> {
    if names == [] then None
    else if names[0] in fields && AsProbability(fields[names[0]]).Some? then AsProbability(fields[names[0]])
    else FirstProbability(fields, names[1..])
  }

  /** Missing timestamps never go stale. */
  predicate Fresh(e: Entry, now: real, maxAge: real) {
    e.stamp == 0.0 || now - e.stamp <= maxAge
  }

  function ReadCached(cache: map<Key, Entry>, k: Key, now: real, maxAge: real): Option<Entry> {
    if k in cache && Fresh(cache[k], now, maxAge) then Some(cache[k]) else None
  }

  function PolyAsk(cache: map<Key, Entry>, token: string, now: real, maxAge: real): Option<real> {
    var e := ReadCached(cache, Key("polymarket", token), now, maxAge);
    if e.None? then None else FirstProbability(e.value.fields, ["best_ask", "ask", "price"])
  }

  function KalshiAsk(cache: map<Key, Entry>, ticker: string, yes: bool, now: real, maxAge: real): Option<real> {
    var e := ReadCached(cache, Key("kalshi", ticker), now, maxAge);
    if e.None? then None
    else FirstProbability(e.value.fields,
           if yes then ["yes_ask", "yes_price", "yes", "price"] else ["no_ask", "no_price", "no"])
  }

  /** A field read as a probability, if it is one. */
  function ReadAs(e: Entry, name: string): Option<real> {
    if name in e.fields && e.fields[name].Number? && 0.0 <= e.fields[name].x <= 1.0 then Some(e.fields[name].x) else None
  }

  function OrElse(first: Option<real>, second: Option<real>): Option<real> {
    if first.Some? then first else second
  }

  lemma FirstOf(e: Entry, name: string, rest: seq<string>)
    ensures FirstProbability(e.fields, [name] + rest) == OrElse(ReadAs(e, name), FirstProbability(e.fields, rest))
  {
    assert ([name] + rest)[1..] == rest;
  }

  /** A price that is there and not stale; one without a time never is. */
  predicate Current(cache: map<Key, Entry>, k: Key, now: real, maxAge: real) {
    k in cache && (cache[k].stamp != 0.0 ==> now - cache[k].stamp <= maxAge)
  }

  /** What is paid for a Polymarket token: the best ask of a current price, or the ask, or the price, whichever is the
      first to read as a probability. */
  lemma PolyAskExactly(cache: map<Key, Entry>, token: string, now: real, maxAge: real)
    ensures var k := Key("polymarket", token);
            PolyAsk(cache, token, now, maxAge) ==
            if !Current(cache, k, now, maxAge) then None
            else OrElse(ReadAs(cache[k], "best_ask"), OrElse(ReadAs(cache[k], "ask"), ReadAs(cache[k], "price")))
  {
    var k := Key("polymarket", token);
    if k in cache {
      FirstOf(cache[k], "price", []);
      FirstOf(cache[k], "ask", ["price"]);
      FirstOf(cache[k], "best_ask", ["ask", "price"]);
      assert ["best_ask"] + ["ask", "price"] == ["best_ask", "ask", "price"] && ["ask"] + ["price"] == ["ask", "price"];
      assert ["price"] + [] == ["price"];
    }
  }

  /** For Kalshi's no: the ask, or its price under either name. */
  lemma KalshiNoExactly(cache: map<Key, Entry>, ticker: string, now: real, maxAge: real)
    ensures var k := Key("kalshi", ticker);
            KalshiAsk(cache, ticker, false, now, maxAge) ==
            if !Current(cache, k, now, maxAge) then None
            else OrElse(ReadAs(cache[k], "no_ask"), OrElse(ReadAs(cache[k], "no_price"), ReadAs(cache[k], "no")))
  {
    var k := Key("kalshi", ticker);
    if k in cache {
      FirstOf(cache[k], "no", []);
      FirstOf(cache[k], "no_price", ["no"]);
      FirstOf(cache[k], "no_ask", ["no_price", "no"]);
      assert ["no_ask"] + ["no_price", "no"] == ["no_ask", "no_price", "no"] && ["no_price"] + ["no"] == ["no_price", "no"];
      assert ["no"] + [] == ["no"];
    }
  }

  /** And for its yes the same, or last of all the bare price. */
  lemma KalshiYesExactly(cache: map<Key, Entry>, ticker: string, now: real, maxAge: real)
    ensures var k := Key("kalshi", ticker);
            KalshiAsk(cache, ticker, true, now, maxAge) ==
            if !Current(cache, k, now, maxAge) then None
            else OrElse(ReadAs(cache[k], "yes_ask"),
                        OrElse(ReadAs(cache[k], "yes_price"), OrElse(ReadAs(cache[k], "yes"), ReadAs(cache[k], "price"))))
  {
    var k := Key("kalshi", ticker);
    if k in cache {
      FirstOf(cache[k], "price", []);
      FirstOf(cache[k], "yes", ["price"]);
      FirstOf(cache[k], "yes_price", ["yes", "price"]);
      FirstOf(cache[k], "yes_ask", ["yes_price", "yes", "price"]);
      assert ["yes_ask"] + ["yes_price", "yes", "price"] == ["yes_ask", "yes_price", "yes", "price"];
      assert ["yes_price"] + ["yes", "price"] == ["yes_price", "yes", "price"] && ["yes"] + ["price"] == ["yes", "price"];
      assert ["price"] + [] == ["price"];
    }
  }

  // -------------------------------------------------------------- evaluation

  function NetCrossPlatform(cfg: Config, poly: real, kalshi: real): Net {
    Charged(1.0 - (poly + kalshi), PolymarketTakerFee(cfg, poly) + KalshiTakerFee(cfg, kalshi, 1, false) + cfg.gas)
  }

  /** Which side of the Polymarket question is bought; Kalshi supplies the opposite side. */
  datatype Found = Found(polyYes: bool, cost: real, profit: real)

  function Evaluate(cfg: Config, p: CrossPair, cache: map<Key, Entry>, minProfit: real, now: real, maxAge: real)
    : Option<Found>
  {
    var pmYes, pmNo := PolyAsk(cache, p.tokenYes, now, maxAge), PolyAsk(cache, p.tokenNo, now, maxAge);
    var rawYes, rawNo := KalshiAsk(cache, p.ticker, true, now, maxAge), KalshiAsk(cache, p.ticker, false, now, maxAge);
    if pmYes.None? || pmNo.None? || rawYes.None? || rawNo.None? then None
    else
      var kYes := if p.inverted then rawNo.value else rawYes.value;
      var kNo := if p.inverted then rawYes.value else rawNo.value;
      var one := NetCrossPlatform(cfg, pmYes.value, kNo);
      var two := NetCrossPlatform(cfg, pmNo.value, kYes);
      var best := if one.profit > two.profit then one else two;
      if best.profit < minProfit then None
      else if one.profit > two.profit then Some(Found(true, pmYes.value + kNo, one.profit))
      else Some(Found(false, pmNo.value + kYes, two.profit))
  }

  /** What holding one Polymarket side and one raw Kalshi side returns when the Polymarket question
      resolves `yes`, after both asks, both entry fees and the gas.  An inverted pair resolves oppositely. */
  function Realised(cfg: Config, polyAsk: real, kalshiAsk: real, polyYes: bool, kalshiYes: bool, inverted: bool, yes: bool)
    : real
  {
    var polyPays := if polyYes == yes then 1.0 else 0.0;
    var kalshiPays := if kalshiYes == (yes != inverted) then 1.0 else 0.0;
    polyPays + kalshiPays - polyAsk - kalshiAsk
      - PolymarketTakerFee(cfg, polyAsk) - KalshiTakerFee(cfg, kalshiAsk, 1, false) - cfg.gas
  }

  /** Buying the found direction at the cached asks earns the same however the question resolves, for aligned
      and inverted pairs alike: the reported profit below a dollar of cost, which any positive minimum
      guarantees, and less than reported by exactly the fees at or above a dollar, where none are charged. */
  lemma FoundProfitIsPaidEitherWay(cfg: Config, p: CrossPair, cache: map<Key, Entry>, minProfit: real, now: real,
                                   maxAge: real, yes: bool)
    requires Evaluate(cfg, p, cache, minProfit, now, maxAge).Some?
    ensures var f := Evaluate(cfg, p, cache, minProfit, now, maxAge).value;
            var kalshiYes := f.polyYes == p.inverted;
            var poly := PolyAsk(cache, if f.polyYes then p.tokenYes else p.tokenNo, now, maxAge);
            var kalshi := KalshiAsk(cache, p.ticker, kalshiYes, now, maxAge);
            && poly.Some? && kalshi.Some? && f.cost == poly.value + kalshi.value
            && minProfit <= f.profit && (0.0 < minProfit ==> f.cost < 1.0)
            && var fees := PolymarketTakerFee(cfg, poly.value) + KalshiTakerFee(cfg, kalshi.value, 1, false) + cfg.gas;
               Realised(cfg, poly.value, kalshi.value, f.polyYes, kalshiYes, p.inverted, yes)
               == if f.cost < 1.0 then f.profit else f.profit - fees
  {}

  /** Buying the given Polymarket side against the opposite Kalshi side is fully priced and clears the bar. */
  predicate Clears(cfg: Config, p: CrossPair, cache: map<Key, Entry>, minProfit: real, now: real, maxAge: real,
                   polyYes: bool)
  {
    var poly := PolyAsk(cache, if polyYes then p.tokenYes else p.tokenNo, now, maxAge);
    var kalshi := KalshiAsk(cache, p.ticker, polyYes == p.inverted, now, maxAge);
    poly.Some? && kalshi.Some? && NetCrossPlatform(cfg, poly.value, kalshi.value).profit >= minProfit
  }

  predicate FullyPriced(p: CrossPair, cache: map<Key, Entry>, now: real, maxAge: real) {
    && PolyAsk(cache, p.tokenYes, now, maxAge).Some? && PolyAsk(cache, p.tokenNo, now, maxAge).Some?
    && KalshiAsk(cache, p.ticker, true, now, maxAge).Some? && KalshiAsk(cache, p.ticker, false, now, maxAge).Some?
  }

  /** A pair is found exactly when all four asks are known and one of the two directions clears the bar, and
      the direction reported is one that clears it with the larger profit: of two equal ones, Polymarket's no. */
  lemma FoundExactlyWhenADirectionClears(cfg: Config, p: CrossPair, cache: map<Key, Entry>, minProfit: real,
                                         now: real, maxAge: real)
    ensures var found := Evaluate(cfg, p, cache, minProfit, now, maxAge);
            && (found.Some? <==>
                  && FullyPriced(p, cache, now, maxAge)
                  && (Clears(cfg, p, cache, minProfit, now, maxAge, true)
                      || Clears(cfg, p, cache, minProfit, now, maxAge, false)))
            && (found.Some? ==> Clears(cfg, p, cache, found.value.profit, now, maxAge, found.value.polyYes))
            && (forall bar: real, side: bool :: found.Some? && Clears(cfg, p, cache, bar, now, maxAge, side) ==>
                  bar <= found.value.profit)
            && (found.Some? && found.value.polyYes ==>
                  !Clears(cfg, p, cache, found.value.profit, now, maxAge, false))
  {}

  /** No opportunity is built on a stale price. */
  lemma FoundPricesAreFresh(cfg: Config, p: CrossPair, cache: map<Key, Entry>, minProfit: real, now: real,
                            maxAge: real, k: Key)
    requires Evaluate(cfg, p, cache, minProfit, now, maxAge).Some? && k in PairKeys(p)
    ensures Current(cache, k, now, maxAge)
  {}
}
