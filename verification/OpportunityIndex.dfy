/** The index that turns a WebSocket price update into the opportunities it affects. */
module OpportunityIndex {
  import opened Basics
  import opened KeyedIndex
  import opened Numerals
  import opened Sorting

  /** An opportunity's fields, as the index reads them; a missing text field reads as the empty string. */
  datatype Opportunity = Opportunity(
    kind: string,
    eligible: bool,
    netProfit: real,
    market: string,
    action: string,
    tokenIds: seq<string>,
    kalshiTicker: string,
    kalshiTickers: seq<string>,
    betfairMarket: string,
    otherMarketId: string,
    smarketsMarket: string,
    sxHash: string,
    matchbookMarket: string,
    geminiEvent: string,
    ibkrEvent: string,
    platform: string,
    metaculusId: string,
    platformA: string,
    platformB: string)

  // ------------------------------------------------------------- key extraction

  predicate Contains(text: string, part: string) {
    part <= text || (text != "" && Contains(text[1..], part))
  }

  function OneKey(platform: string, ticker: string): seq<Key> {
    if ticker == "" then [] else [Key(platform, ticker)]
  }

  function EachKey(platform: string, tickers: seq<string>): seq<Key> {
    if tickers == [] then []
    else EachKey(platform, tickers[..|tickers| - 1]) + OneKey(platform, tickers[|tickers| - 1])
  }

  /** A one-sided crypto bet is keyed by the token it buys; everything else by all its tokens. */
  function PolymarketKeys(o: Opportunity): seq<Key> {
    if o.kind == "JevCrypto" then
      if o.action == "buy_yes" && |o.tokenIds| > 0 then OneKey("polymarket", o.tokenIds[0])
      else if o.action == "buy_no" && |o.tokenIds| > 1 then OneKey("polymarket", o.tokenIds[1])
      else []
    else EachKey("polymarket", o.tokenIds)
  }

  function BetfairKeys(o: Opportunity): seq<Key> {
    var id := if o.betfairMarket != "" then o.betfairMarket else o.otherMarketId;
    if Contains(Lower(o.kind), "betfair") then OneKey("betfair", id) else []
  }

  function DivergenceKeys(o: Opportunity): seq<Key> {
    if o.kind == "EventDivergence" && o.platform != "" && o.metaculusId != ""
    then [Key(o.platform, "metaculus_" + o.metaculusId)] else []
  }

  function NamedKey(platform: string, ticker: string): seq<Key> {
    if platform == "" then [] else [Key(platform, ticker)]
  }

  /** Keyed by the market label under whatever platform is named, even when the label is empty. */
  function TriangleKeys(o: Opportunity): seq<Key> {
    if o.kind != "TriangularCross" then []
    else NamedKey(o.platformA, o.market) + NamedKey(o.platformB, o.market)
  }

  function ExtractKeys(o: Opportunity): seq<Key> {
    PolymarketKeys(o)
    + OneKey("kalshi", o.kalshiTicker) + EachKey("kalshi", o.kalshiTickers)
    + BetfairKeys(o)
    + OneKey("smarkets", o.smarketsMarket) + OneKey("sxbet", o.sxHash) + OneKey("matchbook", o.matchbookMarket)
    + OneKey("gemini", o.geminiEvent) + OneKey("ibkr", o.ibkrEvent)
    + DivergenceKeys(o) + TriangleKeys(o)
  }

  function KeysIfEligible(o: Opportunity): seq<Key> {
    if o.eligible then ExtractKeys(o) else []
  }

  lemma {:induction false} EachKeyMembers(platform: string, tickers: seq<string>, k: Key)
    ensures k in EachKey(platform, tickers) <==> k.platform == platform && k.ticker != "" && k.ticker in tickers
  {
    if tickers != [] {
      EachKeyMembers(platform, tickers[..|tickers| - 1], k);
      assert tickers == tickers[..|tickers| - 1] + [tickers[|tickers| - 1]];
    }
  }

  predicate Buys(o: Opportunity, token: string) {
    || (o.action == "buy_yes" && |o.tokenIds| > 0 && token == o.tokenIds[0])
    || (o.action == "buy_no" && |o.tokenIds| > 1 && token == o.tokenIds[1])
  }

  /** Which Polymarket updates concern an opportunity: its own tokens, or for a one-sided crypto bet the token
      it buys; and beside these the two kinds keyed by free text. */
  predicate HearsPolymarket(o: Opportunity, t: string) {
    || (t != "" && if o.kind == "JevCrypto" then Buys(o, t) else t in o.tokenIds)
    || (o.kind == "EventDivergence" && o.platform == "polymarket" && o.metaculusId != ""
        && t == "metaculus_" + o.metaculusId)
    || (o.kind == "TriangularCross" && (o.platformA == "polymarket" || o.platformB == "polymarket") && t == o.market)
  }

  lemma OwnTokenKeys(o: Opportunity, t: string)
    ensures Key("polymarket", t) in PolymarketKeys(o) <==>
            t != "" && if o.kind == "JevCrypto" then Buys(o, t) else t in o.tokenIds
  {
    EachKeyMembers("polymarket", o.tokenIds, Key("polymarket", t));
  }

  lemma FreeTextKeys(o: Opportunity, t: string)
    ensures Key("polymarket", t) in DivergenceKeys(o) <==>
            o.kind == "EventDivergence" && o.platform == "polymarket" && o.metaculusId != ""
            && t == "metaculus_" + o.metaculusId
    ensures Key("polymarket", t) in TriangleKeys(o) <==>
            o.kind == "TriangularCross" && (o.platformA == "polymarket" || o.platformB == "polymarket") && t == o.market
  {}

  lemma KeyAmongParts(o: Opportunity, k: Key)
    requires k.platform == "polymarket"
    ensures k in ExtractKeys(o) <==> k in PolymarketKeys(o) || k in DivergenceKeys(o) || k in TriangleKeys(o)
  {
    EachKeyMembers("kalshi", o.kalshiTickers, k);
    assert k !in OneKey("kalshi", o.kalshiTicker) + EachKey("kalshi", o.kalshiTickers) + BetfairKeys(o)
      + OneKey("smarkets", o.smarketsMarket) + OneKey("sxbet", o.sxHash) + OneKey("matchbook", o.matchbookMarket)
      + OneKey("gemini", o.geminiEvent) + OneKey("ibkr", o.ibkrEvent);
  }

  /** An opportunity of any kind is keyed by a Polymarket text if and only if it is one of those. */
  lemma PolymarketKeysExactly(o: Opportunity, t: string)
    ensures Key("polymarket", t) in ExtractKeys(o) <==> HearsPolymarket(o, t)
  {
    KeyAmongParts(o, Key("polymarket", t));
    OwnTokenKeys(o, t);
    FreeTextKeys(o, t);
  }

  /** A Polymarket tick reaches a one-sided crypto bet if and only if it is about the token the bet buys. */
  lemma SideBetHearsOnlyItsToken(o: Opportunity, token: string)
    requires o.kind == "JevCrypto"
    ensures Key("polymarket", token) in ExtractKeys(o) <==> token != "" && Buys(o, token)
  {
    PolymarketKeysExactly(o, token);
  }

  predicate StandsAt(text: string, part: string, i: int) {
    0 <= i && i + |part| <= |text| && text[i..i + |part|] == part
  }

  lemma {:induction false} ContainsExactly(text: string, part: string)
    ensures Contains(text, part) <==> exists i :: StandsAt(text, part, i)
  {
    assert StandsAt(text, part, 0) <==> part <= text;
    if text == "" {
      forall i | StandsAt(text, part, i) ensures part <= text { assert i == 0; }
    } else {
      ContainsExactly(text[1..], part);
      forall i | StandsAt(text[1..], part, i) ensures StandsAt(text, part, i + 1) { StandsLater(text, part, i); }
      forall i | StandsAt(text, part, i) && i > 0 ensures StandsAt(text[1..], part, i - 1) {
        StandsLater(text, part, i - 1);
      }
    }
  }

  lemma StandsLater(text: string, part: string, i: int)
    requires text != "" && i >= 0
    ensures StandsAt(text[1..], part, i) <==> StandsAt(text, part, i + 1)
  {
    if i + |part| <= |text| - 1 {
      assert text[1..][i..i + |part|] == text[i + 1..i + 1 + |part|];
    }
  }

  /** Which updates of a venue concern an opportunity, by the fields that name that venue's markets. */
  predicate Names(o: Opportunity, venue: string, t: string) {
    || (venue == "kalshi" && (t == o.kalshiTicker || t in o.kalshiTickers))
    || (venue == "betfair" && Contains(Lower(o.kind), "betfair")
        && t == if o.betfairMarket == "" then o.otherMarketId else o.betfairMarket)
    || (venue == "smarkets" && t == o.smarketsMarket)
    || (venue == "sxbet" && t == o.sxHash)
    || (venue == "matchbook" && t == o.matchbookMarket)
    || (venue == "gemini" && t == o.geminiEvent)
    || (venue == "ibkr" && t == o.ibkrEvent)
  }

  lemma KeyAmongAll(o: Opportunity, k: Key)
    ensures k in ExtractKeys(o) <==>
            || k in PolymarketKeys(o) || k in OneKey("kalshi", o.kalshiTicker) || k in EachKey("kalshi", o.kalshiTickers)
            || k in BetfairKeys(o) || k in OneKey("smarkets", o.smarketsMarket) || k in OneKey("sxbet", o.sxHash)
            || k in OneKey("matchbook", o.matchbookMarket) || k in OneKey("gemini", o.geminiEvent)
            || k in OneKey("ibkr", o.ibkrEvent) || k in DivergenceKeys(o) || k in TriangleKeys(o)
  {}

  lemma OneKeyMember(platform: string, ticker: string, k: Key)
    ensures k in OneKey(platform, ticker) <==> k.platform == platform && k.ticker == ticker && ticker != ""
  {}

  lemma NamedVenueKeys(o: Opportunity, k: Key)
    ensures k in ExtractKeys(o) <==>
            k in PolymarketKeys(o) || (k.ticker != "" && Names(o, k.platform, k.ticker))
            || k in DivergenceKeys(o) || k in TriangleKeys(o)
  {
    KeyAmongAll(o, k);
    OneKeyMember("kalshi", o.kalshiTicker, k);
    EachKeyMembers("kalshi", o.kalshiTickers, k);
    OneKeyMember("betfair", if o.betfairMarket == "" then o.otherMarketId else o.betfairMarket, k);
    OneKeyMember("smarkets", o.smarketsMarket, k);
    OneKeyMember("sxbet", o.sxHash, k);
    OneKeyMember("matchbook", o.matchbookMarket, k);
    OneKeyMember("gemini", o.geminiEvent, k);
    OneKeyMember("ibkr", o.ibkrEvent, k);
  }

  /** The keys that are free text: a divergence's question and a triangle's label. */
  predicate Labels(o: Opportunity, venue: string, t: string) {
    || (o.kind == "EventDivergence" && venue == o.platform && o.metaculusId != "" && t == "metaculus_" + o.metaculusId)
    || (o.kind == "TriangularCross" && (venue == o.platformA || venue == o.platformB) && t == o.market)
  }

  lemma LabelKeys(o: Opportunity, k: Key)
    ensures k in DivergenceKeys(o) || k in TriangleKeys(o) <==> k.platform != "" && Labels(o, k.platform, k.ticker)
  {}

  lemma TokenKeys(o: Opportunity, k: Key)
    ensures k in PolymarketKeys(o) <==>
            && k.platform == "polymarket" && k.ticker != ""
            && if o.kind == "JevCrypto" then Buys(o, k.ticker) else k.ticker in o.tokenIds
  {
    EachKeyMembers("polymarket", o.tokenIds, k);
  }

  /** Every key of an opportunity and no other: at Polymarket its tokens, or the token a one-sided bet buys; at any
      other venue the market it names there; and the free text of a divergence or a triangle. */
  lemma KeysExactly(o: Opportunity, venue: string, t: string)
    ensures Key(venue, t) in ExtractKeys(o) <==>
            || (t != "" && venue == "polymarket" && if o.kind == "JevCrypto" then Buys(o, t) else t in o.tokenIds)
            || (t != "" && Names(o, venue, t))
            || (venue != "" && Labels(o, venue, t))
  {
    NamedVenueKeys(o, Key(venue, t));
    TokenKeys(o, Key(venue, t));
    LabelKeys(o, Key(venue, t));
  }

  // ------------------------------------------------------------- subscriptions

  datatype Scored = Scored(profit: real, key: Key)

  predicate KeyLe(a: Key, b: Key) {
    if a.platform == b.platform then TextLe(a.ticker, b.ticker) else TextLe(a.platform, b.platform)
  }

  lemma KeyOrder(a: Key, b: Key, c: Key)
    ensures KeyLe(a, b) || KeyLe(b, a)
    ensures KeyLe(a, b) && KeyLe(b, a) ==> a == b
    ensures KeyLe(a, b) && KeyLe(b, c) ==> KeyLe(a, c)
  {
    TextLeTotal(a.platform, b.platform);
    TextLeTotal(a.ticker, b.ticker);
    if KeyLe(a, b) && KeyLe(b, a) {
      if a.platform == b.platform { TextLeAntisym(a.ticker, b.ticker); } else { TextLeAntisym(a.platform, b.platform); }
    }
    if KeyLe(a, b) && KeyLe(b, c) {
      if a.platform == b.platform == c.platform { TextLeTrans(a.ticker, b.ticker, c.ticker); }
      else if a.platform != b.platform && b.platform != c.platform {
        TextLeTrans(a.platform, b.platform, c.platform);
        if a.platform == c.platform { TextLeAntisym(a.platform, b.platform); }
      }
    }
  }

  /** Where a descending sort of (profit, key) pairs puts `a` strictly ahead of `b`. */
  predicate Ahead(a: Scored, b: Scored) {
    a.profit > b.profit || (a.profit == b.profit && !KeyLe(a.key, b.key))
  }

  lemma AheadOrder(a: Scored, b: Scored, c: Scored)
    ensures a.key != b.key ==> (Ahead(a, b) <==> !Ahead(b, a))
    ensures Ahead(a, b) && Ahead(b, c) ==> Ahead(a, c)
  {
    KeyOrder(a.key, b.key, c.key);
    KeyOrder(b.key, a.key, c.key);
    KeyOrder(b.key, c.key, a.key);
    KeyOrder(a.key, c.key, b.key);
    KeyOrder(c.key, a.key, b.key);
  }

  predicate Descending(s: seq<Scored>) {
    forall i, j :: 0 <= i < j < |s| ==> Ahead(s[i], s[j])
  }

  predicate DistinctKeys(s: seq<Scored>) {
    forall i, j :: 0 <= i < j < |s| ==> s[i].key != s[j].key
  }

  /** The descending order itself. */
  predicate AheadOrEqual(a: Scored, b: Scored) {
    a == b || Ahead(a, b)
  }

  lemma DescendingOrder()
    ensures TotalOrder(AheadOrEqual)
  {
    forall x: Scored, y: Scored
      ensures AheadOrEqual(x, y) || AheadOrEqual(y, x)
      ensures AheadOrEqual(x, y) && AheadOrEqual(y, x) ==> x == y
    {
      AheadOrder(x, y, x);
      KeyOrder(x.key, y.key, x.key);
    }
    forall x: Scored, y: Scored, z: Scored | AheadOrEqual(x, y) && AheadOrEqual(y, z) ensures AheadOrEqual(x, z) {
      AheadOrder(x, y, z);
    }
  }

  /** Python's `sort(reverse=True)` of pairs without repetitions. */
  function Ranked(s: seq<Scored>): (r: seq<Scored>)
    ensures forall x :: x in r <==> x in s
  {
    DescendingOrder();
    Sorted((set x | x in s), AheadOrEqual)
  }

  lemma RankedDescends(s: seq<Scored>)
    ensures Descending(Ranked(s))
  {
    DescendingOrder();
    SortedAscends((set x | x in s), AheadOrEqual);
    var r := Ranked(s);
    forall i, j | 0 <= i < j < |r| ensures Ahead(r[i], r[j]) {
      assert r[i] != r[j] && AheadOrEqual(r[i], r[j]);
    }
  }

  function BestProfit(opps: seq<Opportunity>): (m: real)
    requires opps != []
    ensures (exists o :: o in opps && o.netProfit == m) && forall o :: o in opps ==> o.netProfit <= m
  {
    var last := opps[|opps| - 1];
    assert last in opps;
    if |opps| == 1 then last.netProfit
    else
      var m := BestProfit(opps[..|opps| - 1]);
      assert opps == opps[..|opps| - 1] + [last];
      if last.netProfit > m then last.netProfit else m
  }

  predicate NoEmptyList(index: map<Key, seq<Opportunity>>) {
    forall k :: k in index ==> index[k] != []
  }

  function Score(index: map<Key, seq<Opportunity>>, k: Key): Scored
    requires NoEmptyList(index) && k in index
  {
    Scored(BestProfit(index[k]), k)
  }

  function Capacity(limit: int): nat {
    if limit < 0 then 0 else limit
  }

  function Available(index: map<Key, seq<Opportunity>>, platform: string): set<string> {
    set k | k in index && k.platform == platform :: k.ticker
  }

  /** What the subscription of one platform is: as many tokens as fit, the best ones. */
  ghost predicate TopSet(index: map<Key, seq<Opportunity>>, platform: string, limit: int, chosen: set<string>)
    requires NoEmptyList(index)
  {
    && chosen <= Available(index, platform)
    && |chosen| <= Capacity(limit)
    && (chosen == Available(index, platform) || |chosen| == Capacity(limit))
    && forall s, u :: s in chosen && u in Available(index, platform) - chosen ==>
         Ahead(Score(index, Key(platform, s)), Score(index, Key(platform, u)))
  }

  lemma SizeOfTopSet(supply: set<string>, chosen: set<string>, limit: int)
    requires chosen <= supply && |chosen| <= Capacity(limit) && (chosen == supply || |chosen| == Capacity(limit))
    ensures |chosen| == if Capacity(limit) <= |supply| then Capacity(limit) else |supply|
  {
    assert supply == chosen + (supply - chosen);
  }

  /** Its size is the smaller of the limit and the supply, and nothing left out is strictly more profitable, or equally
      profitable and later in text order. */
  lemma TopSetFacts(index: map<Key, seq<Opportunity>>, platform: string, limit: int, chosen: set<string>)
    requires NoEmptyList(index) && TopSet(index, platform, limit, chosen)
    ensures var supply := |Available(index, platform)|;
            |chosen| == if Capacity(limit) <= supply then Capacity(limit) else supply
    ensures forall s, u :: s in chosen && u in Available(index, platform) - chosen ==>
              && BestProfit(index[Key(platform, s)]) >= BestProfit(index[Key(platform, u)])
              && (BestProfit(index[Key(platform, s)]) == BestProfit(index[Key(platform, u)]) ==> !TextLe(s, u))
  {
    SizeOfTopSet(Available(index, platform), chosen, limit);
    forall s, u | s in chosen && u in Available(index, platform) - chosen
      ensures BestProfit(index[Key(platform, s)]) >= BestProfit(index[Key(platform, u)])
      ensures BestProfit(index[Key(platform, s)]) == BestProfit(index[Key(platform, u)]) ==> !TextLe(s, u)
    {
      assert Ahead(Score(index, Key(platform, s)), Score(index, Key(platform, u)));
    }
  }

  /** Ties are broken by key, so the subscription is the only set that qualifies. */
  lemma TopSetIsUnique(index: map<Key, seq<Opportunity>>, platform: string, limit: int, a: set<string>, b: set<string>)
    requires NoEmptyList(index) && TopSet(index, platform, limit, a) && TopSet(index, platform, limit, b)
    ensures a == b
  {
    TopSetFacts(index, platform, limit, a);
    TopSetFacts(index, platform, limit, b);
    if a != b {
      Exchange(a, b);
      Exchange(b, a);
      var s :| s in a && s !in b;
      var t :| t in b && t !in a;
      AheadOrder(Score(index, Key(platform, s)), Score(index, Key(platform, t)), Score(index, Key(platform, s)));
    }
  }

  lemma SubsetOfEqualSize<T>(a: set<T>, b: set<T>)
    requires a <= b && |a| == |b|
    ensures a == b
  {
    var extra := b - a;
    assert b == a + extra;
  }

  lemma Exchange<T>(a: set<T>, b: set<T>)
    requires |a| == |b| && a != b
    ensures exists x :: x in a && x !in b
  {
    if a <= b { SubsetOfEqualSize(a, b); }
  }

  function KeysIn(scored: seq<Scored>): (r: seq<Key>)
    ensures |r| == |scored|
  {
    seq(|scored|, i requires 0 <= i < |scored| => scored[i].key)
  }

  /** The selection loop part-way: earlier tokens are taken before later ones, until the limit. */
  ghost predicate Picked(done: seq<Key>, platform: string, limit: int, chosen: set<string>) {
    && (forall t :: t in chosen ==> Key(platform, t) in done)
    && |chosen| <= Capacity(limit)
    && (|chosen| == Capacity(limit) || forall k :: k in done && k.platform == platform ==> k.ticker in chosen)
    && EarlierFirst(done, platform, chosen)
  }

  predicate EarlierFirst(done: seq<Key>, platform: string, chosen: set<string>) {
    forall i, j :: 0 <= i < j < |done| && done[i].platform == done[j].platform == platform ==>
      (done[j].ticker in chosen ==> done[i].ticker in chosen)
  }

  /** The chosen set after one more key has been offered to it. */
  function Take(chosen: set<string>, k: Key, platform: string, limit: int): set<string> {
    if k.platform == platform && |chosen| < limit then chosen + {k.ticker} else chosen
  }

  lemma PickOne(done: seq<Key>, k: Key, platform: string, limit: int, chosen: set<string>)
    requires k !in done && Picked(done, platform, limit, chosen)
    ensures Picked(done + [k], platform, limit, Take(chosen, k, platform, limit))
  {
    var upto := done + [k];
    if k.platform == platform {
      assert k == Key(platform, k.ticker);
      assert k.ticker !in chosen;
      if |chosen| < limit {
        var after := chosen + {k.ticker};
        forall i, j | 0 <= i < j < |upto| && upto[i].platform == upto[j].platform == platform && upto[j].ticker in after
          ensures upto[i].ticker in after
        {
          assert upto[i] in done;
        }
      }
    }
  }

  ghost predicate Ranks(scored: seq<Scored>, index: map<Key, seq<Opportunity>>)
    requires NoEmptyList(index)
  {
    Descending(scored) && forall x :: x in scored <==> x.key in index && x == Score(index, x.key)
  }

  lemma RankedKeys(index: map<Key, seq<Opportunity>>, scored: seq<Scored>, k: Key)
    requires NoEmptyList(index) && Ranks(scored, index)
    ensures k in KeysIn(scored) <==> k in index
    ensures k in index ==> exists i :: 0 <= i < |scored| && scored[i] == Score(index, k)
  {
    if k in index {
      assert Score(index, k) in scored;
      var i :| 0 <= i < |scored| && scored[i] == Score(index, k);
      assert KeysIn(scored)[i] == k;
    }
    if k in KeysIn(scored) {
      var i :| 0 <= i < |scored| && KeysIn(scored)[i] == k;
      assert scored[i] in scored;
    }
  }

  lemma ChosenIsAhead(index: map<Key, seq<Opportunity>>, scored: seq<Scored>, platform: string, limit: int,
                      chosen: set<string>, s: string, u: string)
    requires NoEmptyList(index) && Ranks(scored, index) && Picked(KeysIn(scored), platform, limit, chosen)
    requires s in chosen && u !in chosen && Key(platform, s) in index && Key(platform, u) in index
    ensures Ahead(Score(index, Key(platform, s)), Score(index, Key(platform, u)))
  {
    RankedKeys(index, scored, Key(platform, s));
    RankedKeys(index, scored, Key(platform, u));
    var i :| 0 <= i < |scored| && scored[i] == Score(index, Key(platform, s));
    var j :| 0 <= j < |scored| && scored[j] == Score(index, Key(platform, u));
    ChosenStandsEarlier(KeysIn(scored), platform, chosen, i, j);
    assert Ahead(scored[i], scored[j]);
  }

  lemma ChosenStandsEarlier(done: seq<Key>, platform: string, chosen: set<string>, i: nat, j: nat)
    requires EarlierFirst(done, platform, chosen) && i < |done| && j < |done|
    requires done[i].platform == done[j].platform == platform && done[i].ticker in chosen && done[j].ticker !in chosen
    ensures i < j
  {}

  lemma PickedAllIsTop(index: map<Key, seq<Opportunity>>, scored: seq<Scored>, platform: string, limit: int,
                       chosen: set<string>)
    requires NoEmptyList(index) && Ranks(scored, index) && Picked(KeysIn(scored), platform, limit, chosen)
    ensures TopSet(index, platform, limit, chosen)
  {
    forall k ensures k in KeysIn(scored) <==> k in index {
      RankedKeys(index, scored, k);
    }
    forall s, u | s in chosen && u in Available(index, platform) - chosen
      ensures Ahead(Score(index, Key(platform, s)), Score(index, Key(platform, u)))
    {
      ChosenIsAhead(index, scored, platform, limit, chosen, s, u);
    }
  }

  lemma DescendingIsDistinct(s: seq<Scored>)
    requires Descending(s)
    requires forall x, y :: x in s && y in s && x.key == y.key ==> x == y
    ensures DistinctOrder(KeysIn(s))
  {
    forall i, j | 0 <= i < j < |s| ensures KeysIn(s)[i] != KeysIn(s)[j] {
      assert s[i] in s && s[j] in s && Ahead(s[i], s[j]);
      KeyOrder(s[i].key, s[i].key, s[i].key);
    }
  }

  /** Collecting one score per key of the index, in whatever order the keys come. */
  method CollectScores(index: map<Key, seq<Opportunity>>) returns (scored: seq<Scored>)
    requires NoEmptyList(index)
    ensures DistinctKeys(scored)
    ensures forall x :: x in scored <==> x.key in index && x == Score(index, x.key)
  {
    scored := [];
    var rest := index.Keys;
    while rest != {}
      invariant rest <= index.Keys && DistinctKeys(scored)
      invariant forall x :: x in scored <==> x.key in index && x.key !in rest && x == Score(index, x.key)
      decreases |rest|
    {
      var k :| k in rest;
      scored := scored + [Score(index, k)];
      rest := rest - {k};
    }
  }

  const POLYMARKET := "polymarket"
  const KALSHI := "kalshi"

  method Place(k: Key, limit: int, one: string, two: string, ones0: set<string>, twos0: set<string>)
    returns (ones: set<string>, twos: set<string>)
    requires one != two
    ensures ones == Take(ones0, k, one, limit) && twos == Take(twos0, k, two, limit)
  {
    ones, twos := ones0, twos0;
    if k.platform == one && |ones| < limit {
      ones := ones + {k.ticker};
    } else if k.platform == two && |twos| < limit {
      twos := twos + {k.ticker};
    }
  }

  predicate DistinctOrder(order: seq<Key>) {
    forall i, j :: 0 <= i < j < |order| ==> order[i] != order[j]
  }

  lemma NextIsNew(order: seq<Key>, i: nat)
    requires DistinctOrder(order) && i < |order|
    ensures order[i] !in order[..i] && order[..i + 1] == order[..i] + [order[i]]
  {}

  lemma PickNext(order: seq<Key>, i: nat, platform: string, limit: int, chosen: set<string>)
    requires DistinctOrder(order) && i < |order| && Picked(order[..i], platform, limit, chosen)
    ensures Picked(order[..i + 1], platform, limit, Take(chosen, order[i], platform, limit))
  {
    NextIsNew(order, i);
    PickOne(order[..i], order[i], platform, limit, chosen);
  }

  /** One pass down the ranking fills the subscriptions of two platforms. */
  method ChooseTokens(order: seq<Key>, limit: int, one: string, two: string) returns (ones: set<string>, twos: set<string>)
    requires DistinctOrder(order) && one != two
    ensures Picked(order, one, limit, ones) && Picked(order, two, limit, twos)
  {
    ones, twos := {}, {};
    for i := 0 to |order|
      invariant Picked(order[..i], one, limit, ones)
      invariant Picked(order[..i], two, limit, twos)
    {
      PickNext(order, i, one, limit, ones);
      PickNext(order, i, two, limit, twos);
      ones, twos := Place(order[i], limit, one, two, ones, twos);
    }
    assert order[..|order|] == order;
  }

  /** A triangular opportunity between Polymarket and another venue, alone in the index and without tokens of
      its own, makes the feed subscribe to its market label as if that were a token. */
  lemma MarketLabelIsSubscribed(index: map<Key, seq<Opportunity>>, o: Opportunity, limit: int, chosen: set<string>)
    requires Indexes(index, [o], KeysIfEligible) && NoEmptyList(index)
    requires o.eligible && o.kind == "TriangularCross" && o.platformA == "polymarket" && o.tokenIds == []
    requires 0 < limit && TopSet(index, "polymarket", limit, chosen)
    ensures chosen == {o.market}
  {
    forall t ensures t in Available(index, "polymarket") <==> t == o.market {
      var k := Key("polymarket", t);
      PolymarketKeysExactly(o, t);
      FoundExactlyUnderItsKeys([o], KeysIfEligible, k, o);
      LoneScan(o, k);
      assert Lookup(index, k) == Scan([o], KeysIfEligible, k);
    }
    assert Available(index, "polymarket") == {o.market};
    TopSetFacts(index, "polymarket", limit, chosen);
    SubsetOfEqualSize(chosen, {o.market});
  }

  lemma LoneScan(o: Opportunity, k: Key)
    ensures Scan([o], KeysIfEligible, k) != [] <==> o in Scan([o], KeysIfEligible, k)
  {
    var found := Scan([o], KeysIfEligible, k);
    if found != [] {
      FoundExactlyUnderItsKeys([o], KeysIfEligible, k, found[0]);
    }
  }

  // --------------------------------------------------------------- the object

  class Index {
    var index: map<Key, seq<Opportunity>>
    /** The list the index was last built from. */
    ghost var built: seq<Opportunity>

    ghost predicate Valid()
      reads this
    {
      Indexes(index, built, KeysIfEligible)
    }

    constructor ()
      ensures Valid() && built == []
    {
      index, built := map[], [];
    }

    method Rebuild(opportunities: seq<Opportunity>)
      modifies this
      ensures Valid() && built == opportunities
    {
      var newIndex: map<Key, seq<Opportunity>> := map[];
      for i := 0 to |opportunities|
        invariant Indexes(newIndex, opportunities[..i], KeysIfEligible)
      {
        var opp := opportunities[i];
        NothingFiledYet(newIndex, opportunities[..i], KeysIfEligible, opp);
        if opp.eligible {
          var keys := ExtractKeys(opp);
          for j := 0 to |keys|
            invariant Filing(newIndex, opportunities[..i], KeysIfEligible, opp, keys[..j])
          {
            FileOne(newIndex, opportunities[..i], KeysIfEligible, opp, keys, j);
            newIndex := File(newIndex, keys[j], opp);
          }
          assert keys[..|keys|] == keys;
        }
        AllFiled(newIndex, opportunities, KeysIfEligible, i);
      }
      assert opportunities[..|opportunities|] == opportunities;
      index, built := newIndex, opportunities;
    }

    method Affected(platform: string, ticker: string) returns (opps: seq<Opportunity>)
      requires Valid()
      ensures opps == Scan(built, KeysIfEligible, Key(platform, ticker))
    {
      opps := Lookup(index, Key(platform, ticker));
    }

    method SubscriptionTokens(limit: int) returns (poly: set<string>, kalshi: set<string>)
      requires Valid()
      ensures TopSet(index, "polymarket", limit, poly) && TopSet(index, "kalshi", limit, kalshi)
    {
      var scored := CollectScores(index);
      RankedDescends(scored);
      scored := Ranked(scored);
      DescendingIsDistinct(scored);
      assert POLYMARKET[0] != KALSHI[0];
      poly, kalshi := ChooseTokens(KeysIn(scored), limit, POLYMARKET, KALSHI);
      PickedAllIsTop(index, scored, POLYMARKET, limit, poly);
      PickedAllIsTop(index, scored, KALSHI, limit, kalshi);
    }
  }
}
