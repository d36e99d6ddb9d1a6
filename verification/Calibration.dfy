/** Platform calibration: the record table, the weight cache with its string keys, and the consensus. */
module Calibration {
  import opened Basics

  datatype Row = Row(platform: string, category: string, market: string, prediction: real, outcome: int, time: real)

  // ------------------------------------------------------------ Brier scores

  /** Rows are unique by platform and market: a new resolution replaces the old one. */
  function Without(rows: seq<Row>, platform: string, market: string): seq<Row> {
    if rows == [] then []
    else
      var r := rows[|rows| - 1];
      Without(rows[..|rows| - 1], platform, market)
        + if r.platform == platform && r.market == market then [] else [r]
  }

  function Store(rows: seq<Row>, r: Row): seq<Row> {
    Without(rows, r.platform, r.market) + [r]
  }

  /** A missing or empty category asks for every category. */
  predicate Wanted(r: Row, platform: string, category: Option<string>, cutoff: real) {
    && r.platform == platform && r.time > cutoff
    && (category.Some? && category.value != "" ==> r.category == category.value)
  }

  function Matching(rows: seq<Row>, platform: string, category: Option<string>, cutoff: real): seq<Row> {
    if rows == [] then []
    else
      var r := rows[|rows| - 1];
      Matching(rows[..|rows| - 1], platform, category, cutoff)
        + if Wanted(r, platform, category, cutoff) then [r] else []
  }

  function SquaredErrors(rows: seq<Row>): real {
    if rows == [] then 0.0
    else
      var r := rows[|rows| - 1];
      var error := r.prediction - r.outcome as real;
      SquaredErrors(rows[..|rows| - 1]) + error * error
  }

  const LOOKBACK := 365.0 * 86400.0
  const LIFETIME := 3600.0

  function Brier(rows: seq<Row>, platform: string, category: Option<string>, now: real): Option<real> {
    var sample := Matching(rows, platform, category, now - LOOKBACK);
    if |sample| < 10 then None else Some(SquaredErrors(sample) / |sample| as real)
  }

  function Multiplier(brier: real): (m: real)
    ensures 0.5 <= m <= 2.0
  {
    if brier < 0.10 then 2.0 else if brier < 0.15 then 1.5 else if brier < 0.20 then 1.2
    else if brier < 0.25 then 1.0 else if brier < 0.30 then 0.8 else 0.5
  }

  /** The row is about the platform and category asked for, and less than 365 days old. */
  predicate Counts(r: Row, platform: string, category: Option<string>, now: real) {
    && r.platform == platform && now - r.time < 31536000.0
    && (category == None || category == Some("") || category == Some(r.category))
  }

  function Tally(rows: seq<Row>, platform: string, category: Option<string>, now: real): nat {
    if rows == [] then 0
    else (if Counts(rows[0], platform, category, now) then 1 else 0) + Tally(rows[1..], platform, category, now)
  }

  function Square(x: real): real {
    x * x
  }

  function ErrorTotal(rows: seq<Row>, platform: string, category: Option<string>, now: real): real {
    if rows == [] then 0.0
    else (if Counts(rows[0], platform, category, now) then Square(rows[0].outcome as real - rows[0].prediction) else 0.0)
         + ErrorTotal(rows[1..], platform, category, now)
  }

  lemma SquareOfOpposite(x: real, y: real)
    ensures (x - y) * (x - y) == Square(y - x)
  {}

  lemma {:induction false} TallyOneMore(rows: seq<Row>, r: Row, p: string, c: Option<string>, now: real)
    ensures Tally(rows + [r], p, c, now) == Tally(rows, p, c, now) + if Counts(r, p, c, now) then 1 else 0
    ensures ErrorTotal(rows + [r], p, c, now) == ErrorTotal(rows, p, c, now)
            + if Counts(r, p, c, now) then Square(r.outcome as real - r.prediction) else 0.0
  {
    if rows == [] {
      assert rows + [r] == [r] && [r][1..] == [];
    } else {
      TallyOneMore(rows[1..], r, p, c, now);
      assert (rows + [r])[0] == rows[0] && (rows + [r])[1..] == rows[1..] + [r];
    }
  }

  lemma {:induction false} SampleTallies(rows: seq<Row>, p: string, c: Option<string>, now: real)
    ensures |Matching(rows, p, c, now - LOOKBACK)| == Tally(rows, p, c, now)
    ensures SquaredErrors(Matching(rows, p, c, now - LOOKBACK)) == ErrorTotal(rows, p, c, now)
  {
    if rows != [] {
      var init, r := rows[..|rows| - 1], rows[|rows| - 1];
      SampleTallies(init, p, c, now);
      TallyOneMore(init, r, p, c, now);
      assert rows == init + [r];
      WantedIsCounted(r, p, c, now);
      SampleOneMore(Matching(init, p, c, now - LOOKBACK), r);
    }
  }

  lemma WantedIsCounted(r: Row, p: string, c: Option<string>, now: real)
    ensures Wanted(r, p, c, now - LOOKBACK) <==> Counts(r, p, c, now)
  {}

  lemma SampleOneMore(sample: seq<Row>, r: Row)
    ensures sample + [] == sample
    ensures SquaredErrors(sample + [r]) == SquaredErrors(sample) + Square(r.outcome as real - r.prediction)
  {
    assert (sample + [r])[..|sample|] == sample;
    SquareOfOpposite(r.prediction, r.outcome as real);
  }

  /** A platform is scored once ten of its records of the last 365 days fall under the question. */
  lemma ScoredExactlyWhen(rows: seq<Row>, p: string, c: Option<string>, now: real)
    ensures Brier(rows, p, c, now).Some? <==> Tally(rows, p, c, now) >= 10
  {
    SampleTallies(rows, p, c, now);
  }

  /** Its score is then the mean of their squared errors. */
  lemma ScoreIsTheMeanSquaredError(rows: seq<Row>, p: string, c: Option<string>, now: real, score: real, n: real, total: real)
    requires Brier(rows, p, c, now) == Some(score)
    requires n == Tally(rows, p, c, now) as real && total == ErrorTotal(rows, p, c, now)
    ensures score * n == total
  {
    SampleTallies(rows, p, c, now);
    QuotientTimes(total, n, score);
  }

  lemma QuotientTimes(x: real, y: real, q: real)
    requires y > 0.0 && q == x / y
    ensures q * y == x
  {}

  lemma BelowMeansBelow(score: real, n: real, total: real, bound: real)
    requires n > 0.0 && score * n == total
    ensures score < bound <==> total < bound * n
  {
    if score < bound { Grows(score, bound, n); }
    if bound < score { Grows(bound, score, n); }
  }

  lemma Grows(x: real, y: real, n: real)
    requires x < y && n > 0.0
    ensures x * n < y * n
  {
    var d := y - x;
    assert d * n > 0.0;
    assert d * n == y * n - x * n;
  }

  /** Which multiplier a scored platform gets, by its total squared error `total` over `n` records. */
  predicate StepOf(m: real, total: real, n: real) {
    || (m == 2.0 && total < 0.10 * n)
    || (m == 1.5 && 0.10 * n <= total < 0.15 * n)
    || (m == 1.2 && 0.15 * n <= total < 0.20 * n)
    || (m == 1.0 && 0.20 * n <= total < 0.25 * n)
    || (m == 0.8 && 0.25 * n <= total < 0.30 * n)
    || (m == 0.5 && 0.30 * n <= total)
  }

  lemma MultiplierOfTheTotal(rows: seq<Row>, p: string, c: Option<string>, now: real, score: real)
    requires Brier(rows, p, c, now) == Some(score)
    ensures StepOf(Multiplier(score), ErrorTotal(rows, p, c, now), Tally(rows, p, c, now) as real)
  {
    ScoredExactlyWhen(rows, p, c, now);
    var n, total := Tally(rows, p, c, now) as real, ErrorTotal(rows, p, c, now);
    ScoreIsTheMeanSquaredError(rows, p, c, now, score, n, total);
    StepOfScore(score, n, total);
  }

  lemma StepOfScore(score: real, n: real, total: real)
    requires n > 0.0 && score * n == total
    ensures StepOf(Multiplier(score), total, n)
  {
    BelowMeansBelow(score, n, total, 0.10);
    BelowMeansBelow(score, n, total, 0.15);
    BelowMeansBelow(score, n, total, 0.20);
    BelowMeansBelow(score, n, total, 0.25);
    BelowMeansBelow(score, n, total, 0.30);
  }

  /** A better score never weighs less. */
  lemma BetterScoreNeverWeighsLess(better: real, worse: real)
    requires better <= worse
    ensures Multiplier(better) >= Multiplier(worse)
  {}

  lemma {:induction false} WithoutKeepsOthers(rows: seq<Row>, platform: string, market: string, p: string,
                                              c: Option<string>, cutoff: real)
    requires p != platform
    ensures Matching(Without(rows, platform, market), p, c, cutoff) == Matching(rows, p, c, cutoff)
  {
    if rows != [] {
      var init, r := rows[..|rows| - 1], rows[|rows| - 1];
      WithoutKeepsOthers(init, platform, market, p, c, cutoff);
      MatchingOneMore(Without(init, platform, market), r, p, c, cutoff);
      assert Without(init, platform, market) + [] == Without(init, platform, market);
      assert Matching(init, p, c, cutoff) + [] == Matching(init, p, c, cutoff);
    }
  }

  lemma MatchingOneMore(rows: seq<Row>, r: Row, p: string, c: Option<string>, cutoff: real)
    ensures Matching(rows + [r], p, c, cutoff)
         == Matching(rows, p, c, cutoff) + if Wanted(r, p, c, cutoff) then [r] else []
  {
    assert (rows + [r])[..|rows|] == rows;
  }

  lemma StoreKeepsOthers(rows: seq<Row>, r: Row, p: string, c: Option<string>, now: real)
    requires p != r.platform
    ensures Brier(Store(rows, r), p, c, now) == Brier(rows, p, c, now)
  {
    var cutoff := now - LOOKBACK;
    WithoutKeepsOthers(rows, r.platform, r.market, p, c, cutoff);
    MatchingOneMore(Without(rows, r.platform, r.market), r, p, c, cutoff);
    assert Matching(rows, p, c, cutoff) + [] == Matching(rows, p, c, cutoff);
  }

  // ------------------------------------------------------------- the weight cache

  datatype Entry = Entry(weight: real, expires: real)

  datatype State = State(rows: seq<Row>, cache: map<string, Entry>)

  datatype Op = Record(row: Row) | Ask(platform: string, category: Option<string>, base: real, now: real)

  function CategoryText(c: Option<string>): string {
    if c.Some? && c.value != "" then c.value else "all"
  }

  function CacheKey(platform: string, category: Option<string>): string {
    platform + (":" + CategoryText(category))
  }

  predicate StartsWith(text: string, prefix: string) {
    prefix <= text
  }

  function RecordRow(s: State, r: Row): State {
    State(Store(s.rows, r), map k | k in s.cache && !StartsWith(k, r.platform + ":") :: s.cache[k])
  }

  /** `get_weight_multiplier`: a live cache entry is served as it is; otherwise recompute, and remember
      the result when there is enough data. */
  function AskWeight(s: State, platform: string, category: Option<string>, base: real, now: real): (State, real) {
    var key := CacheKey(platform, category);
    if key in s.cache && now < s.cache[key].expires then (s, s.cache[key].weight)
    else
      var brier := Brier(s.rows, platform, category, now);
      if brier.None? then (s, base)
      else
        var weight := base * Multiplier(brier.value);
        (s.(cache := s.cache[key := Entry(weight, now + LIFETIME)]), weight)
  }

  /** A resolution drops the remembered weights of its own platform and no others. */
  lemma DroppedExactly(s: State, r: Row, p: string, c: Option<string>)
    requires ':' !in p && ':' !in r.platform
    ensures var (before, after) := (s.cache, RecordRow(s, r).cache);
            && (CacheKey(p, c) in after <==> CacheKey(p, c) in before && p != r.platform)
            && (CacheKey(p, c) in after ==> after[CacheKey(p, c)] == before[CacheKey(p, c)])
  {
    var key := CacheKey(p, c);
    if StartsWith(key, r.platform + ":") {
      assert key == r.platform + (":" + key[|r.platform| + 1..]);
      FirstColonSplits(p, CategoryText(c), r.platform, key[|r.platform| + 1..]);
    } else {
      assert StartsWith(CacheKey(p, c), p + ":");
    }
  }

  function Step(s: State, op: Op): State {
    match op
    case Record(row) => RecordRow(s, row)
    case Ask(platform, category, base, now) => AskWeight(s, platform, category, base, now).0
  }

  function After(ops: seq<Op>): State {
    if ops == [] then State([], map[]) else Step(After(ops[..|ops| - 1]), ops[|ops| - 1])
  }

  predicate Resolves(op: Op, platform: string, market: string) {
    op.Record? && op.row.platform == platform && op.row.market == market
  }

  /** The `i`-th operation is the last to resolve this row's market on its platform. */
  predicate LastWord(ops: seq<Op>, x: Row, i: int) {
    && 0 <= i < |ops| && ops[i] == Record(x)
    && forall j :: i < j < |ops| ==> !Resolves(ops[j], x.platform, x.market)
  }

  lemma {:induction false} WithoutExactly(rows: seq<Row>, platform: string, market: string, x: Row)
    ensures x in Without(rows, platform, market) <==> x in rows && !(x.platform == platform && x.market == market)
  {
    if rows != [] {
      WithoutExactly(rows[..|rows| - 1], platform, market, x);
      assert rows == rows[..|rows| - 1] + [rows[|rows| - 1]];
    }
  }

  lemma LastWordOneMore(init: seq<Op>, op: Op, x: Row, i: int)
    ensures LastWord(init + [op], x, i) <==>
            (i == |init| && op == Record(x)) || (LastWord(init, x, i) && !Resolves(op, x.platform, x.market))
  {
    var ops := init + [op];
    if 0 <= i < |init| {
      assert ops[|init|] == op && ops[i] == init[i];
      if LastWord(init, x, i) && !Resolves(op, x.platform, x.market) {
        forall j | i < j < |ops| ensures !Resolves(ops[j], x.platform, x.market) {
          assert j < |init| ==> ops[j] == init[j];
        }
      }
      if LastWord(ops, x, i) {
        forall j | i < j < |init| ensures !Resolves(init[j], x.platform, x.market) { assert ops[j] == init[j]; }
      }
    }
  }

  /** Over every run the table holds exactly the rows that were the last word on their platform and market. */
  lemma {:induction false} TableHoldsTheLastWord(ops: seq<Op>, x: Row)
    ensures x in After(ops).rows <==> exists i :: LastWord(ops, x, i)
  {
    if ops != [] {
      var init, op := ops[..|ops| - 1], ops[|ops| - 1];
      TableHoldsTheLastWord(init, x);
      assert ops == init + [op];
      StepExactly(After(init), op, x);
      LastWordOneMore(init, op, x, |init|);
      forall i ensures LastWord(ops, x, i) <==>
                       (i == |init| && op == Record(x)) || (LastWord(init, x, i) && !Resolves(op, x.platform, x.market)) {
        LastWordOneMore(init, op, x, i);
      }
    }
  }

  predicate SameMarket(a: Row, b: Row) {
    a.platform == b.platform && a.market == b.market
  }

  predicate OncePerMarket(rows: seq<Row>) {
    forall i, j :: 0 <= i < j < |rows| ==> !SameMarket(rows[i], rows[j])
  }

  lemma {:induction false} WithoutKeepsOnce(rows: seq<Row>, platform: string, market: string)
    requires OncePerMarket(rows)
    ensures OncePerMarket(Without(rows, platform, market))
  {
    if rows != [] {
      var init, r := rows[..|rows| - 1], rows[|rows| - 1];
      WithoutKeepsOnce(init, platform, market);
      forall i | 0 <= i < |Without(init, platform, market)| ensures !SameMarket(Without(init, platform, market)[i], r) {
        WithoutExactly(init, platform, market, Without(init, platform, market)[i]);
      }
    }
  }

  /** And no market of a platform twice. */
  lemma {:induction false} TableHoldsEachMarketOnce(ops: seq<Op>)
    ensures OncePerMarket(After(ops).rows)
  {
    if ops != [] {
      var init, op := ops[..|ops| - 1], ops[|ops| - 1];
      TableHoldsEachMarketOnce(init);
      if op.Record? {
        var rows, r := After(init).rows, op.row;
        WithoutKeepsOnce(rows, r.platform, r.market);
        forall i | 0 <= i < |Without(rows, r.platform, r.market)|
          ensures !SameMarket(Without(rows, r.platform, r.market)[i], r)
        {
          WithoutExactly(rows, r.platform, r.market, Without(rows, r.platform, r.market)[i]);
        }
      }
    }
  }

  lemma StepExactly(s: State, op: Op, x: Row)
    ensures x in Step(s, op).rows <==> op == Record(x) || (x in s.rows && !Resolves(op, x.platform, x.market))
  {
    if op.Record? { WithoutExactly(s.rows, op.row.platform, op.row.market, x); }
  }

  // --------------------------------------------------------------------- keys

  lemma FirstColonSplits(p: string, s: string, q: string, t: string)
    requires ':' !in p && ':' !in q && p + (":" + s) == q + (":" + t)
    ensures p == q && s == t
  {
    var whole := p + (":" + s);
    assert whole[|p|] == ':' && whole[|q|] == ':';
    assert forall i :: 0 <= i < |p| ==> whole[i] == p[i];
    assert forall i :: 0 <= i < |q| ==> whole[i] == q[i];
    assert p == whole[..|p|] && q == whole[..|q|];
    assert s == whole[|p| + 1..] && t == whole[|q| + 1..];
  }

  /** For platform names without a colon, equal keys mean one platform and one category text. */
  lemma KeysAgreeExactly(p: string, c: Option<string>, q: string, d: Option<string>)
    requires ':' !in p && ':' !in q
    ensures CacheKey(p, c) == CacheKey(q, d) <==> p == q && CategoryText(c) == CategoryText(d)
  {
    if CacheKey(p, c) == CacheKey(q, d) { FirstColonSplits(p, CategoryText(c), q, CategoryText(d)); }
  }

  predicate NoCategory(c: Option<string>) {
    c.None? || c.value == ""
  }

  /** The two questions ask for the same rows, whatever the table holds. */
  ghost predicate SameRows(p: string, c: Option<string>, q: string, d: Option<string>) {
    forall r: Row, cutoff: real :: Wanted(r, p, c, cutoff) <==> Wanted(r, q, d, cutoff)
  }

  /** The only way two questions share a cache entry and yet want different rows: one platform, asked once
      without a category and once for the category named `all`. */
  lemma SharedButDifferentExactlyWhen(p: string, c: Option<string>, q: string, d: Option<string>)
    requires ':' !in p && ':' !in q
    ensures CacheKey(p, c) == CacheKey(q, d) && !SameRows(p, c, q, d) <==>
            p == q && ((NoCategory(c) && d == Some("all")) || (NoCategory(d) && c == Some("all")))
  {
    KeysAgreeExactly(p, c, q, d);
    var other := Row(p, "", "", 0.0, 0, 1.0);
    if p == q && NoCategory(c) && d == Some("all") {
      assert Wanted(other, p, c, 0.0) && !Wanted(other, q, d, 0.0);
    }
    if p == q && NoCategory(d) && c == Some("all") {
      assert !Wanted(other, p, c, 0.0) && Wanted(other, q, d, 0.0);
    }
  }

  lemma {:induction false} SameWantedSameRows(rows: seq<Row>, p: string, c: Option<string>, d: Option<string>, cutoff: real)
    requires SameRows(p, c, p, d)
    ensures Matching(rows, p, c, cutoff) == Matching(rows, p, d, cutoff)
  {
    if rows != [] { SameWantedSameRows(rows[..|rows| - 1], p, c, d, cutoff); }
  }

  // ---------------------------------------------------------------- invariant

  /** Which questions were put: a cache key, a base weight and a time. */
  type Questions = (string, real, real) -> bool

  predicate RecomputedAt(rows: seq<Row>, p: string, c: Option<string>, base: real, weight: real, t: real) {
    Brier(rows, p, c, t).Some? && weight == base * Multiplier(Brier(rows, p, c, t).value)
  }

  /** Some question under this key, put at that time, is answered by the weight from these records. */
  ghost predicate Answers(rows: seq<Row>, p: string, c: Option<string>, asked: Questions, weight: real, t: real) {
    exists base :: asked(CacheKey(p, c), base, t) && RecomputedAt(rows, p, c, base, weight, t)
  }

  /** The entry answers, over `rows`, a question under its key at the time it was stored, no later than `now`. */
  ghost predicate Justified(rows: seq<Row>, p: string, c: Option<string>, asked: Questions, e: Entry, now: real) {
    e.expires - LIFETIME <= now && Answers(rows, p, c, asked, e.weight, e.expires - LIFETIME)
  }

  /** Questions that cannot be confused, given for which platforms `all` names a category. */
  predicate Clear(named: string -> bool, p: string, c: Option<string>) {
    ':' !in p && (c == Some("all") ==> named(p)) && (NoCategory(c) ==> !named(p))
  }

  lemma ClearKeysAreInjective(named: string -> bool, p: string, c: Option<string>, q: string, d: Option<string>)
    requires Clear(named, p, c) && Clear(named, q, d) && CacheKey(p, c) == CacheKey(q, d)
    ensures p == q && SameRows(p, c, q, d)
  {
    KeysAgreeExactly(p, c, q, d);
    SharedButDifferentExactlyWhen(p, c, q, d);
  }

  ghost predicate Inv(s: State, named: string -> bool, asked: Questions, now: real) {
    forall p, c :: Clear(named, p, c) && CacheKey(p, c) in s.cache ==>
      Justified(s.rows, p, c, asked, s.cache[CacheKey(p, c)], now)
  }

  lemma RecordKeepsInv(s: State, named: string -> bool, asked: Questions, now: real, r: Row, later: real)
    requires Inv(s, named, asked, now) && now <= later
    ensures Inv(RecordRow(s, r), named, asked, later)
  {
    forall p, c | Clear(named, p, c) && CacheKey(p, c) in RecordRow(s, r).cache
      ensures Justified(RecordRow(s, r).rows, p, c, asked, RecordRow(s, r).cache[CacheKey(p, c)], later)
    {
      assert p != r.platform by {
        assert StartsWith(CacheKey(r.platform, c), r.platform + ":");
      }
      RecordKeepsAnswers(s.rows, r, p, c, asked, s.cache[CacheKey(p, c)]);
    }
  }

  lemma RecordKeepsAnswers(rows: seq<Row>, r: Row, p: string, c: Option<string>, asked: Questions, e: Entry)
    requires p != r.platform && Answers(rows, p, c, asked, e.weight, e.expires - LIFETIME)
    ensures Answers(Store(rows, r), p, c, asked, e.weight, e.expires - LIFETIME)
  {
    var t := e.expires - LIFETIME;
    StoreKeepsOthers(rows, r, p, c, t);
    var base :| asked(CacheKey(p, c), base, t) && RecomputedAt(rows, p, c, base, e.weight, t);
    assert RecomputedAt(Store(rows, r), p, c, base, e.weight, t);
  }

  lemma AskKeepsInv(s: State, named: string -> bool, asked: Questions, now: real, p: string, c: Option<string>,
                    base: real, later: real)
    requires Inv(s, named, asked, now) && now <= later && Clear(named, p, c) && asked(CacheKey(p, c), base, later)
    ensures Inv(AskWeight(s, p, c, base, later).0, named, asked, later)
  {
    var s' := AskWeight(s, p, c, base, later).0;
    forall q, d | Clear(named, q, d) && CacheKey(q, d) in s'.cache
      ensures Justified(s'.rows, q, d, asked, s'.cache[CacheKey(q, d)], later)
    {
      AskKeepsEntry(s, named, asked, now, p, c, base, later, q, d);
    }
  }

  lemma AskKeepsEntry(s: State, named: string -> bool, asked: Questions, now: real, p: string, c: Option<string>,
                      base: real, later: real, q: string, d: Option<string>)
    requires Inv(s, named, asked, now) && now <= later && Clear(named, p, c) && Clear(named, q, d)
    requires asked(CacheKey(p, c), base, later) && CacheKey(q, d) in AskWeight(s, p, c, base, later).0.cache
    ensures Justified(s.rows, q, d, asked, AskWeight(s, p, c, base, later).0.cache[CacheKey(q, d)], later)
  {
    AskStoresAtMostOne(s, p, c, base, later);
    if AskWeight(s, p, c, base, later).0 == s || CacheKey(q, d) != CacheKey(p, c) {
      JustifiedLater(s, named, asked, now, q, d, later);
    } else {
      ClearKeysAreInjective(named, p, c, q, d);
      NewEntryIsJustified(s, p, c, d, asked, base, later);
    }
  }

  lemma AskStoresAtMostOne(s: State, p: string, c: Option<string>, base: real, now: real)
    ensures var s' := AskWeight(s, p, c, base, now).0;
            || s' == s
            || (Brier(s.rows, p, c, now).Some? &&
                s' == s.(cache := s.cache[CacheKey(p, c) := Entry(base * Multiplier(Brier(s.rows, p, c, now).value), now + LIFETIME)]))
  {}

  lemma JustifiedLater(s: State, named: string -> bool, asked: Questions, now: real, q: string, d: Option<string>, later: real)
    requires Inv(s, named, asked, now) && now <= later && Clear(named, q, d) && CacheKey(q, d) in s.cache
    ensures Justified(s.rows, q, d, asked, s.cache[CacheKey(q, d)], later)
  {
    assert Justified(s.rows, q, d, asked, s.cache[CacheKey(q, d)], now);
  }

  /** The entry a question stores is justified for every question that shares its key and wants the same rows. */
  lemma NewEntryIsJustified(s: State, p: string, c: Option<string>, d: Option<string>, asked: Questions, base: real, now: real)
    requires SameRows(p, c, p, d) && Brier(s.rows, p, c, now).Some?
    requires CacheKey(p, c) == CacheKey(p, d) && asked(CacheKey(p, c), base, now)
    ensures var weight := base * Multiplier(Brier(s.rows, p, c, now).value);
            Justified(s.rows, p, d, asked, Entry(weight, now + LIFETIME), now)
  {
    SameWantedSameRows(s.rows, p, c, d, now - LOOKBACK);
    assert now + LIFETIME - LIFETIME == now;
    assert RecomputedAt(s.rows, p, d, base, base * Multiplier(Brier(s.rows, p, c, now).value), now);
  }

  function TimeOf(op: Op): real {
    match op case Record(r) => r.time case Ask(_, _, _, now) => now
  }

  predicate InOrder(ops: seq<Op>) {
    forall i, j :: 0 <= i < j < |ops| ==> TimeOf(ops[i]) <= TimeOf(ops[j])
  }

  predicate ClearAndAsked(op: Op, named: string -> bool, asked: Questions) {
    op.Ask? ==> Clear(named, op.platform, op.category) && asked(CacheKey(op.platform, op.category), op.base, op.now)
  }

  predicate AllClear(ops: seq<Op>, named: string -> bool, asked: Questions) {
    forall i :: 0 <= i < |ops| ==> ClearAndAsked(ops[i], named, asked)
  }

  lemma {:induction false} RunKeepsInv(ops: seq<Op>, named: string -> bool, asked: Questions, now: real)
    requires InOrder(ops) && AllClear(ops, named, asked) && forall i :: 0 <= i < |ops| ==> TimeOf(ops[i]) <= now
    ensures Inv(After(ops), named, asked, now)
  {
    if ops != [] {
      var init, op := ops[..|ops| - 1], ops[|ops| - 1];
      RunKeepsInv(init, named, asked, TimeOf(op));
      assert ClearAndAsked(op, named, asked);
      match op
      case Record(r) => RecordKeepsInv(After(init), named, asked, r.time, r, now);
      case Ask(p, c, base, t) =>
        AskKeepsInv(After(init), named, asked, t, p, c, base, t);
        InvLater(After(ops), named, asked, t, now);
    }
  }

  lemma InvLater(s: State, named: string -> bool, asked: Questions, now: real, later: real)
    requires Inv(s, named, asked, now) && now <= later
    ensures Inv(s, named, asked, later)
  {}

  /** What a served weight must be: the answer, from these records, to some question under the key put in the last
      hour, or the base weight for want of data. */
  ghost predicate Fresh(rows: seq<Row>, p: string, c: Option<string>, asked: Questions, base: real, now: real, weight: real) {
    || (Brier(rows, p, c, now).None? && weight == base)
    || (exists t :: now - 3600.0 < t <= now && Answers(rows, p, c, asked, weight, t))
  }

  lemma ServedFromState(s: State, named: string -> bool, p: string, c: Option<string>, asked: Questions, base: real, now: real)
    requires Inv(s, named, asked, now) && Clear(named, p, c) && asked(CacheKey(p, c), base, now)
    ensures Fresh(s.rows, p, c, asked, base, now, AskWeight(s, p, c, base, now).1)
  {
    var key, weight := CacheKey(p, c), AskWeight(s, p, c, base, now).1;
    if key in s.cache && now < s.cache[key].expires {
      assert Justified(s.rows, p, c, asked, s.cache[key], now);
      assert Answers(s.rows, p, c, asked, weight, s.cache[key].expires - LIFETIME);
    } else if Brier(s.rows, p, c, now).Some? {
      assert RecomputedAt(s.rows, p, c, base, weight, now);
      assert Answers(s.rows, p, c, asked, weight, now);
    }
  }

  predicate BothWays(a: Op, b: Op) {
    a.Ask? && b.Ask? && a.platform == b.platform && NoCategory(a.category) && b.category == Some("all")
  }

  /** A run in calendar order whose questions name platforms without a colon and never ask one platform both
      without a category and for the category named `all`. */
  predicate UnconfusedRun(ops: seq<Op>) {
    && InOrder(ops)
    && (forall i :: 0 <= i < |ops| && ops[i].Ask? ==> ':' !in ops[i].platform)
    && (forall i, j :: 0 <= i < |ops| && 0 <= j < |ops| ==> !BothWays(ops[i], ops[j]))
  }

  /** Platforms that some question asks for the category named `all`. */
  ghost function AskedForAll(ops: seq<Op>): string -> bool {
    p => exists i :: 0 <= i < |ops| && ops[i].Ask? && ops[i].platform == p && ops[i].category == Some("all")
  }

  predicate Puts(op: Op, key: string, base: real, t: real) {
    op.Ask? && CacheKey(op.platform, op.category) == key && op.base == base && op.now == t
  }

  /** The questions put in a run. */
  ghost function QuestionsOf(ops: seq<Op>): Questions {
    (key, base, t) => exists i :: 0 <= i < |ops| && Puts(ops[i], key, base, t)
  }

  lemma UnconfusedIsClear(ops: seq<Op>)
    requires UnconfusedRun(ops)
    ensures AllClear(ops, AskedForAll(ops), QuestionsOf(ops))
  {
    forall i | 0 <= i < |ops| ensures ClearAndAsked(ops[i], AskedForAll(ops), QuestionsOf(ops)) {
      var op := ops[i];
      assert op.Ask? ==> Puts(op, CacheKey(op.platform, op.category), op.base, op.now);
    }
  }

  /** Over every such run, a weight served answers, from the records the platform has now, a question under the same
      key put in the last hour; with too little data and nothing live in the cache it is the base weight. */
  lemma ServedWeightIsFresh(ops: seq<Op>, p: string, c: Option<string>, base: real, now: real)
    requires UnconfusedRun(ops + [Ask(p, c, base, now)])
    ensures Fresh(After(ops).rows, p, c, QuestionsOf(ops + [Ask(p, c, base, now)]), base, now,
                  AskWeight(After(ops), p, c, base, now).1)
  {
    var all := ops + [Ask(p, c, base, now)];
    var named, asked := AskedForAll(all), QuestionsOf(all);
    UnconfusedIsClear(all);
    assert all[|ops|] == Ask(p, c, base, now) && forall i :: 0 <= i < |ops| ==> all[i] == ops[i];
    assert ClearAndAsked(all[|ops|], named, asked);
    forall i | 0 <= i < |ops| ensures ClearAndAsked(ops[i], named, asked) { assert ClearAndAsked(all[i], named, asked); }
    RunKeepsInv(ops, named, asked, now);
    ServedFromState(After(ops), named, p, c, asked, base, now);
  }

  /** Every question under the key was put with this base weight. */
  predicate OneBase(ops: seq<Op>, key: string, base: real) {
    forall i :: 0 <= i < |ops| && ops[i].Ask? && CacheKey(ops[i].platform, ops[i].category) == key ==> ops[i].base == base
  }

  /** Where every question under the key was put with one base weight, as all the callers do, the weight served is
      the one recomputed, with that base, as of some moment in the last hour. */
  lemma OneBaseIsServedFresh(ops: seq<Op>, p: string, c: Option<string>, base: real, now: real)
    requires UnconfusedRun(ops + [Ask(p, c, base, now)]) && OneBase(ops, CacheKey(p, c), base)
    ensures var (rows, weight) := (After(ops).rows, AskWeight(After(ops), p, c, base, now).1);
            || (Brier(rows, p, c, now).None? && weight == base)
            || (exists t :: now - 3600.0 < t <= now && RecomputedAt(rows, p, c, base, weight, t))
  {
    var all := ops + [Ask(p, c, base, now)];
    var (rows, weight) := (After(ops).rows, AskWeight(After(ops), p, c, base, now).1);
    ServedWeightIsFresh(ops, p, c, base, now);
    if t :| now - 3600.0 < t <= now && Answers(rows, p, c, QuestionsOf(all), weight, t) {
      var b :| QuestionsOf(all)(CacheKey(p, c), b, t) && RecomputedAt(rows, p, c, b, weight, t);
      var i :| 0 <= i < |all| && Puts(all[i], CacheKey(p, c), b, t);
      assert i < |ops| ==> all[i] == ops[i];
      assert b == base;
    }
  }

  // -------------------------------------------------------------- where it fails

  /** The base weight is not part of the key: within the hour a question is answered with the base of the first one,
      which is its own answer if and only if the two bases agree. */
  lemma FirstBaseIsServed(s: State, p: string, c: Option<string>, first: real, second: real, now: real, later: real)
    requires Brier(s.rows, p, c, now).Some? && now <= later < now + 3600.0
    requires CacheKey(p, c) in s.cache ==> s.cache[CacheKey(p, c)].expires <= now
    ensures var m := Multiplier(Brier(s.rows, p, c, now).value);
            var served := AskWeight(AskWeight(s, p, c, first, now).0, p, c, second, later).1;
            served == first * m && (served == second * m <==> first == second)
  {
    Cancel(first, second, Multiplier(Brier(s.rows, p, c, now).value));
  }

  lemma Cancel(x: real, y: real, m: real)
    requires m > 0.0
    ensures x * m == y * m <==> x == y
  {
    if x < y { PositiveGap(y - x, m); } else if y < x { PositiveGap(x - y, m); }
  }

  lemma PositiveGap(d: real, m: real)
    requires d > 0.0 && m > 0.0
    ensures d * m > 0.0
  {}

  /** After a question without a category has been answered from data, the category literally named `all` is
      served the same weight for the next hour, whatever its own records say. */
  lemma AllCollides(s: State, p: string, base: real, now: real, later: real)
    requires Brier(s.rows, p, None, now).Some? && now <= later < now + 3600.0
    requires CacheKey(p, None) in s.cache ==> s.cache[CacheKey(p, None)].expires <= now
    ensures var (s', weight) := AskWeight(s, p, None, base, now);
            AskWeight(s', p, Some("all"), base, later).1 == weight
  {}

  /** The `i`-th of a platform's perfect predictions in one category. */
  function Sample(p: string, c: string, i: nat): Row {
    Row(p, c, seq(i, _ => 'm'), 1.0, 1, 0.0)
  }

  function Samples(p: string, c: string, n: nat): seq<Row> {
    seq(n, i requires 0 <= i < n => Sample(p, c, i))
  }

  function Recording(p: string, c: string, n: nat): seq<Op> {
    seq(n, i requires 0 <= i < n => Record(Sample(p, c, i)))
  }

  lemma {:induction false} WithoutAbsent(rows: seq<Row>, platform: string, market: string)
    requires forall i :: 0 <= i < |rows| ==> rows[i].market != market
    ensures Without(rows, platform, market) == rows
  {
    if rows != [] {
      WithoutAbsent(rows[..|rows| - 1], platform, market);
    }
  }

  lemma SampleMarketsDiffer(p: string, c: string, n: nat, i: nat)
    requires i < n
    ensures Sample(p, c, i).market != Sample(p, c, n).market
  {
    assert |Sample(p, c, i).market| == i && |Sample(p, c, n).market| == n;
  }

  lemma OneMoreSample(p: string, c: string, n: nat)
    requires n > 0
    ensures Samples(p, c, n) == Samples(p, c, n - 1) + [Sample(p, c, n - 1)]
    ensures Recording(p, c, n)[..n - 1] == Recording(p, c, n - 1)
  {}

  lemma {:induction false} RecordedSamples(p: string, c: string, n: nat)
    ensures After(Recording(p, c, n)) == State(Samples(p, c, n), map[])
  {
    if n > 0 {
      RecordedSamples(p, c, n - 1);
      OneMoreSample(p, c, n);
      RecordSample(p, c, n);
      assert Recording(p, c, n)[n - 1] == Record(Sample(p, c, n - 1));
    }
  }

  lemma RecordSample(p: string, c: string, n: nat)
    requires n > 0
    ensures RecordRow(State(Samples(p, c, n - 1), map[]), Sample(p, c, n - 1)) == State(Samples(p, c, n), map[])
  {
    var before, r := Samples(p, c, n - 1), Sample(p, c, n - 1);
    OneMoreSample(p, c, n);
    forall i | 0 <= i < |before| ensures before[i].market != r.market {
      SampleMarketsDiffer(p, c, n - 1, i);
    }
    WithoutAbsent(before, p, r.market);
    assert RecordRow(State(before, map[]), r).cache == map[];
  }

  /** A question for the samples' own platform finds them all or none, and their score is perfect. */
  lemma {:induction false} SamplesMatch(p: string, c: string, n: nat, q: string, d: Option<string>, cutoff: real)
    requires cutoff < 0.0
    ensures var found := Matching(Samples(p, c, n), q, d, cutoff);
            found == if p == q && (NoCategory(d) || d == Some(c)) then Samples(p, c, n) else []
    ensures SquaredErrors(Samples(p, c, n)) == 0.0
  {
    if n > 0 {
      var before, r := Samples(p, c, n - 1), Sample(p, c, n - 1);
      SamplesMatch(p, c, n - 1, q, d, cutoff);
      OneMoreSample(p, c, n);
      MatchingOneMore(before, r, q, d, cutoff);
      assert Wanted(r, q, d, cutoff) <==> p == q && (NoCategory(d) || d == Some(c));
      NoError(before, r);
    }
  }

  lemma NoError(rows: seq<Row>, r: Row)
    requires r.prediction == r.outcome as real
    ensures SquaredErrors(rows + [r]) == SquaredErrors(rows)
  {
    assert (rows + [r])[..|rows|] == rows;
  }

  /** After ten perfect predictions of one platform and category are recorded and a question about them has been
      answered, another question that shares its key but wants none of those rows is served weight two. */
  lemma SharedKeyServesTheWrongWeight(p: string, c: string, d: Option<string>, q: string, e: Option<string>)
    requires NoCategory(d) || d == Some(c)
    requires CacheKey(p, d) == CacheKey(q, e) && !(p == q && (NoCategory(e) || e == Some(c)))
    ensures var s := After(Recording(p, c, 10) + [Ask(p, d, 1.0, 1.0)]);
            AskWeight(s, q, e, 1.0, 2.0).1 == 2.0 && Brier(s.rows, q, e, 2.0).None?
  {
    RecordedSamples(p, c, 10);
    SampleScores(p, c, d, q, e);
    var ops := Recording(p, c, 10) + [Ask(p, d, 1.0, 1.0)];
    assert ops[..|ops| - 1] == Recording(p, c, 10);
    FirstAnswerIsServed(Samples(p, c, 10), p, d, q, e);
  }

  lemma SampleScores(p: string, c: string, d: Option<string>, q: string, e: Option<string>)
    requires NoCategory(d) || d == Some(c)
    requires !(p == q && (NoCategory(e) || e == Some(c)))
    ensures Brier(Samples(p, c, 10), p, d, 1.0) == Some(0.0) && Brier(Samples(p, c, 10), q, e, 2.0).None?
  {
    SamplesMatch(p, c, 10, p, d, 1.0 - LOOKBACK);
    PerfectScore(Samples(p, c, 10), p, d, 1.0);
    SamplesMatch(p, c, 10, q, e, 2.0 - LOOKBACK);
    NoScore(Samples(p, c, 10), q, e, 2.0);
  }

  lemma PerfectScore(rows: seq<Row>, p: string, d: Option<string>, now: real)
    requires |rows| >= 10 && Matching(rows, p, d, now - LOOKBACK) == rows && SquaredErrors(rows) == 0.0
    ensures Brier(rows, p, d, now) == Some(0.0)
  {}

  lemma NoScore(rows: seq<Row>, p: string, d: Option<string>, now: real)
    requires Matching(rows, p, d, now - LOOKBACK) == []
    ensures Brier(rows, p, d, now).None?
  {}

  lemma FirstAnswerIsServed(rows: seq<Row>, p: string, d: Option<string>, q: string, e: Option<string>)
    requires Brier(rows, p, d, 1.0) == Some(0.0) && CacheKey(p, d) == CacheKey(q, e)
    ensures var s := AskWeight(State(rows, map[]), p, d, 1.0, 1.0).0;
            s.rows == rows && AskWeight(s, q, e, 1.0, 2.0).1 == 2.0
  {}

  /** A reachable state in which the category named `all` is served weight two although it has no records. */
  lemma AllCanBeServedAWrongWeight()
    ensures var s := After(Recording("kalshi", "politics", 10) + [Ask("kalshi", None, 1.0, 1.0)]);
            AskWeight(s, "kalshi", Some("all"), 1.0, 2.0).1 == 2.0 && Brier(s.rows, "kalshi", Some("all"), 2.0).None?
  {
    assert "politics"[0] != "all"[0];
    SharedKeyServesTheWrongWeight("kalshi", "politics", None, "kalshi", Some("all"));
  }

  /** And one in which a platform whose name holds a colon is served another platform's weight. */
  lemma ColonCanBeServedAWrongWeight(a: string, b: string, c: string)
    requires c != ""
    ensures var s := After(Recording(a, b + (":" + c), 10) + [Ask(a, Some(b + (":" + c)), 1.0, 1.0)]);
            && AskWeight(s, a + (":" + b), Some(c), 1.0, 2.0).1 == 2.0
            && Brier(s.rows, a + (":" + b), Some(c), 2.0).None?
  {
    assert CacheKey(a, Some(b + (":" + c))) == CacheKey(a + (":" + b), Some(c));
    assert |a + (":" + b)| > |a|;
    SharedKeyServesTheWrongWeight(a, b + (":" + c), Some(b + (":" + c)), a + (":" + b), Some(c));
  }

  // --------------------------------------------------------------- consensus

  function EqualShares(n: nat): (r: seq<real>)
    ensures |r| == n
  {
    if n == 0 then [] else seq(n, _ => 1.0 / n as real)
  }

  /** `adjust_consensus_weights` once the raw weights are known. */
  function Normalised(raw: seq<real>): (r: seq<real>)
    ensures |r| == |raw|
  {
    var total := Sum(raw);
    if total <= 0.0 then EqualShares(|raw|)
    else seq(|raw|, i requires 0 <= i < |raw| => raw[i] / total)
  }

  function Consensus(probabilities: seq<real>, weights: seq<real>): real
    requires |probabilities| == |weights|
  {
    if probabilities == [] then 0.0
    else
      var n := |probabilities| - 1;
      Consensus(probabilities[..n], weights[..n]) + probabilities[n] * weights[n]
  }

  lemma {:induction false} ScaledTotal(xs: seq<real>, ys: seq<real>, d: real)
    requires d != 0.0 && |xs| == |ys| && forall i :: 0 <= i < |xs| ==> ys[i] == xs[i] / d
    ensures Sum(ys) == Sum(xs) / d
  {
    if xs != [] {
      var n := |xs| - 1;
      ScaledTotal(xs[..n], ys[..n], d);
      assert Sum(xs[..n]) / d + xs[n] / d == (Sum(xs[..n]) + xs[n]) / d;
    }
  }

  lemma {:induction false} EqualTotal(n: nat, x: real)
    ensures Sum(seq(n, _ => x)) == x * n as real
  {
    if n > 0 {
      EqualTotal(n - 1, x);
      assert (seq(n, _ => x))[..n - 1] == seq(n - 1, _ => x);
    }
  }

  /** The adjusted weights of a non-empty set of platforms sum to one, and none is negative. */
  lemma WeightsSumToOne(raw: seq<real>)
    requires raw != [] && forall i :: 0 <= i < |raw| ==> raw[i] >= 0.0
    ensures Sum(Normalised(raw)) == 1.0
    ensures forall i :: 0 <= i < |raw| ==> Normalised(raw)[i] >= 0.0
  {
    var total := Sum(raw);
    if total > 0.0 {
      ScaledTotal(raw, Normalised(raw), total);
      WholeOverItself(total);
      forall i | 0 <= i < |raw| ensures Normalised(raw)[i] >= 0.0 { ShareIsNonNegative(raw[i], total); }
    } else {
      EqualTotal(|raw|, 1.0 / |raw| as real);
      WholeOverItself(|raw| as real);
      ShareIsNonNegative(1.0, |raw| as real);
    }
  }

  /** Each platform's share of one is its weight's share of the total. */
  lemma ShareOfTotal(raw: seq<real>, i: int, total: real)
    requires 0 <= i < |raw| && total == Sum(raw) && total > 0.0
    ensures Normalised(raw)[i] * total == raw[i]
  {
    QuotientTimes(raw[i], total, Normalised(raw)[i]);
  }

  lemma EqualShare(n: nat, i: int, count: real)
    requires 0 <= i < n && count == n as real
    ensures EqualShares(n)[i] * count == 1.0
  {
    QuotientTimes(1.0, count, EqualShares(n)[i]);
  }

  function Products(ps: seq<real>, ws: seq<real>): seq<real>
    requires |ps| == |ws|
  {
    if ps == [] then [] else Products(ps[..|ps| - 1], ws[..|ws| - 1]) + [ps[|ps| - 1] * ws[|ws| - 1]]
  }

  lemma ScaledProduct(p: real, share: real, weight: real, total: real, product: real)
    requires share * total == weight && product == p * share
    ensures product * total == p * weight
  {
    assert product * total == p * (share * total);
  }

  lemma Distributes(x: real, y: real, n: real, sum: real)
    requires sum == x + y
    ensures sum * n == x * n + y * n
  {}

  lemma SumOneMore(xs: seq<real>, x: real)
    ensures Sum(xs + [x]) == Sum(xs) + x
  {
    assert (xs + [x])[..|xs|] == xs;
  }

  predicate IsShare(share: real, weight: real, total: real) {
    share * total == weight
  }

  predicate Shares(shares: seq<real>, raw: seq<real>, total: real)
    requires |shares| == |raw|
  {
    raw == [] || (IsShare(shares[|shares| - 1], raw[|raw| - 1], total) && Shares(shares[..|shares| - 1], raw[..|raw| - 1], total))
  }

  lemma {:induction false} PointwiseShares(shares: seq<real>, raw: seq<real>, total: real)
    requires |shares| == |raw| && forall i :: 0 <= i < |raw| ==> IsShare(shares[i], raw[i], total)
    ensures Shares(shares, raw, total)
  {
    if raw != [] { PointwiseShares(shares[..|shares| - 1], raw[..|raw| - 1], total); }
  }

  lemma OneMoreProduct(ps: seq<real>, raw: seq<real>)
    requires ps != [] && |ps| == |raw|
    ensures Sum(Products(ps, raw))
         == Sum(Products(ps[..|ps| - 1], raw[..|raw| - 1])) + ps[|ps| - 1] * raw[|raw| - 1]
  {
    SumOneMore(Products(ps[..|ps| - 1], raw[..|raw| - 1]), ps[|ps| - 1] * raw[|raw| - 1]);
  }

  lemma OneMoreShare(ps: seq<real>, shares: seq<real>, before: real, consensus: real)
    requires ps != [] && |ps| == |shares| && consensus == Consensus(ps, shares)
    requires before == Consensus(ps[..|ps| - 1], shares[..|shares| - 1])
    ensures consensus == before + ps[|ps| - 1] * shares[|shares| - 1]
  {}

  lemma {:induction false} ScaledConsensus(ps: seq<real>, shares: seq<real>, raw: seq<real>, total: real, consensus: real, sum: real)
    requires |ps| == |raw| == |shares| && Shares(shares, raw, total)
    requires consensus == Consensus(ps, shares) && sum == Sum(Products(ps, raw))
    ensures IsShare(consensus, sum, total)
  {
    if ps != [] {
      var n := |ps| - 1;
      var before, sumBefore := Consensus(ps[..n], shares[..n]), Sum(Products(ps[..n], raw[..n]));
      ScaledConsensus(ps[..n], shares[..n], raw[..n], total, before, sumBefore);
      OneMoreProduct(ps, raw);
      OneMoreShare(ps, shares, before, consensus);
      LastTerm(ps[n], shares[n], raw[n], total, before, consensus, sumBefore, sum);
    }
  }

  lemma LastTerm(p: real, share: real, weight: real, total: real, before: real, consensus: real, sumBefore: real, sum: real)
    requires IsShare(share, weight, total) && IsShare(before, sumBefore, total)
    requires consensus == before + p * share && sum == sumBefore + p * weight
    ensures IsShare(consensus, sum, total)
  {
    ScaledProduct(p, share, weight, total, p * share);
    Distributes(before, p * share, total, consensus);
  }

  /** The consensus is the mean of the probabilities weighted by the raw weights. */
  lemma ConsensusIsTheWeightedMean(ps: seq<real>, raw: seq<real>, consensus: real, total: real)
    requires |ps| == |raw| && consensus == Consensus(ps, Normalised(raw)) && total == Sum(raw) && total > 0.0
    ensures consensus * total == Sum(Products(ps, raw))
  {
    SharesOfTotal(raw, total, Normalised(raw));
    ScaledConsensus(ps, Normalised(raw), raw, total, consensus, Sum(Products(ps, raw)));
  }

  lemma SharesOfTotal(raw: seq<real>, total: real, shares: seq<real>)
    requires shares == Normalised(raw) && total == Sum(raw) && total > 0.0
    ensures Shares(shares, raw, total)
  {
    forall i | 0 <= i < |raw| ensures IsShare(shares[i], raw[i], total) { ShareOfTotal(raw, i, total); }
    PointwiseShares(shares, raw, total);
  }

  lemma {:induction false} ProductsWithOnes(ps: seq<real>, ones: seq<real>)
    requires |ones| == |ps| && forall i :: 0 <= i < |ones| ==> ones[i] == 1.0
    ensures Products(ps, ones) == ps
  {
    if ps != [] {
      var n := |ps| - 1;
      ProductsWithOnes(ps[..n], ones[..n]);
      assert ps[n] * ones[n] == ps[n] && ps == ps[..n] + [ps[n]];
    }
  }

  /** With equal shares it is the plain mean. */
  lemma EqualSharesGiveTheMean(ps: seq<real>, consensus: real, count: real)
    requires consensus == Consensus(ps, EqualShares(|ps|)) && count == |ps| as real
    ensures consensus * count == Sum(ps)
  {
    var ones := seq(|ps|, _ => 1.0);
    EqualSharesOf(|ps|, count, EqualShares(|ps|), ones);
    ScaledConsensus(ps, EqualShares(|ps|), ones, count, consensus, Sum(Products(ps, ones)));
    ProductsWithOnes(ps, ones);
  }

  lemma EqualSharesOf(n: nat, count: real, shares: seq<real>, ones: seq<real>)
    requires shares == EqualShares(n) && count == n as real
    requires |ones| == n && forall i :: 0 <= i < n ==> ones[i] == 1.0
    ensures Shares(shares, ones, count)
  {
    forall i | 0 <= i < n ensures IsShare(shares[i], ones[i], count) { EqualShare(n, i, count); }
    PointwiseShares(shares, ones, count);
  }

  lemma WholeOverItself(x: real)
    requires x > 0.0
    ensures x / x == 1.0 && 1.0 / x * x == 1.0
  {}

  lemma ShareIsNonNegative(x: real, total: real)
    requires x >= 0.0 && total > 0.0
    ensures x / total >= 0.0
  {}

  lemma MulMono(x: real, y: real, w: real)
    requires x <= y && 0.0 <= w
    ensures x * w <= y * w
  {
    var d := y - x;
    assert d * w >= 0.0;
    assert d * w == y * w - x * w;
  }

  lemma WeightedTerm(p: real, w: real, low: real, high: real)
    requires low <= p <= high && 0.0 <= w
    ensures low * w <= p * w <= high * w
  {
    MulMono(low, p, w);
    MulMono(p, high, w);
  }

  /** Every probability lies within the bounds and no weight is negative. */
  predicate Within(ps: seq<real>, ws: seq<real>, low: real, high: real)
    requires |ps| == |ws|
  {
    ps == [] || (low <= ps[|ps| - 1] <= high && ws[|ws| - 1] >= 0.0 && Within(ps[..|ps| - 1], ws[..|ws| - 1], low, high))
  }

  lemma {:induction false} PointwiseIsWithin(ps: seq<real>, ws: seq<real>, low: real, high: real)
    requires |ps| == |ws| && forall i :: 0 <= i < |ps| ==> low <= ps[i] <= high && ws[i] >= 0.0
    ensures Within(ps, ws, low, high)
  {
    if ps != [] { PointwiseIsWithin(ps[..|ps| - 1], ws[..|ws| - 1], low, high); }
  }

  lemma {:induction false} ConsensusBounds(ps: seq<real>, ws: seq<real>, low: real, high: real)
    requires |ps| == |ws| && Within(ps, ws, low, high)
    ensures low * Sum(ws) <= Consensus(ps, ws) <= high * Sum(ws)
  {
    if ps != [] {
      var n := |ps| - 1;
      var total, sum := Sum(ws[..n]), Consensus(ps[..n], ws[..n]);
      ConsensusBounds(ps[..n], ws[..n], low, high);
      OneMoreTerm(ps[n], ws[n], low, high, total, sum);
      assert Sum(ws) == total + ws[n] && Consensus(ps, ws) == sum + ps[n] * ws[n];
    }
  }

  lemma OneMoreTerm(p: real, w: real, low: real, high: real, total: real, sum: real)
    requires low <= p <= high && 0.0 <= w && low * total <= sum <= high * total
    ensures low * (total + w) <= sum + p * w <= high * (total + w)
  {
    WeightedTerm(p, w, low, high);
    assert low * (total + w) == low * total + low * w;
    assert high * (total + w) == high * total + high * w;
  }

  /** The consensus lies between any bounds on the input probabilities, hence between their extremes. */
  lemma ConsensusIsBetween(ps: seq<real>, raw: seq<real>, low: real, high: real)
    requires ps != [] && |ps| == |raw| && forall i :: 0 <= i < |ps| ==> low <= ps[i] <= high && raw[i] >= 0.0
    ensures low <= Consensus(ps, Normalised(raw)) <= high
  {
    WeightsSumToOne(raw);
    PointwiseIsWithin(ps, Normalised(raw), low, high);
    ConsensusBounds(ps, Normalised(raw), low, high);
  }

  lemma ScaledBase(base: real, m: real, low: real, high: real)
    requires 0.0 <= low <= base <= high && 0.5 <= m <= 2.0
    ensures 0.5 * low <= base * m <= 2.0 * high
  {
    WeightedTerm(m, base, 0.5, 2.0);
  }

  predicate BaseWithin(op: Op, key: string, low: real, high: real) {
    op.Ask? && CacheKey(op.platform, op.category) == key ==> low <= op.base <= high
  }

  predicate BasesWithin(ops: seq<Op>, key: string, low: real, high: real) {
    ops == [] || (BasesWithin(ops[..|ops| - 1], key, low, high) && BaseWithin(ops[|ops| - 1], key, low, high))
  }

  predicate WeightWithin(s: State, key: string, low: real, high: real) {
    key in s.cache ==> 0.5 * low <= s.cache[key].weight <= 2.0 * high
  }

  lemma AskIsBounded(s: State, p: string, c: Option<string>, base: real, now: real, key: string, low: real, high: real)
    requires 0.0 <= low && WeightWithin(s, key, low, high)
    requires CacheKey(p, c) == key ==> low <= base <= high
    ensures WeightWithin(AskWeight(s, p, c, base, now).0, key, low, high)
    ensures CacheKey(p, c) == key ==> 0.5 * low <= AskWeight(s, p, c, base, now).1 <= 2.0 * high
  {
    var brier := Brier(s.rows, p, c, now);
    if CacheKey(p, c) == key { ScaledBase(base, if brier.Some? then Multiplier(brier.value) else 1.0, low, high); }
  }

  lemma {:induction false} CacheIsBounded(ops: seq<Op>, key: string, low: real, high: real)
    requires 0.0 <= low && BasesWithin(ops, key, low, high)
    ensures WeightWithin(After(ops), key, low, high)
  {
    if ops != [] {
      var init, op := ops[..|ops| - 1], ops[|ops| - 1];
      CacheIsBounded(init, key, low, high);
      if op.Ask? { AskIsBounded(After(init), op.platform, op.category, op.base, op.now, key, low, high); }
    }
  }

  /** In any run whatever, a weight served lies between half the least and twice the greatest base weight put under its
      key, so with non-negative bases the lemmas above apply. */
  lemma ServedWeightIsBounded(ops: seq<Op>, p: string, c: Option<string>, base: real, now: real, low: real, high: real)
    requires 0.0 <= low <= base <= high && BasesWithin(ops, CacheKey(p, c), low, high)
    ensures 0.5 * low <= AskWeight(After(ops), p, c, base, now).1 <= 2.0 * high
  {
    CacheIsBounded(ops, CacheKey(p, c), low, high);
    AskIsBounded(After(ops), p, c, base, now, CacheKey(p, c), low, high);
  }

  // --------------------------------------------------------------- the object

  class CalibrationTracker {
    var rows: seq<Row>
    var cache: map<string, Entry>
    const enabled: bool

    function Abstract(): State
      reads this
    {
      State(rows, cache)
    }

    constructor (enabled: bool)
      ensures Abstract() == State([], map[]) && this.enabled == enabled
    {
      rows, cache := [], map[];
      this.enabled := enabled;
    }

    method RecordResolution(r: Row)
      modifies this
      ensures Abstract() == RecordRow(old(Abstract()), r)
    {
      rows := Store(rows, r);
      cache := map k | k in cache && !StartsWith(k, r.platform + ":") :: cache[k];
    }

    method GetWeightMultiplier(platform: string, category: Option<string>, base: real, now: real) returns (weight: real)
      modifies this
      ensures if enabled then (Abstract(), weight) == AskWeight(old(Abstract()), platform, category, base, now)
              else weight == base && Abstract() == old(Abstract())
    {
      if !enabled { return base; }
      var key := CacheKey(platform, category);
      if key in cache && now < cache[key].expires { return cache[key].weight; }
      var brier := Brier(rows, platform, category, now);
      if brier.None? { return base; }
      weight := base * Multiplier(brier.value);
      cache := cache[key := Entry(weight, now + LIFETIME)];
    }

    method GatherWeights(names: seq<string>, category: Option<string>, now: real) returns (raw: seq<real>)
      requires enabled
      modifies this
      ensures (Abstract(), raw) == Asked(old(Abstract()), names, category, now)
    {
      raw := [];
      for i := 0 to |names|
        invariant (Abstract(), raw) == Asked(old(Abstract()), names[..i], category, now)
      {
        assert names[..i + 1][..i] == names[..i];
        var w := GetWeightMultiplier(names[i], category, 1.0, now);
        raw := raw + [w];
      }
      assert names[..|names|] == names;
    }

    /** The weighted consensus over the platforms' probabilities, each weight asked for in turn. */
    method CalculateWeightedConsensus(names: seq<string>, probabilities: seq<real>, category: Option<string>, now: real)
      returns (consensus: real)
      requires |names| == |probabilities|
      modifies this
      ensures var (after, raw) := Asked(old(Abstract()), names, category, now);
              if enabled then Abstract() == after && consensus == Consensus(probabilities, Normalised(raw))
              else Abstract() == old(Abstract()) && consensus == Consensus(probabilities, EqualShares(|names|))
    {
      if enabled {
        var raw := GatherWeights(names, category, now);
        consensus := Consensus(probabilities, Normalised(raw));
      } else {
        consensus := Consensus(probabilities, EqualShares(|names|));
      }
    }
  }

  /** Asking for the weight of each platform in turn, with the default base weight. */
  function Asked(s: State, names: seq<string>, category: Option<string>, now: real): (r: (State, seq<real>))
    ensures |r.1| == |names| && r.0.rows == s.rows
  {
    if names == [] then (s, [])
    else
      var (s', ws) := Asked(s, names[..|names| - 1], category, now);
      var (s'', w) := AskWeight(s', names[|names| - 1], category, 1.0, now);
      (s'', ws + [w])
  }

  /** Each platform's weight is asked for from base weight one, after those before it in the list. */
  lemma {:induction false} AskedInTurn(s: State, names: seq<string>, category: Option<string>, now: real, i: nat)
    requires i < |names|
    ensures Asked(s, names, category, now).1[i]
         == AskWeight(Asked(s, names[..i], category, now).0, names[i], category, 1.0, now).1
  {
    var init := names[..|names| - 1];
    if i < |init| {
      AskedInTurn(s, init, category, now, i);
      assert init[..i] == names[..i];
    } else {
      assert names[..i] == init;
    }
  }
}
