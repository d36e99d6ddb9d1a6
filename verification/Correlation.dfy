/** Finding every pair of markets whose price histories move together. */
module Correlation {
  import opened Basics
  import opened Numerals
  import opened PairScan
  import opened Sorting
  import P = Pearson
  import B = Buckets

  type Series = B.Series

  predicate IntLe(a: int, b: int) { a <= b }

  lemma IntOrder()
    ensures TotalOrder(IntLe)
  {}

  lemma TextOrder()
    ensures TotalOrder(TextLe)
  {
    forall x: string, y: string
      ensures TextLe(x, y) || TextLe(y, x)
      ensures TextLe(x, y) && TextLe(y, x) ==> x == y
    {
      TextLeTotal(x, y);
      if TextLe(x, y) && TextLe(y, x) { TextLeAntisym(x, y); }
    }
    forall x: string, y: string, z: string | TextLe(x, y) && TextLe(y, z) ensures TextLe(x, z) {
      TextLeTrans(x, y, z);
    }
  }

  // ---------------------------------------------------------------- one pair

  function CommonBuckets(a: map<int, real>, b: map<int, real>): seq<int> {
    IntOrder();
    Sorted(a.Keys * b.Keys, IntLe)
  }

  /** The values of one series at the given buckets. */
  function Values(a: map<int, real>, at: seq<int>): (r: seq<real>)
    requires forall i :: 0 <= i < |at| ==> at[i] in a
    ensures |r| == |at|
  {
    seq(|at|, i requires 0 <= i < |at| && at[i] in a => a[at[i]])
  }

  function Aligned(a: map<int, real>, b: map<int, real>): (r: (seq<real>, seq<real>))
    ensures |r.0| == |r.1| == |a.Keys * b.Keys|
  {
    var common := CommonBuckets(a, b);
    IntOrder();
    SortedAscends(a.Keys * b.Keys, IntLe);
    assert forall i :: 0 <= i < |common| ==> common[i] in common;
    (Values(a, common), Values(b, common))
  }

  lemma AlignedSwaps(a: map<int, real>, b: map<int, real>)
    ensures Aligned(b, a) == (Aligned(a, b).1, Aligned(a, b).0)
  {
    assert a.Keys * b.Keys == b.Keys * a.Keys;
  }

  /** The square of r; zero when r is undefined. */
  function RSquared(m: P.Moments): real {
    if m.Undefined? || m.sxx * m.syy == 0.0 then 0.0 else m.sxy * m.sxy / (m.sxx * m.syy)
  }

  /** What is stored for a correlated pair, beside the two names. */
  datatype Link = Link(moments: P.Moments, samples: nat)

  function Strength(l: Link): real { RSquared(l.moments) }

  /** What the inner loop decides about two markets. */
  function Candidate(s: Series, a: string, b: string, minSamples: int, threshold: real): Option<Link> {
    if a !in s || b !in s then None
    else
      var (xs, ys) := Aligned(s[a], s[b]);
      var m := P.PearsonOf(xs, ys);
      if |xs| < minSamples || m.Undefined? || RSquared(m) < threshold * threshold then None
      else Some(Link(m, |xs|))
  }

  /** The two series at their common buckets: one point for each, in time order. */
  lemma AlignedAtTheCommonBuckets(a: map<int, real>, b: map<int, real>)
    returns (at: seq<int>)
    ensures (forall k :: k in at <==> k in a && k in b) && forall i, j :: 0 <= i < j < |at| ==> at[i] < at[j]
    ensures var (xs, ys) := Aligned(a, b);
            |xs| == |ys| == |at| && forall i :: 0 <= i < |at| ==> at[i] in at && xs[i] == a[at[i]] && ys[i] == b[at[i]]
  {
    at := CommonBuckets(a, b);
    IntOrder();
    SortedAscends(a.Keys * b.Keys, IntLe);
    assert forall i :: 0 <= i < |at| ==> at[i] in at;
  }

  /** Two markets are related when they share enough buckets, r is defined over them, and its size is at least the
      threshold: in squares, which the moments give without a root. */
  ghost predicate Related(s: Series, a: string, b: string, minSamples: int, t: real, link: Link) {
    && a in s && b in s
    && var (xs, ys) := Aligned(s[a], s[b]);
       && link.samples == |xs| && minSamples <= |xs| && link.moments == P.PearsonOf(xs, ys)
       && link.moments.Moments?
       && t * t * (link.moments.sxx * link.moments.syy) <= link.moments.sxy * link.moments.sxy
  }

  lemma AtLeastTheThreshold(n: real, d: real, limit: real)
    requires 0.0 < d
    ensures n / d >= limit <==> limit * d <= n
  {
    var q := n / d;
    assert q * d == n;
    if limit <= q { P.NonNegativeProduct(q - limit, d); } else { P.ProductOfPositives(limit - q, d, (limit - q) * d); }
  }

  /** The square of r in terms of its moments. */
  lemma StrengthIsTheSquare(xs: seq<real>, ys: seq<real>, samples: nat)
    requires P.PearsonOf(xs, ys).Moments?
    ensures var m := P.PearsonOf(xs, ys);
            m.sxx * m.syy > 0.0 && Strength(Link(m, samples)) * (m.sxx * m.syy) == m.sxy * m.sxy
  {
    var m := P.PearsonOf(xs, ys);
    P.CoefficientIsBounded(xs, ys);
    P.ProductOfPositives(m.sxx, m.syy, m.sxx * m.syy);
  }

  lemma CandidateExactlyWhenRelated(s: Series, a: string, b: string, minSamples: int, threshold: real, link: Link)
    ensures Candidate(s, a, b, minSamples, threshold) == Some(link) <==> Related(s, a, b, minSamples, threshold, link)
  {
    if a in s && b in s {
      var (xs, ys) := Aligned(s[a], s[b]);
      var m := P.PearsonOf(xs, ys);
      if m.Moments? {
        StrengthIsTheSquare(xs, ys, |xs|);
        AtLeastTheThreshold(m.sxy * m.sxy, m.sxx * m.syy, threshold * threshold);
      }
    }
  }

  lemma RatioAtMostOne(n: real, d: real)
    requires 0.0 < d && 0.0 <= n <= d
    ensures 0.0 <= n / d <= 1.0 && (n / d == 1.0 <==> n == d)
  {
    var q := n / d;
    assert n == q * d;
  }

  /** r squared never exceeds one, and reaches it only on the Cauchy-Schwarz equality. */
  lemma RSquaredIsBounded(xs: seq<real>, ys: seq<real>)
    requires P.PearsonOf(xs, ys).Moments?
    ensures var m := P.PearsonOf(xs, ys);
            0.0 <= RSquared(m) <= 1.0 && (RSquared(m) == 1.0 <==> m.sxy * m.sxy == m.sxx * m.syy)
  {
    var m := P.PearsonOf(xs, ys);
    P.CoefficientIsBounded(xs, ys);
    P.ProductOfPositives(m.sxx, m.syy, m.sxx * m.syy);
    RatioAtMostOne(P.Square(m.sxy), m.sxx * m.syy);
  }

  /** At the strictest threshold only exact affine relations survive. */
  lemma ThresholdOneKeepsOnlyAffine(s: Series, a: string, b: string, minSamples: int)
    requires a in s && b in s && Candidate(s, a, b, minSamples, 1.0).Some?
    ensures var (xs, ys) := Aligned(s[a], s[b]); exists slope, shift :: P.Affine(xs, ys, slope, shift)
  {
    var (xs, ys) := Aligned(s[a], s[b]);
    RSquaredIsBounded(xs, ys);
    P.PerfectExactlyWhenAffine(xs, ys);
  }

  /** Whether two markets qualify, and how strongly, does not depend on which is named first. */
  lemma CandidateIsSymmetric(s: Series, a: string, b: string, minSamples: int, threshold: real)
    requires a in s && b in s
    ensures var (p, q) := (Candidate(s, a, b, minSamples, threshold), Candidate(s, b, a, minSamples, threshold));
            && (p.Some? <==> q.Some?)
            && (p.Some? ==> p.value.samples == q.value.samples && p.value.moments.sxy == q.value.moments.sxy
                            && RSquared(p.value.moments) == RSquared(q.value.moments))
  {
    var (xs, ys) := Aligned(s[a], s[b]);
    AlignedSwaps(s[a], s[b]);
    P.CoefficientIsSymmetric(xs, ys);
    if P.PearsonOf(xs, ys).Moments? { RSquaredSwaps(P.PearsonOf(xs, ys)); }
  }

  lemma RSquaredSwaps(m: P.Moments)
    requires m.Moments?
    ensures RSquared(P.Moments(m.sxy, m.syy, m.sxx)) == RSquared(m)
  {
    assert m.sxx * m.syy == m.syy * m.sxx;
  }

  // --------------------------------------------------------------- all pairs

  datatype Result = Failed | Ok(pairs: seq<Hit<string, Link>>)

  /** Everything `compute_correlated_pairs` promises about the pairs it returns. */
  ghost predicate ExactlyTheCorrelated(ps: seq<Hit<string, Link>>, s: Series, minSamples: int, threshold: real) {
    && (forall h :: h in ps <==>
          h.a != h.b && TextLe(h.a, h.b) && Related(s, h.a, h.b, minSamples, threshold, h.value))
    && OncePerPair(ps)
    && Descending(ps, Strength)
  }

  function Finder(s: Series, minSamples: int, threshold: real): (string, string) -> Option<Link> {
    (a, b) => Candidate(s, a, b, minSamples, threshold)
  }

  method ComputeCorrelatedPairs(rows: seq<B.Row>, width: int, minSamples: int, threshold: real)
    returns (result: Result, ghost series: Series)
    requires width != 0
    ensures result.Failed? <==> threshold < 0.0 || threshold > 1.0
    ensures result.Ok? ==> B.Averaged(series, rows, width)
    ensures result.Ok? ==> ExactlyTheCorrelated(result.pairs, series, minSamples, threshold)
  {
    series := map[];
    if threshold < 0.0 || threshold > 1.0 { return Failed, series; }
    var s := B.BuildBucketedSeries(rows, width);
    series := s;
    TextOrder();
    var ms := Sorted(s.Keys, TextLe);
    SortedAscends(s.Keys, TextLe);
    if |ms| < 2 {
      FewMarkets(s, ms, minSamples, threshold);
      return Ok([]), s;
    }
    var out := ScanPairs(Finder(s, minSamples, threshold), ms, TextLe);
    SortedScanIsExact(s, ms, minSamples, threshold, out);
    result := Ok(SortByStrength(out, Strength));
  }

  /** A hit of the scan is a qualifying pair named in text order, and every such pair is a hit. */
  lemma ScanHits(s: Series, ms: seq<string>, minSamples: int, threshold: real, h: Hit<string, Link>)
    requires (forall m :: m in ms <==> m in s) && Ascending(ms, TextLe)
    ensures h in AllHits(Finder(s, minSamples, threshold), ms, |ms|) <==>
            h.a != h.b && TextLe(h.a, h.b) && Candidate(s, h.a, h.b, minSamples, threshold) == Some(h.value)
  {
    var find := Finder(s, minSamples, threshold);
    CollectsExactlyTheMatches(find, ms, h);
    if h.a != h.b && TextLe(h.a, h.b) && Candidate(s, h.a, h.b, minSamples, threshold) == Some(h.value) {
      var i :| 0 <= i < |ms| && ms[i] == h.a;
      var j :| 0 <= j < |ms| && ms[j] == h.b;
      if j < i { TextLeAntisym(h.a, h.b); }
      assert FoundAt(find, ms, h, i, j);
    }
  }

  lemma SortedScanIsExact(s: Series, ms: seq<string>, minSamples: int, threshold: real, out: seq<Hit<string, Link>>)
    requires (forall m :: m in ms <==> m in s) && Ascending(ms, TextLe)
    requires out == AllHits(Finder(s, minSamples, threshold), ms, |ms|) && OncePerPair(out)
    ensures ExactlyTheCorrelated(SortByStrength(out, Strength), s, minSamples, threshold)
  {
    SortDescends(out, Strength);
    SortKeepsOnce(out, Strength);
    forall h ensures h in out <==>
      h.a != h.b && TextLe(h.a, h.b) && Related(s, h.a, h.b, minSamples, threshold, h.value)
    {
      ScanHits(s, ms, minSamples, threshold, h);
      CandidateExactlyWhenRelated(s, h.a, h.b, minSamples, threshold, h.value);
    }
  }

  lemma FewMarkets(s: Series, ms: seq<string>, minSamples: int, threshold: real)
    requires (forall m :: m in ms <==> m in s) && |ms| < 2
    ensures ExactlyTheCorrelated([], s, minSamples, threshold)
  {
    forall h: Hit<string, Link> | Related(s, h.a, h.b, minSamples, threshold, h.value) ensures h.a == h.b {
      assert h.a in ms && h.b in ms;
    }
  }

  /** An entry naming two markets names them in text order. */
  lemma EntryIsInOrder(ps: seq<Hit<string, Link>>, s: Series, minSamples: int, threshold: real, a: string, b: string, i: nat)
    requires ExactlyTheCorrelated(ps, s, minSamples, threshold) && i < |ps| && {ps[i].a, ps[i].b} == {a, b}
    ensures (ps[i].a, ps[i].b) == SortedPair(a, b, TextLe)
  {
    assert ps[i] in ps && ps[i].a in {a, b} && ps[i].b in {a, b};
    assert a in {ps[i].a, ps[i].b} && b in {ps[i].a, ps[i].b};
    TextLeTotal(a, b);
    if TextLe(a, b) && TextLe(b, a) { TextLeAntisym(a, b); }
  }

  lemma SortedPairQualifies(s: Series, minSamples: int, threshold: real, a: string, b: string)
    ensures var (x, y) := SortedPair(a, b, TextLe);
            Candidate(s, a, b, minSamples, threshold).Some? <==> Candidate(s, x, y, minSamples, threshold).Some?
  {
    if a in s && b in s { CandidateIsSymmetric(s, a, b, minSamples, threshold); }
  }

  lemma QualifyingIsReported(ps: seq<Hit<string, Link>>, s: Series, minSamples: int, threshold: real, a: string, b: string)
    returns (i: nat)
    requires ExactlyTheCorrelated(ps, s, minSamples, threshold) && a != b
    requires Candidate(s, a, b, minSamples, threshold).Some?
    ensures i < |ps| && {ps[i].a, ps[i].b} == {a, b}
  {
    var (x, y) := SortedPair(a, b, TextLe);
    TextLeTotal(a, b);
    SortedPairQualifies(s, minSamples, threshold, a, b);
    var h := Hit(x, y, Candidate(s, x, y, minSamples, threshold).value);
    CandidateExactlyWhenRelated(s, x, y, minSamples, threshold, h.value);
    assert h in ps;
    i :| 0 <= i < |ps| && ps[i] == h;
  }

  lemma ReportedQualifies(ps: seq<Hit<string, Link>>, s: Series, minSamples: int, threshold: real, a: string, b: string, i: nat)
    requires ExactlyTheCorrelated(ps, s, minSamples, threshold) && i < |ps| && {ps[i].a, ps[i].b} == {a, b}
    ensures Candidate(s, a, b, minSamples, threshold).Some?
  {
    EntryIsInOrder(ps, s, minSamples, threshold, a, b, i);
    assert ps[i] in ps;
    CandidateExactlyWhenRelated(s, ps[i].a, ps[i].b, minSamples, threshold, ps[i].value);
    SortedPairQualifies(s, minSamples, threshold, a, b);
  }

  ghost predicate AreRelated(s: Series, a: string, b: string, minSamples: int, threshold: real) {
    exists link :: Related(s, a, b, minSamples, threshold, link)
  }

  lemma CandidateSomeExactlyWhenRelated(s: Series, a: string, b: string, minSamples: int, threshold: real)
    ensures Candidate(s, a, b, minSamples, threshold).Some? <==> AreRelated(s, a, b, minSamples, threshold)
  {
    var c := Candidate(s, a, b, minSamples, threshold);
    if c.Some? { CandidateExactlyWhenRelated(s, a, b, minSamples, threshold, c.value); }
    if link :| Related(s, a, b, minSamples, threshold, link) {
      CandidateExactlyWhenRelated(s, a, b, minSamples, threshold, link);
    }
  }

  /** Every two markets that are related, in either order, are reported by exactly one entry. */
  lemma EachRelationOnce(ps: seq<Hit<string, Link>>, s: Series, minSamples: int, threshold: real, a: string, b: string)
    requires ExactlyTheCorrelated(ps, s, minSamples, threshold) && a != b
    ensures AreRelated(s, a, b, minSamples, threshold) <==>
            exists i :: 0 <= i < |ps| && {ps[i].a, ps[i].b} == {a, b}
    ensures forall i, j :: 0 <= i < |ps| && 0 <= j < |ps| && {ps[i].a, ps[i].b} == {a, b} == {ps[j].a, ps[j].b} ==> i == j
  {
    CandidateSomeExactlyWhenRelated(s, a, b, minSamples, threshold);
    if Candidate(s, a, b, minSamples, threshold).Some? {
      var i := QualifyingIsReported(ps, s, minSamples, threshold, a, b);
    } else if i :| 0 <= i < |ps| && {ps[i].a, ps[i].b} == {a, b} {
      ReportedQualifies(ps, s, minSamples, threshold, a, b, i);
    }
    forall i, j | 0 <= i < |ps| && 0 <= j < |ps| && {ps[i].a, ps[i].b} == {a, b} == {ps[j].a, ps[j].b} ensures i == j {
      EntryIsInOrder(ps, s, minSamples, threshold, a, b, i);
      EntryIsInOrder(ps, s, minSamples, threshold, a, b, j);
    }
  }
}
