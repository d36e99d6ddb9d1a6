/** The nested loop over all unordered pairs of a list without repetitions, and what it collects. */
module PairScan {
  import opened Basics

  datatype Hit<T, V> = Hit(a: T, b: T, value: V)

  function Kept<T, V>(a: T, b: T, found: Option<V>): seq<Hit<T, V>> {
    if found.Some? then [Hit(a, b, found.value)] else []
  }

  /** What the scan has collected when it is about to compare items `i` and `n`. */
  ghost function Collected<T(!new), V(!new)>(find: (T, T) -> Option<V>, ms: seq<T>, i: nat, n: nat): seq<Hit<T, V>>
    requires i <= |ms| && n <= |ms|
    decreases i, n
  {
    if n > i + 1 then Collected(find, ms, i, n - 1) + Kept(ms[i], ms[n - 1], find(ms[i], ms[n - 1]))
    else if i == 0 then []
    else Collected(find, ms, i - 1, |ms|)
  }

  /** What the first `n` items find among the items after them. */
  ghost function AllHits<T(!new), V(!new)>(find: (T, T) -> Option<V>, ms: seq<T>, n: nat): seq<Hit<T, V>>
    requires n <= |ms|
  {
    Collected(find, ms, n, 0)
  }

  ghost predicate FoundAt<T(!new), V(!new)>(find: (T, T) -> Option<V>, ms: seq<T>, h: Hit<T, V>, i: int, j: int) {
    0 <= i < j < |ms| && h.a == ms[i] && h.b == ms[j] && find(h.a, h.b) == Some(h.value)
  }

  /** Whether the scan meets position (x, y) before it compares items `i` and `n`. */
  predicate Earlier(x: int, y: int, i: int, n: int) {
    x < i || (x == i && y < n)
  }

  /** A collected hit was found at an earlier position. */
  lemma {:induction false} HitWasFound<T(!new), V(!new)>(find: (T, T) -> Option<V>, ms: seq<T>, i: nat, n: nat, h: Hit<T, V>)
    returns (x: nat, y: nat)
    requires i <= |ms| && n <= |ms| && h in Collected(find, ms, i, n)
    ensures Earlier(x, y, i, n) && FoundAt(find, ms, h, x, y)
    decreases i, n
  {
    if n <= i + 1 {
      x, y := HitWasFound(find, ms, i - 1, |ms|, h);
    } else if h in Collected(find, ms, i, n - 1) {
      x, y := HitWasFound(find, ms, i, n - 1, h);
    } else {
      x, y := i, n - 1;
    }
  }

  lemma FoundNow<T(!new), V(!new)>(find: (T, T) -> Option<V>, ms: seq<T>, i: nat, j: nat, h: Hit<T, V>)
    requires FoundAt(find, ms, h, i, j)
    ensures h in Collected(find, ms, i, j + 1)
  {
    var kept := Kept(ms[i], ms[j], find(ms[i], ms[j]));
    assert kept == [h];
    assert Collected(find, ms, i, j + 1) == Collected(find, ms, i, j) + [h];
  }

  /** The inner loop only appends. */
  lemma {:induction false} RowAppends<T(!new), V(!new)>(find: (T, T) -> Option<V>, ms: seq<T>, i: nat, m: nat, n: nat)
    requires i < m <= n <= |ms|
    ensures Collected(find, ms, i, m) <= Collected(find, ms, i, n)
    decreases n
  {
    if m < n { RowAppends(find, ms, i, m, n - 1); }
  }

  /** The outer loop only appends. */
  lemma {:induction false} RowsAppend<T(!new), V(!new)>(find: (T, T) -> Option<V>, ms: seq<T>, i: nat, n: nat)
    requires i < n <= |ms|
    ensures Collected(find, ms, i, |ms|) <= AllHits(find, ms, n)
    decreases n
  {
    if i < n - 1 {
      RowsAppend(find, ms, i, n - 1);
      RowAppends(find, ms, n - 1, n, |ms|);
    }
  }

  lemma FoundIsCollected<T(!new), V(!new)>(find: (T, T) -> Option<V>, ms: seq<T>, n: nat, h: Hit<T, V>, i: nat, j: nat)
    requires i < n <= |ms| && FoundAt(find, ms, h, i, j)
    ensures h in AllHits(find, ms, n)
  {
    FoundNow(find, ms, i, j, h);
    RowAppends(find, ms, i, j + 1, |ms|);
    RowsAppend(find, ms, i, n);
  }

  predicate Distinct<T(==)>(ms: seq<T>) {
    forall i, j :: 0 <= i < j < |ms| ==> ms[i] != ms[j]
  }

  predicate OncePerPair<T(==, !new), V(!new)>(hs: seq<Hit<T, V>>) {
    forall i, j :: 0 <= i < j < |hs| ==> (hs[i].a, hs[i].b) != (hs[j].a, hs[j].b)
  }

  function Names<T(==, !new), V(!new)>(hs: seq<Hit<T, V>>): set<(T, T)> {
    set i | 0 <= i < |hs| :: (hs[i].a, hs[i].b)
  }

  lemma AddNewPair<T(!new), V(!new)>(hs: seq<Hit<T, V>>, h: Hit<T, V>)
    requires OncePerPair(hs) && (h.a, h.b) !in Names(hs)
    ensures Names(hs + [h]) == Names(hs) + {(h.a, h.b)} && OncePerPair(hs + [h])
  {
    var longer := hs + [h];
    assert longer[|hs|] == h && forall i :: 0 <= i < |hs| ==> longer[i] == hs[i];
    assert forall i :: 0 <= i < |hs| ==> (hs[i].a, hs[i].b) in Names(hs);
  }

  /** When the loop reaches a pair it has not met that pair before. */
  lemma PairIsNew<T(!new), V(!new)>(find: (T, T) -> Option<V>, ms: seq<T>, i: nat, j: nat)
    requires Distinct(ms) && i < j < |ms|
    ensures (ms[i], ms[j]) !in Names(Collected(find, ms, i, j))
  {
    var done := Collected(find, ms, i, j);
    forall k | 0 <= k < |done| ensures (done[k].a, done[k].b) != (ms[i], ms[j]) {
      var x, y := HitWasFound(find, ms, i, j, done[k]);
    }
  }

  /** The loop's state: everything found so far, each pair once, with its names in the set of seen pairs. */
  ghost predicate Scanning<T(!new), V(!new)>(hs: seq<Hit<T, V>>, seen: set<(T, T)>, found: seq<Hit<T, V>>) {
    hs == found && OncePerPair(hs) && seen == Names(hs)
  }

  /** One turn of the inner loop: the pair is never among those seen, and recording it keeps the state. */
  lemma ScanStep<T(!new), V(!new)>(find: (T, T) -> Option<V>, ms: seq<T>, i: nat, j: nat, hs: seq<Hit<T, V>>,
                                   seen: set<(T, T)>, found: Option<V>)
    requires Distinct(ms) && i < j < |ms| && found == find(ms[i], ms[j])
    requires Scanning(hs, seen, Collected(find, ms, i, j))
    ensures (ms[i], ms[j]) !in seen
    ensures Scanning(hs + Kept(ms[i], ms[j], found), if found.Some? then seen + {(ms[i], ms[j])} else seen,
              Collected(find, ms, i, j + 1))
  {
    PairIsNew(find, ms, i, j);
    if found.Some? { AddNewPair(hs, Hit(ms[i], ms[j], found.value)); } else { assert hs + [] == hs; }
    assert Collected(find, ms, i, j + 1) == Collected(find, ms, i, j) + Kept(ms[i], ms[j], found);
  }

  lemma RowEdges<T(!new), V(!new)>(find: (T, T) -> Option<V>, ms: seq<T>, i: nat)
    requires i < |ms|
    ensures Collected(find, ms, i, i + 1) == AllHits(find, ms, i)
    ensures Collected(find, ms, i, |ms|) == AllHits(find, ms, i + 1)
  {}

  function SortedPair<T(!new)>(a: T, b: T, le: (T, T) -> bool): (T, T) {
    if le(a, b) then (a, b) else (b, a)
  }

  /** The nested loop, with the set of pairs already seen that guards every append. */
  method ScanPairs<T(==, !new), V(!new)>(find: (T, T) -> Option<V>, ms: seq<T>, le: (T, T) -> bool)
    returns (out: seq<Hit<T, V>>)
    requires Distinct(ms) && forall i, j :: 0 <= i < j < |ms| ==> le(ms[i], ms[j])
    ensures out == AllHits(find, ms, |ms|) && OncePerPair(out)
  {
    out := [];
    var seen: set<(T, T)> := {};
    for i := 0 to |ms|
      invariant Scanning(out, seen, AllHits(find, ms, i))
    {
      RowEdges(find, ms, i);
      for j := i + 1 to |ms|
        invariant Scanning(out, seen, Collected(find, ms, i, j))
      {
        var found := find(ms[i], ms[j]);
        ScanStep(find, ms, i, j, out, seen, found);
        if found.Some? {
          var key := SortedPair(ms[i], ms[j], le);
          if key !in seen {
            seen := seen + {key};
            out := out + [Hit(key.0, key.1, found.value)];
          }
        } else {
          assert out + [] == out;
        }
      }
    }
  }

  /** Over the whole list: a hit is collected if and only if its two items stand in list order and match. */
  lemma CollectsExactlyTheMatches<T(!new), V(!new)>(find: (T, T) -> Option<V>, ms: seq<T>, h: Hit<T, V>)
    ensures h in AllHits(find, ms, |ms|) <==> exists i, j :: FoundAt(find, ms, h, i, j)
  {
    if h in AllHits(find, ms, |ms|) {
      var i, j := HitWasFound(find, ms, |ms|, 0, h);
    } else if i, j :| FoundAt(find, ms, h, i, j) {
      FoundIsCollected(find, ms, |ms|, h, i, j);
    }
  }

  // -------------------------------------------------- sorting by strength

  predicate Descending<T(!new), V(!new)>(hs: seq<Hit<T, V>>, strength: V -> real) {
    forall i, j :: 0 <= i < j < |hs| ==> strength(hs[i].value) >= strength(hs[j].value)
  }

  /** Stable: an equally strong newcomer goes after those already there. */
  function Insert<T(!new), V(!new)>(hs: seq<Hit<T, V>>, h: Hit<T, V>, strength: V -> real): (r: seq<Hit<T, V>>)
    ensures |r| == |hs| + 1 && forall x :: x in r <==> x in hs || x == h
  {
    if hs == [] || strength(hs[|hs| - 1].value) >= strength(h.value) then hs + [h]
    else
      var init, last := hs[..|hs| - 1], hs[|hs| - 1];
      assert hs == init + [last];
      Insert(init, h, strength) + [last]
  }

  function SortByStrength<T(!new), V(!new)>(hs: seq<Hit<T, V>>, strength: V -> real): (r: seq<Hit<T, V>>)
    ensures |r| == |hs| && forall x :: x in r <==> x in hs
  {
    if hs == [] then []
    else
      assert hs == hs[..|hs| - 1] + [hs[|hs| - 1]];
      Insert(SortByStrength(hs[..|hs| - 1], strength), hs[|hs| - 1], strength)
  }

  lemma {:induction false} InsertDescends<T(!new), V(!new)>(hs: seq<Hit<T, V>>, h: Hit<T, V>, strength: V -> real)
    requires Descending(hs, strength)
    ensures Descending(Insert(hs, h, strength), strength)
  {
    if hs != [] && strength(hs[|hs| - 1].value) < strength(h.value) {
      var init, last := hs[..|hs| - 1], hs[|hs| - 1];
      InsertDescends(init, h, strength);
      var r := Insert(init, h, strength);
      forall i | 0 <= i < |r| ensures strength(r[i].value) >= strength(last.value) {
        assert r[i] in r;
      }
    }
  }

  lemma {:induction false} SortDescends<T(!new), V(!new)>(hs: seq<Hit<T, V>>, strength: V -> real)
    ensures Descending(SortByStrength(hs, strength), strength)
  {
    if hs != [] {
      SortDescends(hs[..|hs| - 1], strength);
      InsertDescends(SortByStrength(hs[..|hs| - 1], strength), hs[|hs| - 1], strength);
    }
  }

  ghost predicate Fresh<T(!new), V(!new)>(hs: seq<Hit<T, V>>, h: Hit<T, V>) {
    forall x :: x in hs ==> (x.a, x.b) != (h.a, h.b)
  }

  lemma {:induction false} InsertKeepsOnce<T(!new), V(!new)>(hs: seq<Hit<T, V>>, h: Hit<T, V>, strength: V -> real)
    requires OncePerPair(hs) && Fresh(hs, h)
    ensures OncePerPair(Insert(hs, h, strength))
  {
    if hs != [] && strength(hs[|hs| - 1].value) < strength(h.value) {
      var init, last := hs[..|hs| - 1], hs[|hs| - 1];
      InsertKeepsOnce(init, h, strength);
      var r := Insert(init, h, strength);
      forall i | 0 <= i < |r| ensures (r[i].a, r[i].b) != (last.a, last.b) {
        assert r[i] in r && last in hs;
      }
    }
  }

  lemma {:induction false} SortKeepsOnce<T(!new), V(!new)>(hs: seq<Hit<T, V>>, strength: V -> real)
    requires OncePerPair(hs)
    ensures OncePerPair(SortByStrength(hs, strength))
  {
    if hs != [] {
      var init, last := hs[..|hs| - 1], hs[|hs| - 1];
      SortKeepsOnce(init, strength);
      InsertKeepsOnce(SortByStrength(init, strength), last, strength);
    }
  }

  // ------------------------------------------------------------------ ties

  /** The hits of one strength, in order. */
  function OfStrength<T(!new), V(!new)>(hs: seq<Hit<T, V>>, strength: V -> real, x: real): seq<Hit<T, V>> {
    if hs == [] then []
    else
      OfStrength(hs[..|hs| - 1], strength, x) + if strength(hs[|hs| - 1].value) == x then [hs[|hs| - 1]] else []
  }

  lemma OfStrengthOneMore<T(!new), V(!new)>(hs: seq<Hit<T, V>>, h: Hit<T, V>, strength: V -> real, x: real)
    ensures OfStrength(hs + [h], strength, x) == OfStrength(hs, strength, x) + if strength(h.value) == x then [h] else []
  {
    assert (hs + [h])[..|hs|] == hs;
  }

  lemma {:induction false} InsertIsStable<T(!new), V(!new)>(hs: seq<Hit<T, V>>, h: Hit<T, V>, strength: V -> real, x: real)
    requires Descending(hs, strength)
    ensures OfStrength(Insert(hs, h, strength), strength, x)
         == OfStrength(hs, strength, x) + if strength(h.value) == x then [h] else []
    decreases |hs|
  {
    if hs == [] || strength(hs[|hs| - 1].value) >= strength(h.value) {
      OfStrengthOneMore(hs, h, strength, x);
    } else {
      var init, last := hs[..|hs| - 1], hs[|hs| - 1];
      InsertIsStable(init, h, strength, x);
      OfStrengthOneMore(Insert(init, h, strength), last, strength, x);
    }
  }

  /** Sorting keeps hits of equal strength in the order in which they were found. */
  lemma {:induction false} SortIsStable<T(!new), V(!new)>(hs: seq<Hit<T, V>>, strength: V -> real, x: real)
    ensures OfStrength(SortByStrength(hs, strength), strength, x) == OfStrength(hs, strength, x)
    decreases |hs|
  {
    if hs != [] {
      var init, last := hs[..|hs| - 1], hs[|hs| - 1];
      SortIsStable(init, strength, x);
      SortDescends(init, strength);
      InsertIsStable(SortByStrength(init, strength), last, strength, x);
    }
  }
}
