/** What an inverted index keyed by (platform, ticker) means: a linear scan of the items it was built from. */
module KeyedIndex {

  datatype Key = Key(platform: string, ticker: string)

  function Copies<T>(x: T, n: nat): seq<T> {
    if n == 0 then [] else Copies(x, n - 1) + [x]
  }

  lemma {:induction false} InCopies<T>(x: T, n: nat, y: T)
    ensures y in Copies(x, n) <==> n > 0 && y == x
  {
    if n > 0 { InCopies(x, n - 1, y); }
  }

  function Times(keys: seq<Key>, k: Key): nat {
    if keys == [] then 0 else Times(keys[..|keys| - 1], k) + if keys[|keys| - 1] == k then 1 else 0
  }

  /** Every item in order, once for each occurrence of `k` among the item's keys. */
  function Scan<T>(items: seq<T>, keysOf: T -> seq<Key>, k: Key): seq<T> {
    if items == [] then []
    else
      var x := items[|items| - 1];
      Scan(items[..|items| - 1], keysOf, k) + Copies(x, Times(keysOf(x), k))
  }

  function Lookup<T>(index: map<Key, seq<T>>, k: Key): seq<T> {
    if k in index then index[k] else []
  }

  /** `setdefault(key, []).append(item)`. */
  function File<T>(index: map<Key, seq<T>>, key: Key, x: T): map<Key, seq<T>> {
    index[key := Lookup(index, key) + [x]]
  }

  /** The index answers every lookup as the scan does, and holds no empty list. */
  ghost predicate Indexes<T>(index: map<Key, seq<T>>, items: seq<T>, keysOf: T -> seq<Key>) {
    && (forall k :: Lookup(index, k) == Scan(items, keysOf, k))
    && (forall k :: k in index ==> index[k] != [])
  }

  /** The index part-way through one item's keys. */
  ghost predicate Filing<T>(index: map<Key, seq<T>>, items: seq<T>, keysOf: T -> seq<Key>, x: T, keys: seq<Key>) {
    && (forall k :: Lookup(index, k) == Scan(items, keysOf, k) + Copies(x, Times(keys, k)))
    && (forall k :: k in index ==> index[k] != [])
  }

  lemma FileOneKey<T>(index: map<Key, seq<T>>, base: seq<T>, x: T, keys: seq<Key>, n: nat, k: Key)
    requires n < |keys| && Lookup(index, k) == base + Copies(x, Times(keys[..n], k))
    ensures Lookup(File(index, keys[n], x), k) == base + Copies(x, Times(keys[..n + 1], k))
  {
    var before, after := keys[..n], keys[..n + 1];
    assert after[..n] == before && after[|after| - 1] == keys[n];
    assert Times(after, k) == Times(before, k) + if keys[n] == k then 1 else 0;
  }

  lemma FileOne<T>(index: map<Key, seq<T>>, items: seq<T>, keysOf: T -> seq<Key>, x: T, keys: seq<Key>, n: nat)
    requires n < |keys| && Filing(index, items, keysOf, x, keys[..n])
    ensures Filing(File(index, keys[n], x), items, keysOf, x, keys[..n + 1])
  {
    forall k ensures Lookup(File(index, keys[n], x), k) == Scan(items, keysOf, k) + Copies(x, Times(keys[..n + 1], k)) {
      FileOneKey(index, Scan(items, keysOf, k), x, keys, n, k);
    }
  }

  lemma NothingFiledYet<T>(index: map<Key, seq<T>>, items: seq<T>, keysOf: T -> seq<Key>, x: T)
    requires Indexes(index, items, keysOf)
    ensures Filing(index, items, keysOf, x, [])
  {}

  lemma AllFiled<T>(index: map<Key, seq<T>>, items: seq<T>, keysOf: T -> seq<Key>, n: nat)
    requires n < |items| && Filing(index, items[..n], keysOf, items[n], keysOf(items[n]))
    ensures Indexes(index, items[..n + 1], keysOf)
  {
    assert items[..n + 1][..n] == items[..n];
  }

  /** The index after filing an item under each of its keys, one by one. */
  function FileAll<T>(index: map<Key, seq<T>>, keys: seq<Key>, x: T): map<Key, seq<T>> {
    if keys == [] then index else File(FileAll(index, keys[..|keys| - 1], x), keys[|keys| - 1], x)
  }

  lemma {:induction false} FilingAllPrefix<T>(index: map<Key, seq<T>>, items: seq<T>, keysOf: T -> seq<Key>, x: T,
                                              keys: seq<Key>, n: nat)
    requires n <= |keys| && Filing(index, items, keysOf, x, [])
    ensures Filing(FileAll(index, keys[..n], x), items, keysOf, x, keys[..n])
  {
    if n > 0 {
      FilingAllPrefix(index, items, keysOf, x, keys, n - 1);
      FileOne(FileAll(index, keys[..n - 1], x), items, keysOf, x, keys, n - 1);
      assert keys[..n][..n - 1] == keys[..n - 1];
    } else {
      assert keys[..0] == [];
    }
  }

  /** Filing an item under each of its keys in turn extends the index by that item. */
  lemma FileAllExtends<T>(index: map<Key, seq<T>>, items: seq<T>, keysOf: T -> seq<Key>, x: T)
    requires Indexes(index, items, keysOf)
    ensures Indexes(FileAll(index, keysOf(x), x), items + [x], keysOf)
  {
    var keys, longer := keysOf(x), items + [x];
    NothingFiledYet(index, items, keysOf, x);
    FilingAllPrefix(index, items, keysOf, x, keys, |keys|);
    assert keys[..|keys|] == keys && longer[..|items|] == items && longer[..|items| + 1] == longer;
    AllFiled(FileAll(index, keys, x), longer, keysOf, |items|);
  }

  lemma {:induction false} TimesIsMembership(keys: seq<Key>, k: Key)
    ensures Times(keys, k) > 0 <==> k in keys
  {
    if keys != [] {
      TimesIsMembership(keys[..|keys| - 1], k);
      assert keys == keys[..|keys| - 1] + [keys[|keys| - 1]];
    }
  }

  /** An item is found under exactly the keys it names. */
  lemma {:induction false} FoundExactlyUnderItsKeys<T>(items: seq<T>, keysOf: T -> seq<Key>, k: Key, x: T)
    ensures x in Scan(items, keysOf, k) <==> x in items && k in keysOf(x)
  {
    if items != [] {
      var init, last := items[..|items| - 1], items[|items| - 1];
      FoundExactlyUnderItsKeys(init, keysOf, k, x);
      TimesIsMembership(keysOf(last), k);
      assert items == init + [last];
      InCopies(last, Times(keysOf(last), k), x);
    }
  }

  /** The items naming `k`, each once, in the order they were given. */
  function Naming<T>(items: seq<T>, keysOf: T -> seq<Key>, k: Key): seq<T> {
    if items == [] then []
    else
      var x := items[|items| - 1];
      Naming(items[..|items| - 1], keysOf, k) + if k in keysOf(x) then [x] else []
  }

  predicate Distinct(keys: seq<Key>) {
    forall i, j :: 0 <= i < j < |keys| ==> keys[i] != keys[j]
  }

  lemma {:induction false} DistinctTimes(keys: seq<Key>, k: Key)
    requires Distinct(keys)
    ensures Times(keys, k) == if k in keys then 1 else 0
  {
    if keys != [] {
      DistinctTimes(keys[..|keys| - 1], k);
      assert keys == keys[..|keys| - 1] + [keys[|keys| - 1]];
    }
  }

  /** When no item repeats a key, a lookup is the plain filtered list. */
  lemma {:induction false} ScanIsTheFilteredList<T>(items: seq<T>, keysOf: T -> seq<Key>, k: Key)
    requires forall x :: x in items ==> Distinct(keysOf(x))
    ensures Scan(items, keysOf, k) == Naming(items, keysOf, k)
  {
    if items != [] {
      var x := items[|items| - 1];
      ScanIsTheFilteredList(items[..|items| - 1], keysOf, k);
      assert x in items;
      DistinctTimes(keysOf(x), k);
      assert Copies(x, 0) == [] && Copies(x, 1) == [x];
    }
  }
}
