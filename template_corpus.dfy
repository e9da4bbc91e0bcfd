/**
 * The template tiers: multimaps from a canonical SMILES key (null when the
 * SMILES generator failed) to the graphs put under it, and the selection
 * the template writer makes from them: keys sorted by non-increasing
 * frequency, keeping those seen at least twice.
 */
module Corpus {
  import opened Wrappers
  import opened Molecules

  /** A canonical SMILES string, or null. */
  type Key = Option<string>

  /** A hash multimap: every put adds a freshly built graph, so entries are never merged. */
  type Multimap = map<Key, seq<Molecule>>

  function Entries(mm: Multimap, k: Key): seq<Molecule> {
    if k in mm then mm[k] else []
  }

  /** How many graphs were put under k. */
  function Count(mm: Multimap, k: Key): nat {
    |Entries(mm, k)|
  }

  /** Multimap.put: one more entry under k, every other key untouched. */
  function Put(mm: Multimap, k: Key, v: Molecule): (r: Multimap)
    ensures r.Keys == mm.Keys + {k}
    ensures Entries(r, k) == Entries(mm, k) + [v]
    ensures forall k' | k' != k :: Entries(r, k') == Entries(mm, k')
  {
    mm[k := Entries(mm, k) + [v]]
  }

  /** A put guarded by containsKey: the first graph under a key stays the only one. */
  function PutIfAbsent(mm: Multimap, k: Key, v: Molecule): (r: Multimap)
    ensures r.Keys == mm.Keys + {k}
    ensures k in mm ==> r == mm
    ensures k !in mm ==> Entries(r, k) == [v]
    ensures forall k' | k' != k :: Entries(r, k') == Entries(mm, k')
  {
    if k in mm then mm else mm[k := [v]]
  }

  /** A put leaves every key with at least one entry. */
  lemma PutNonEmpty(mm: Multimap, k: Key, v: Molecule)
    requires forall k' | k' in mm :: |mm[k']| >= 1
    ensures var r := Put(mm, k, v); forall k' | k' in r :: |r[k']| >= 1
  {
    var r := Put(mm, k, v);
    forall k' | k' in r ensures |r[k']| >= 1 {
      assert r[k'] == Entries(r, k');
    }
  }

  /** A guarded put leaves every key with exactly one entry. */
  lemma PutIfAbsentSingle(mm: Multimap, k: Key, v: Molecule)
    requires forall k' | k' in mm :: |mm[k']| == 1
    ensures var r := PutIfAbsent(mm, k, v); forall k' | k' in r :: |r[k']| == 1
  {
  }

  /** One put under k1 followed by two puts of the same graph under k2. */
  lemma ThreePuts(mm: Multimap, k1: Key, v1: Molecule, k2: Key, v2: Molecule)
    ensures var r := Put(Put(Put(mm, k1, v1), k2, v2), k2, v2);
      && r.Keys == mm.Keys + {k1, k2}
      && forall k :: Entries(r, k) == Entries(mm, k)
                                     + (if k == k1 then [v1] else [])
                                     + (if k == k2 then [v2, v2] else [])
  {
    var m1 := Put(mm, k1, v1);
    var m2 := Put(m1, k2, v2);
    var r := Put(m2, k2, v2);
    forall k ensures Entries(r, k) == Entries(mm, k)
                                     + (if k == k1 then [v1] else [])
                                     + (if k == k2 then [v2, v2] else [])
    {
      if k == k2 {
        assert Entries(r, k) == Entries(m1, k) + [v2] + [v2];
      }
    }
  }

  predicate Distinct(ks: seq<Key>) {
    forall i, j | 0 <= i < j < |ks| :: ks[i] != ks[j]
  }

  /** Keys in order of non-increasing entry count. */
  predicate NonIncreasing(ks: seq<Key>, mm: Multimap) {
    forall i, j | 0 <= i < j < |ks| :: Count(mm, ks[i]) >= Count(mm, ks[j])
  }

  // ---------------------------------------------------------------------------
  // The in-place list sort by the comparator `o2.size - o1.size`, as a stable
  // insertion sort on a sequence.

  /** Places k before the first key whose count is not above k's. */
  function InsertByCount(k: Key, ks: seq<Key>, mm: Multimap): seq<Key> {
    if ks == [] then [k]
    else if Count(mm, ks[0]) > Count(mm, k) then [ks[0]] + InsertByCount(k, ks[1..], mm)
    else [k] + ks
  }

  function SortByCount(ks: seq<Key>, mm: Multimap): seq<Key> {
    if ks == [] then [] else InsertByCount(ks[0], SortByCount(ks[1..], mm), mm)
  }

  lemma {:induction false} InsertByCountPermutes(k: Key, ks: seq<Key>, mm: Multimap)
    ensures multiset(InsertByCount(k, ks, mm)) == multiset(ks) + multiset{k}
  {
    if ks != [] && Count(mm, ks[0]) > Count(mm, k) {
      var rest := InsertByCount(k, ks[1..], mm);
      InsertByCountPermutes(k, ks[1..], mm);
      calc {
        multiset(InsertByCount(k, ks, mm));
        multiset([ks[0]] + rest);
        multiset([ks[0]]) + multiset(rest);
        multiset([ks[0]]) + multiset(ks[1..]) + multiset{k};
        { assert ks == [ks[0]] + ks[1..]; }
        multiset(ks) + multiset{k};
      }
    } else {
      assert multiset([k] + ks) == multiset{k} + multiset(ks);
    }
  }

  /** The inserted list holds k and the keys of ks, and nothing else. */
  lemma {:induction false} InsertByCountMembers(k: Key, ks: seq<Key>, mm: Multimap)
    ensures forall x :: x in InsertByCount(k, ks, mm) <==> x == k || x in ks
  {
    if ks != [] && Count(mm, ks[0]) > Count(mm, k) {
      InsertByCountMembers(k, ks[1..], mm);
      assert ks == [ks[0]] + ks[1..];
    }
  }

  /** Every key of a non-increasing list counts at most as much as its head. */
  lemma HeadBounds(ks: seq<Key>, mm: Multimap, x: Key)
    requires NonIncreasing(ks, mm) && x in ks
    ensures Count(mm, ks[0]) >= Count(mm, x)
  {
    var m :| 0 <= m < |ks| && ks[m] == x;
    if m > 0 {
      assert Count(mm, ks[0]) >= Count(mm, ks[m]);
    }
  }

  lemma {:induction false} InsertByCountSorted(k: Key, ks: seq<Key>, mm: Multimap)
    requires NonIncreasing(ks, mm)
    ensures NonIncreasing(InsertByCount(k, ks, mm), mm)
  {
    if ks == [] {
    } else if Count(mm, ks[0]) > Count(mm, k) {
      var tail := ks[1..];
      assert NonIncreasing(tail, mm) by {
        forall i, j | 0 <= i < j < |tail| ensures Count(mm, tail[i]) >= Count(mm, tail[j]) {
          assert tail[i] == ks[i + 1] && tail[j] == ks[j + 1];
        }
      }
      InsertByCountSorted(k, tail, mm);
      var rest := InsertByCount(k, tail, mm);
      InsertByCountMembers(k, tail, mm);
      var r := [ks[0]] + rest;
      assert InsertByCount(k, ks, mm) == r;
      forall i, j | 0 <= i < j < |r| ensures Count(mm, r[i]) >= Count(mm, r[j]) {
        assert r[j] == rest[j - 1];
        if i > 0 {
          assert r[i] == rest[i - 1];
        } else if r[j] != k {
          assert r[j] in tail;
          HeadBounds(ks, mm, r[j]);
        }
      }
    } else {
      var r := [k] + ks;
      assert InsertByCount(k, ks, mm) == r;
      forall i, j | 0 <= i < j < |r| ensures Count(mm, r[i]) >= Count(mm, r[j]) {
        assert r[j] == ks[j - 1];
        if i > 0 {
          assert r[i] == ks[i - 1];
        } else {
          HeadBounds(ks, mm, ks[j - 1]);
        }
      }
    }
  }

  /** The sort reorders its input and leaves it in non-increasing count order. */
  lemma {:induction false} SortByCountSorted(ks: seq<Key>, mm: Multimap)
    ensures NonIncreasing(SortByCount(ks, mm), mm)
    ensures multiset(SortByCount(ks, mm)) == multiset(ks)
  {
    if ks != [] {
      SortByCountSorted(ks[1..], mm);
      InsertByCountSorted(ks[0], SortByCount(ks[1..], mm), mm);
      InsertByCountPermutes(ks[0], SortByCount(ks[1..], mm), mm);
      assert ks == [ks[0]] + ks[1..];
    }
  }

  lemma DistinctOfMultiset(a: seq<Key>, b: seq<Key>)
    requires multiset(a) == multiset(b) && Distinct(a)
    ensures Distinct(b)
  {
    forall i, j | 0 <= i < j < |b| ensures b[i] != b[j] {
      if b[i] == b[j] {
        assert b == b[..i] + [b[i]] + b[i + 1..j] + [b[j]] + b[j + 1..];
        assert multiset(b)[b[i]] >= 2;
        DistinctCount(a, b[i]);
      }
    }
  }

  lemma {:induction false} DistinctCount(a: seq<Key>, x: Key)
    requires Distinct(a)
    ensures multiset(a)[x] <= 1
  {
    if a != [] {
      assert a == [a[0]] + a[1..];
      DistinctCount(a[1..], x);
      if a[0] == x {
        assert x !in a[1..];
      }
    }
  }

  // ---------------------------------------------------------------------------
  // The frequency threshold

  /** The keys of ks with at least two entries, in order. */
  function Frequent(ks: seq<Key>, mm: Multimap): seq<Key> {
    if ks == [] then []
    else
      var last := ks[|ks| - 1];
      Frequent(ks[..|ks| - 1], mm) + (if Count(mm, last) >= 2 then [last] else [])
  }

  lemma {:induction false} FrequentMembers(ks: seq<Key>, mm: Multimap)
    ensures forall k :: k in Frequent(ks, mm) <==> k in ks && Count(mm, k) >= 2
  {
    if ks != [] {
      var init := ks[..|ks| - 1];
      assert ks == init + [ks[|ks| - 1]];
      FrequentMembers(init, mm);
    }
  }

  /** The threshold keeps a subsequence, so the order carries over. */
  lemma {:induction false} FrequentOrdered(ks: seq<Key>, mm: Multimap)
    requires NonIncreasing(ks, mm)
    ensures NonIncreasing(Frequent(ks, mm), mm)
  {
    if ks != [] {
      var init := ks[..|ks| - 1];
      var last := ks[|ks| - 1];
      assert NonIncreasing(init, mm);
      FrequentOrdered(init, mm);
      FrequentMembers(init, mm);
      var f := Frequent(init, mm);
      if Count(mm, last) >= 2 {
        var r := f + [last];
        assert Frequent(ks, mm) == r;
        forall i, j | 0 <= i < j < |r| ensures Count(mm, r[i]) >= Count(mm, r[j]) {
          assert r[i] == f[i];
          if j == |f| {
            assert f[i] in init;
            var m :| 0 <= m < |init| && init[m] == f[i];
            assert ks[m] == f[i] && ks[|ks| - 1] == r[j];
          } else {
            assert r[j] == f[j];
          }
        }
      } else {
        assert Frequent(ks, mm) == f;
      }
    }
  }

  lemma {:induction false} FrequentDistinct(ks: seq<Key>, mm: Multimap)
    requires Distinct(ks)
    ensures Distinct(Frequent(ks, mm))
  {
    if ks != [] {
      var init := ks[..|ks| - 1];
      var last := ks[|ks| - 1];
      assert Distinct(init);
      FrequentDistinct(init, mm);
      FrequentMembers(init, mm);
      assert last !in init;
    }
  }

  /** The keys the template writer exports, in output order. */
  function ExportedKeys(order: seq<Key>, mm: Multimap): seq<Key> {
    Frequent(SortByCount(order, mm), mm)
  }

  /**
   * Given the multimap's key order, exactly the keys with at least two entries
   * are exported, each once, in non-increasing entry-count order.
   */
  lemma ExportedKeysSelection(order: seq<Key>, mm: Multimap)
    requires Distinct(order) && (forall k :: k in order <==> k in mm)
    ensures var e := ExportedKeys(order, mm);
      && (forall k :: k in e <==> k in mm && |mm[k]| >= 2)
      && Distinct(e)
      && NonIncreasing(e, mm)
  {
    var sorted := SortByCount(order, mm);
    SortByCountSorted(order, mm);
    DistinctOfMultiset(order, sorted);
    FrequentMembers(sorted, mm);
    FrequentOrdered(sorted, mm);
    FrequentDistinct(sorted, mm);
    forall k ensures k in sorted <==> k in order {
      assert k in sorted <==> k in multiset(sorted);
    }
  }

  /** A key put only once is not exported; one put twice is. */
  lemma ThresholdIsTwo(order: seq<Key>, mm: Multimap, k: Key)
    requires Distinct(order) && (forall k :: k in order <==> k in mm)
    ensures Count(mm, k) == 1 ==> k !in ExportedKeys(order, mm)
    ensures Count(mm, k) == 2 ==> k in ExportedKeys(order, mm)
  {
    ExportedKeysSelection(order, mm);
  }
}
