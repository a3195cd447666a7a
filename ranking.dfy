/**
 * The ranking order of the search results: more reviews first, then higher
 * rating (missing values count as 0), ties keeping their incoming order.
 * Python's `list.sort(key=lambda p: (-count, -rating))` is a stable sort;
 * here it is given by a stable insertion sort.
 */
module Ranking {
  import opened Wrappers
  import opened Places

  /** The two sort keys of a record. */
  datatype SortKey = SortKey(reviews: int, rating: real)

  function KeyOf(p: Place): SortKey {
    SortKey(ReviewCount(p), RatingOf(p))
  }

  /** `p` sorts strictly before `q`. */
  predicate RanksAbove(p: Place, q: Place) {
    ReviewCount(p) > ReviewCount(q) || (ReviewCount(p) == ReviewCount(q) && RatingOf(p) > RatingOf(q))
  }

  /** Review count descending, then rating descending. */
  predicate SortedByRank(s: seq<Place>) {
    forall i, j :: 0 <= i < j < |s| ==> !RanksAbove(s[j], s[i])
  }

  /** The records of `s` whose sort key is `k`, in their order in `s`. */
  function WithKey(s: seq<Place>, k: SortKey): seq<Place> {
    if s == [] then []
    else (if KeyOf(s[0]) == k then [s[0]] else []) + WithKey(s[1..], k)
  }

  /** Places `x` before the first record that does not rank strictly above it. */
  function Insert(x: Place, s: seq<Place>): seq<Place> {
    if s == [] || !RanksAbove(s[0], x) then [x] + s
    else [s[0]] + Insert(x, s[1..])
  }

  /** The ranked order of `s`. */
  function StableSort(s: seq<Place>): seq<Place> {
    if s == [] then [] else Insert(s[0], StableSort(s[1..]))
  }

  lemma {:induction false} InsertMembers(x: Place, s: seq<Place>)
    ensures multiset(Insert(x, s)) == multiset(s) + multiset{x}
    ensures forall y :: y in Insert(x, s) <==> y == x || y in s
    decreases |s|
  {
    if s != [] && RanksAbove(s[0], x) {
      InsertMembers(x, s[1..]);
      assert s == [s[0]] + s[1..];
    }
  }

  lemma {:induction false} InsertSorted(x: Place, s: seq<Place>)
    requires SortedByRank(s)
    ensures SortedByRank(Insert(x, s))
    decreases |s|
  {
    if s != [] && RanksAbove(s[0], x) {
      var t := Insert(x, s[1..]);
      InsertSorted(x, s[1..]);
      InsertMembers(x, s[1..]);
      assert forall y :: y in s[1..] ==> !RanksAbove(y, s[0]);
      assert forall y :: y in t ==> !RanksAbove(y, s[0]);
      var r := [s[0]] + t;
      forall i, j | 0 <= i < j < |r| ensures !RanksAbove(r[j], r[i]) {
        if i > 0 {
          assert r[i] == t[i - 1] && r[j] == t[j - 1];
        } else {
          assert r[j] in t;
        }
      }
    }
  }

  /** Inserting passes only records of a strictly different (higher) key. */
  lemma {:induction false} InsertWithKey(x: Place, s: seq<Place>, k: SortKey)
    ensures WithKey(Insert(x, s), k) == (if KeyOf(x) == k then [x] else []) + WithKey(s, k)
    decreases |s|
  {
    if s == [] || !RanksAbove(s[0], x) {
      assert ([x] + s)[1..] == s;
    } else {
      InsertWithKey(x, s[1..], k);
      assert ([s[0]] + Insert(x, s[1..]))[1..] == Insert(x, s[1..]);
    }
  }

  /**
   * The ranked order is sorted, is a permutation of its input, and is
   * stable: the records sharing a sort key appear in their input order.
   */
  lemma {:induction false} StableSortCorrect(s: seq<Place>)
    ensures SortedByRank(StableSort(s))
    ensures multiset(StableSort(s)) == multiset(s)
    ensures forall k :: WithKey(StableSort(s), k) == WithKey(s, k)
    decreases |s|
  {
    if s != [] {
      StableSortCorrect(s[1..]);
      InsertSorted(s[0], StableSort(s[1..]));
      InsertMembers(s[0], StableSort(s[1..]));
      assert s == [s[0]] + s[1..];
      forall k ensures WithKey(StableSort(s), k) == WithKey(s, k) {
        InsertWithKey(s[0], StableSort(s[1..]), k);
      }
    }
  }

  lemma {:induction false} WithKeyMembers(s: seq<Place>, k: SortKey)
    ensures forall x :: x in WithKey(s, k) <==> x in s && KeyOf(x) == k
    decreases |s|
  {
    if s != [] {
      WithKeyMembers(s[1..], k);
      assert s == [s[0]] + s[1..];
    }
  }

  /**
   * A sorted sequence is determined by its per-key subsequences: two sorted
   * sequences that agree on every key are equal.
   */
  lemma {:induction false} SortedDeterminedByKeys(r1: seq<Place>, r2: seq<Place>)
    requires SortedByRank(r1) && SortedByRank(r2)
    requires forall k :: WithKey(r1, k) == WithKey(r2, k)
    ensures r1 == r2
    decreases |r1| + |r2|
  {
    if r1 == [] && r2 == [] {
    } else if r1 == [] {
      WithKeyMembers(r2, KeyOf(r2[0]));
      assert false;
    } else if r2 == [] {
      WithKeyMembers(r1, KeyOf(r1[0]));
      assert false;
    } else {
      var k1, k2 := KeyOf(r1[0]), KeyOf(r2[0]);
      WithKeyMembers(r1, k1);
      WithKeyMembers(r2, k1);
      WithKeyMembers(r1, k2);
      WithKeyMembers(r2, k2);
      // Each head occurs in the other sequence, so neither ranks above the other.
      var i :| 0 <= i < |r2| && r2[i] == r1[0];
      var j :| 0 <= j < |r1| && r1[j] == r2[0];
      assert !RanksAbove(r1[0], r2[0]) by { if i > 0 { assert !RanksAbove(r2[i], r2[0]); } }
      assert !RanksAbove(r2[0], r1[0]) by { if j > 0 { assert !RanksAbove(r1[j], r1[0]); } }
      assert k1 == k2;
      assert WithKey(r1, k1)[0] == r1[0];
      assert WithKey(r2, k1)[0] == r2[0];
      assert r1[0] == r2[0];
      forall k ensures WithKey(r1[1..], k) == WithKey(r2[1..], k) {
        var head := if k1 == k then [r1[0]] else [];
        assert WithKey(r1, k) == head + WithKey(r1[1..], k);
        assert WithKey(r2, k) == head + WithKey(r2[1..], k);
        assert WithKey(r1[1..], k) == WithKey(r1, k)[|head|..];
      }
      SortedDeterminedByKeys(r1[1..], r2[1..]);
      assert r1 == [r1[0]] + r1[1..] && r2 == [r2[0]] + r2[1..];
    }
  }

  /**
   * Any stable sort by the two keys yields exactly `StableSort(s)`: a
   * sorted sequence that keeps the order of every key's records is it.
   */
  lemma StableSortUnique(s: seq<Place>, r: seq<Place>)
    requires SortedByRank(r)
    requires forall k :: WithKey(r, k) == WithKey(s, k)
    ensures r == StableSort(s)
  {
    StableSortCorrect(s);
    SortedDeterminedByKeys(r, StableSort(s));
  }

  /** 50 reviews at 4.0 rank above 10 reviews at 4.9: review count decides first. */
  lemma RankingExample(a: Place, b: Place)
    requires a.userRatingCount == Some(10) && a.rating == Some(4.9)
    requires b.userRatingCount == Some(50) && b.rating == Some(4.0)
    ensures StableSort([a, b]) == [b, a]
  {
    assert [a, b][1..] == [b];
    assert StableSort([b]) == Insert(b, []) == [b];
    assert RanksAbove(b, a);
    assert [b][1..] == [];
    assert Insert(a, [b]) == [b] + Insert(a, []) == [b, a];
  }
}
