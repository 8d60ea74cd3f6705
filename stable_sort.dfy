/**
 * `Array.prototype.sort` with a comparator of the form `key(a) - key(b)`:
 * since ES2019 the sort is stable, so the result is the list ordered by the
 * key, with items of equal key left in their original order.
 *
 * `SortBy` is an insertion sort that places each item after every earlier
 * item whose key is not larger; the lemmas prove that it orders by the key,
 * is a permutation, and is stable.
 */
module StableSort {
  import opened Tables

  /** Keys never decrease along `s`. */
  ghost predicate Sorted<T>(s: seq<T>, key: T -> int) {
    forall i, j :: 0 <= i < j < |s| ==> key(s[i]) <= key(s[j])
  }

  /** Puts `x` after the last item of `s` whose key is at most `key(x)`, scanning from the end. */
  function Insert<T>(s: seq<T>, x: T, key: T -> int): (r: seq<T>)
    ensures multiset(r) == multiset(s) + multiset{x}
  {
    if |s| == 0 || key(s[|s| - 1]) <= key(x) then s + [x]
    else
      assert s == s[..|s| - 1] + [s[|s| - 1]];
      Insert(s[..|s| - 1], x, key) + [s[|s| - 1]]
  }

  /** Every key in `s` is at most `b`. */
  ghost predicate AtMost<T>(s: seq<T>, key: T -> int, b: int) {
    forall i :: 0 <= i < |s| ==> key(s[i]) <= b
  }

  /** Inserting an item whose key is at most `b` keeps every key at most `b`. */
  lemma InsertAtMost<T>(s: seq<T>, x: T, key: T -> int, b: int)
    requires AtMost(s, key, b) && key(x) <= b
    ensures AtMost(Insert(s, x, key), key, b)
  {
    var r := Insert(s, x, key);
    forall i | 0 <= i < |r|
      ensures key(r[i]) <= b
    {
      assert r[i] in multiset(s) + multiset{x};
    }
  }

  /** Appending an item no smaller than every key keeps a list ordered. */
  lemma SortedSnoc<T>(s: seq<T>, y: T, key: T -> int)
    requires Sorted(s, key) && AtMost(s, key, key(y))
    ensures Sorted(s + [y], key)
  {
  }

  /** Inserting into an ordered list keeps it ordered. */
  lemma {:induction false} InsertSorted<T>(s: seq<T>, x: T, key: T -> int)
    requires Sorted(s, key)
    ensures Sorted(Insert(s, x, key), key)
    decreases |s|
  {
    if |s| == 0 || key(s[|s| - 1]) <= key(x) {
      SortedSnoc(s, x, key);
    } else {
      var front, last := s[..|s| - 1], s[|s| - 1];
      InsertSorted(front, x, key);
      InsertAtMost(front, x, key, key(last));
      SortedSnoc(Insert(front, x, key), last, key);
    }
  }

  /** The stable sort of `s` by `key`: each item in turn inserted into the sorted items before it. */
  function SortBy<T>(s: seq<T>, key: T -> int): (r: seq<T>)
    ensures multiset(r) == multiset(s)
  {
    if |s| == 0 then []
    else
      assert s == s[..|s| - 1] + [s[|s| - 1]];
      Insert(SortBy(s[..|s| - 1], key), s[|s| - 1], key)
  }

  /** The sort orders by the key. */
  lemma {:induction false} SortBySorted<T>(s: seq<T>, key: T -> int)
    ensures Sorted(SortBy(s, key), key)
    decreases |s|
  {
    if |s| > 0 {
      SortBySorted(s[..|s| - 1], key);
      InsertSorted(SortBy(s[..|s| - 1], key), s[|s| - 1], key);
    }
  }

  /** Items whose key is `k`. */
  function KeyIs<T>(key: T -> int, k: int): T -> bool {
    x => key(x) == k
  }

  /** Among the items of one key, inserting `x` appends it after all of them. */
  lemma {:induction false} InsertKeepsTies<T(!new)>(s: seq<T>, x: T, key: T -> int, k: int)
    ensures Where(Insert(s, x, key), KeyIs(key, k)) == Where(s, KeyIs(key, k)) + Where([x], KeyIs(key, k))
    decreases |s|
  {
    var p := KeyIs(key, k);
    if |s| == 0 || key(s[|s| - 1]) <= key(x) {
      WhereAppend(s, [x], p);
    } else {
      var front, last := s[..|s| - 1], s[|s| - 1];
      assert s == front + [last];
      InsertKeepsTies(front, x, key, k);
      WhereAppend(Insert(front, x, key), [last], p);
      WhereAppend(front, [last], p);
      assert key(x) == k ==> Where([last], p) == [];
      assert key(x) != k ==> Where([x], p) == [];
    }
  }

  /** Stability: the items of any one key come out in the order they went in. */
  lemma {:induction false} SortKeepsTies<T(!new)>(s: seq<T>, key: T -> int, k: int)
    ensures Where(SortBy(s, key), KeyIs(key, k)) == Where(s, KeyIs(key, k))
    decreases |s|
  {
    if |s| > 0 {
      var front, last := s[..|s| - 1], s[|s| - 1];
      assert s == front + [last];
      SortKeepsTies(front, key, k);
      InsertKeepsTies(SortBy(front, key), last, key, k);
      WhereAppend(front, [last], KeyIs(key, k));
    }
  }

  /** Dropping the last item of an ordered list leaves it ordered, below that item. */
  lemma SortedFront<T>(s: seq<T>, key: T -> int)
    requires Sorted(s, key) && |s| > 0
    ensures Sorted(s[..|s| - 1], key)
    ensures |s| == 1 || key(s[|s| - 2]) <= key(s[|s| - 1])
  {
  }

  /** A list already ordered by the key comes out unchanged. */
  lemma {:induction false} SortedUnchanged<T>(s: seq<T>, key: T -> int)
    requires Sorted(s, key)
    ensures SortBy(s, key) == s
    decreases |s|
  {
    if |s| > 0 {
      var front, last := s[..|s| - 1], s[|s| - 1];
      SortedFront(s, key);
      SortedUnchanged(front, key);
      assert SortBy(s, key) == Insert(front, last, key);
      assert front + [last] == s;
    }
  }
}
