/**
 * The array idioms every service is written with: `findIndex`, `find`,
 * `filter` and `splice(i, 1)`, over a sequence that stands for a mock table.
 */
module Tables {
  import opened Wrappers

  /** `s.findIndex(p)`: the position of the first element satisfying `p`, or -1. */
  function FirstIndex<T>(s: seq<T>, p: T -> bool): (r: int)
    ensures -1 <= r < |s|
    ensures r == -1 <==> forall i :: 0 <= i < |s| ==> !p(s[i])
    ensures 0 <= r ==> p(s[r]) && forall j :: 0 <= j < r ==> !p(s[j])
    decreases |s|
  {
    if |s| == 0 then -1
    else if p(s[0]) then 0
    else
      var r := FirstIndex(s[1..], p);
      if r == -1 then -1 else r + 1
  }

  /** `s.findIndex(x => key(x) === id)`. */
  function IndexOf<T>(s: seq<T>, key: T -> string, id: string): (r: int)
    ensures -1 <= r < |s|
    ensures r == -1 <==> forall i :: 0 <= i < |s| ==> key(s[i]) != id
    ensures 0 <= r ==> key(s[r]) == id && forall j :: 0 <= j < r ==> key(s[j]) != id
  {
    FirstIndex(s, x => key(x) == id)
  }

  /** `r` is what `s.find(x => key(x) === id)` may return: the first match, or absent when there is none. */
  ghost predicate FirstMatch<T>(s: seq<T>, key: T -> string, id: string, r: Option<T>) {
    match r
    case None => forall i :: 0 <= i < |s| ==> key(s[i]) != id
    case Some(x) =>
      exists i :: 0 <= i < |s| && s[i] == x && key(x) == id && forall j :: 0 <= j < i ==> key(s[j]) != id
  }

  /** `s.find(x => key(x) === id)`. */
  function Find<T>(s: seq<T>, key: T -> string, id: string): (r: Option<T>)
    ensures FirstMatch(s, key, id, r)
  {
    var i := IndexOf(s, key, id);
    if i == -1 then None else Some(s[i])
  }

  /** `s.filter(p)`. */
  function Where<T(!new)>(s: seq<T>, p: T -> bool): (r: seq<T>)
    ensures |r| <= |s|
  {
    if |s| == 0 then [] else (if p(s[0]) then [s[0]] else []) + Where(s[1..], p)
  }

  /** Filtering keeps exactly the rows that pass. */
  lemma {:induction false} WhereMembers<T(!new)>(s: seq<T>, p: T -> bool)
    ensures forall x :: x in Where(s, p) <==> x in s && p(x)
  {
    if |s| > 0 {
      WhereMembers(s[1..], p);
      assert s == [s[0]] + s[1..];
    }
  }

  /** Filtering out every row leaves nothing. */
  lemma {:induction false} WhereNone<T(!new)>(s: seq<T>, p: T -> bool)
    requires forall x :: x in s ==> !p(x)
    ensures Where(s, p) == []
  {
    if |s| > 0 {
      assert s[0] in s;
      WhereNone(s[1..], p);
    }
  }

  /** Filtering keeps every passing row as often as it occurs, and no other row. */
  lemma {:induction false} WhereMultiset<T(!new)>(s: seq<T>, p: T -> bool)
    ensures forall x :: multiset(Where(s, p))[x] == if p(x) then multiset(s)[x] else 0
  {
    if |s| > 0 {
      WhereMultiset(s[1..], p);
      assert s == [s[0]] + s[1..];
    }
  }

  /** `s.splice(i, 1)`. */
  function RemoveAt<T>(s: seq<T>, i: nat): (r: seq<T>)
    requires i < |s|
    ensures |r| == |s| - 1
    ensures forall j :: 0 <= j < i ==> r[j] == s[j]
    ensures forall j :: i <= j < |r| ==> r[j] == s[j + 1]
    ensures forall x :: x in r ==> x in s
  {
    s[..i] + s[i + 1..]
  }

  /** No two rows share a key. */
  ghost predicate UniqueKeys<T, K>(s: seq<T>, key: T -> K) {
    forall i, j :: 0 <= i < |s| && 0 <= j < |s| && key(s[i]) == key(s[j]) ==> i == j
  }

  /** Filtering keeps the order of the table: it distributes over concatenation. */
  lemma {:induction false} WhereAppend<T(!new)>(a: seq<T>, b: seq<T>, p: T -> bool)
    ensures Where(a + b, p) == Where(a, p) + Where(b, p)
  {
    if |a| == 0 {
      assert a + b == b;
    } else {
      var head := if p(a[0]) then [a[0]] else [];
      calc {
        Where(a + b, p);
        { assert (a + b)[0] == a[0]; }
        head + Where((a + b)[1..], p);
        { assert (a + b)[1..] == a[1..] + b; }
        head + Where(a[1..] + b, p);
        { WhereAppend(a[1..], b, p); }
        head + (Where(a[1..], p) + Where(b, p));
        (head + Where(a[1..], p)) + Where(b, p);
      }
    }
  }

  /** A filter that every row passes returns the whole table, in order. */
  lemma {:induction false} WhereAll<T(!new)>(s: seq<T>, p: T -> bool)
    requires forall i :: 0 <= i < |s| ==> p(s[i])
    ensures Where(s, p) == s
  {
    if |s| > 0 {
      WhereAll(s[1..], p);
      assert s == [s[0]] + s[1..];
    }
  }

  /** Two filters that agree on every row of the table select the same rows. */
  lemma {:induction false} WhereSame<T(!new)>(s: seq<T>, p: T -> bool, q: T -> bool)
    requires forall x :: x in s ==> p(x) == q(x)
    ensures Where(s, p) == Where(s, q)
  {
    if |s| > 0 {
      WhereSame(s[1..], p, q);
    }
  }

  /** Filtering a table with unique keys leaves a table with unique keys. */
  lemma {:induction false} WhereUnique<T(!new), K>(s: seq<T>, key: T -> K, p: T -> bool)
    requires UniqueKeys(s, key)
    ensures UniqueKeys(Where(s, p), key)
  {
    if |s| > 0 {
      var t := s[1..];
      UniqueKeysTail(s, key);
      WhereUnique(t, key, p);
      var w := Where(t, p);
      WhereMembers(t, p);
      if p(s[0]) {
        var r := [s[0]] + w;
        forall j | 0 <= j < |w| ensures key(w[j]) != key(s[0]) {
          assert w[j] in t;
          var k :| 0 <= k < |t| && t[k] == w[j];
          assert s[k + 1] == w[j];
        }
        forall i, j | 0 <= i < |r| && 0 <= j < |r| && key(r[i]) == key(r[j]) ensures i == j {
          if i > 0 && j > 0 {
            assert r[i] == w[i - 1] && r[j] == w[j - 1];
          }
        }
      }
    }
  }

  /** Dropping the first row of a table with unique keys leaves a table with unique keys. */
  lemma UniqueKeysTail<T, K>(s: seq<T>, key: T -> K)
    requires UniqueKeys(s, key) && |s| > 0
    ensures UniqueKeys(s[1..], key)
  {
    var t := s[1..];
    forall i, j | 0 <= i < |t| && 0 <= j < |t| && key(t[i]) == key(t[j]) ensures i == j {
      assert s[i + 1] == t[i] && s[j + 1] == t[j];
    }
  }

  /** Filtering by `p` and then by `q` is filtering by their conjunction. */
  lemma {:induction false} WhereWhere<T(!new)>(s: seq<T>, p: T -> bool, q: T -> bool, both: T -> bool)
    requires forall x :: x in s ==> both(x) == (p(x) && q(x))
    ensures Where(Where(s, p), q) == Where(s, both)
  {
    if |s| > 0 {
      WhereWhere(s[1..], p, q, both);
      var head := if p(s[0]) then [s[0]] else [];
      WhereAppend(head, Where(s[1..], p), q);
    }
  }

  /** `splice` removes exactly the one element at the index and keeps every other one. */
  lemma RemoveAtMultiset<T>(s: seq<T>, i: nat)
    requires i < |s|
    ensures multiset(RemoveAt(s, i)) + multiset{s[i]} == multiset(s)
  {
    assert s == s[..i] + [s[i]] + s[i + 1..];
  }

  /** Removing a row keeps the keys of a table unique. */
  lemma RemoveAtUnique<T, K>(s: seq<T>, key: T -> K, i: nat)
    requires UniqueKeys(s, key) && i < |s|
    ensures UniqueKeys(RemoveAt(s, i), key)
  {
    var r := RemoveAt(s, i);
    forall a, b | 0 <= a < |r| && 0 <= b < |r| && key(r[a]) == key(r[b]) ensures a == b {
      var a' := if a < i then a else a + 1;
      var b' := if b < i then b else b + 1;
      assert r[a] == s[a'] && r[b] == s[b'];
    }
  }

  /** Filtering a table cut at `i` is filtering both parts. */
  lemma WhereCut<T(!new)>(s: seq<T>, p: T -> bool, i: nat)
    requires i <= |s|
    ensures Where(s, p) == Where(s[..i], p) + Where(s[i..], p)
  {
    assert s == s[..i] + s[i..];
    WhereAppend(s[..i], s[i..], p);
  }

  /** Filtering around position `i`: the rows before it, the row itself and the rows after it. */
  lemma WhereSplit<T(!new)>(s: seq<T>, p: T -> bool, i: nat)
    requires i < |s|
    ensures Where(s, p) == Where(s[..i], p) + (Where([s[i]], p) + Where(s[i + 1..], p))
  {
    WhereCut(s, p, i);
    WhereCut(s[i..], p, 1);
    assert s[i..][..1] == [s[i]] && s[i..][1..] == s[i + 1..];
  }

  /** A filter that rejects exactly the row at `i` splices that row out. */
  lemma WhereAllBut<T(!new)>(s: seq<T>, p: T -> bool, i: nat)
    requires i < |s| && !p(s[i])
    requires forall j :: 0 <= j < |s| && j != i ==> p(s[j])
    ensures Where(s, p) == RemoveAt(s, i)
  {
    assert Where(s[..i], p) == s[..i] by {
      WhereAll(s[..i], p);
    }
    var back := s[i + 1..];
    assert Where(back, p) == back by {
      forall k | 0 <= k < |back| ensures p(back[k]) {
        assert back[k] == s[i + 1 + k];
      }
      WhereAll(back, p);
    }
    assert Where([s[i]], p) == [] by {
      assert [s[i]][1..] == [];
    }
    WhereSplit(s, p, i);
    assert [] + back == back;
  }

  /** In a table with unique keys, splicing the row found by key is filtering out that key. */
  lemma RemoveKeyIsFilter<T(!new)>(s: seq<T>, key: T -> string, id: string, p: T -> bool)
    requires UniqueKeys(s, key)
    requires forall x :: p(x) == (key(x) != id)
    ensures IndexOf(s, key, id) == -1 ==> Where(s, p) == s
    ensures IndexOf(s, key, id) != -1 ==> Where(s, p) == RemoveAt(s, IndexOf(s, key, id))
  {
    var i := IndexOf(s, key, id);
    if i == -1 {
      WhereAll(s, p);
    } else {
      WhereAllBut(s, p, i);
    }
  }

  /** Appending a row whose key no row has keeps the keys of a table unique. */
  lemma AppendUnique<T, K>(s: seq<T>, key: T -> K, x: T)
    requires UniqueKeys(s, key)
    requires forall i :: 0 <= i < |s| ==> key(s[i]) != key(x)
    ensures UniqueKeys(s + [x], key)
  {
    var t := s + [x];
    assert forall j :: 0 <= j < |s| ==> t[j] == s[j];
  }

  /** In a table with unique keys, removing the row found by key leaves no row with that key. */
  lemma RemoveFoundKey<T>(s: seq<T>, key: T -> string, id: string)
    requires UniqueKeys(s, key)
    requires IndexOf(s, key, id) != -1
    ensures IndexOf(RemoveAt(s, IndexOf(s, key, id)), key, id) == -1
    ensures Find(RemoveAt(s, IndexOf(s, key, id)), key, id).None?
  {
    var i := IndexOf(s, key, id);
    var r := RemoveAt(s, i);
    forall j | 0 <= j < |r| ensures key(r[j]) != id {
      if j >= i { assert r[j] == s[j + 1]; }
    }
  }

  /** Appending a row whose key is not in the table: the row is found at the end, and unique keys stay unique. */
  lemma AppendFreshKey<T>(s: seq<T>, key: T -> string, x: T)
    requires IndexOf(s, key, key(x)) == -1
    ensures IndexOf(s + [x], key, key(x)) == |s|
    ensures Find(s + [x], key, key(x)) == Some(x)
    ensures RemoveAt(s + [x], IndexOf(s + [x], key, key(x))) == s
    ensures UniqueKeys(s, key) ==> UniqueKeys(s + [x], key)
  {
    var t := s + [x];
    assert forall j :: 0 <= j < |s| ==> t[j] == s[j];
    assert key(t[|s|]) == key(x);
    if UniqueKeys(s, key) {
      AppendUnique(s, key, x);
    }
  }

  /** `s[i] = { ...s[i], ...patch }` at the first position whose key is `id`, or no change when there is none. */
  function UpdateFirst<T, P>(s: seq<T>, key: T -> string, id: string, merge: (T, P) -> T, patch: P): (r: seq<T>)
    ensures |r| == |s|
    ensures IndexOf(s, key, id) == -1 ==> r == s
    ensures var i := IndexOf(s, key, id);
      i != -1 ==> r[i] == merge(s[i], patch) && forall j :: 0 <= j < |s| && j != i ==> r[j] == s[j]
  {
    var i := IndexOf(s, key, id);
    if i == -1 then s else s[i := merge(s[i], patch)]
  }

  /** After an update that keeps the key, looking the key up finds the merged row. */
  lemma UpdateThenFind<T, P>(s: seq<T>, key: T -> string, id: string, merge: (T, P) -> T, patch: P)
    requires IndexOf(s, key, id) != -1
    requires key(merge(s[IndexOf(s, key, id)], patch)) == id
    ensures Find(UpdateFirst(s, key, id, merge, patch), key, id) == Some(merge(s[IndexOf(s, key, id)], patch))
  {
    var i := IndexOf(s, key, id);
    var r := UpdateFirst(s, key, id, merge, patch);
    assert forall j :: 0 <= j < i ==> r[j] == s[j];
    assert key(r[i]) == id;
  }

  /** An update that keeps the key of the row it rewrites keeps the keys unique. */
  lemma UpdateKeepsUnique<T, P>(s: seq<T>, key: T -> string, id: string, merge: (T, P) -> T, patch: P)
    requires UniqueKeys(s, key)
    requires IndexOf(s, key, id) != -1 ==> key(merge(s[IndexOf(s, key, id)], patch)) == id
    ensures UniqueKeys(UpdateFirst(s, key, id, merge, patch), key)
  {
    var i := IndexOf(s, key, id);
    var r := UpdateFirst(s, key, id, merge, patch);
    if i != -1 {
      assert forall j :: 0 <= j < |r| ==> key(r[j]) == key(s[j]);
    }
  }
}
