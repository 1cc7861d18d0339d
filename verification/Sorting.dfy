/** Stable sorting by an integer key. */
module Sorting {
  function Insert<T>(key: T -> int, x: T, sorted: seq<T>): seq<T> {
    if sorted == [] || key(x) < key(sorted[0]) then [x] + sorted
    else [sorted[0]] + Insert(key, x, sorted[1..])
  }

  /** Elements in ascending order of key; those with equal keys keep their order. */
  function Sorted<T>(key: T -> int, s: seq<T>): seq<T> {
    if s == [] then [] else Insert(key, s[|s| - 1], Sorted(key, s[..|s| - 1]))
  }

  ghost predicate Ascending<T>(key: T -> int, s: seq<T>) {
    forall i, j | 0 <= i < j < |s| :: key(s[i]) <= key(s[j])
  }

  ghost predicate Distinct<T>(key: T -> int, s: seq<T>) {
    forall i, j | 0 <= i < j < |s| :: key(s[i]) != key(s[j])
  }

  lemma {:induction false} InsertCounts<T>(key: T -> int, x: T, sorted: seq<T>)
    ensures multiset(Insert(key, x, sorted)) == multiset(sorted) + multiset{x}
    decreases |sorted|
  {
    if sorted != [] && key(x) >= key(sorted[0]) {
      assert sorted == [sorted[0]] + sorted[1..];
      InsertCounts(key, x, sorted[1..]);
    }
  }

  lemma {:induction false} InsertKeepsOrder<T>(key: T -> int, x: T, sorted: seq<T>)
    requires Ascending(key, sorted)
    ensures Ascending(key, Insert(key, x, sorted))
    ensures Insert(key, x, sorted) != []
    ensures key(Insert(key, x, sorted)[0]) == if sorted == [] || key(x) < key(sorted[0]) then key(x) else key(sorted[0])
    decreases |sorted|
  {
    if sorted != [] && key(x) >= key(sorted[0]) {
      InsertKeepsOrder(key, x, sorted[1..]);
      HeadIsLeast(key, sorted[0], Insert(key, x, sorted[1..]));
    }
  }

  lemma HeadIsLeast<T>(key: T -> int, x: T, s: seq<T>)
    requires Ascending(key, s) && (s != [] ==> key(x) <= key(s[0]))
    ensures Ascending(key, [x] + s)
  {
    var all := [x] + s;
    forall i, j | 0 <= i < j < |all| ensures key(all[i]) <= key(all[j]) {
      assert all[j] == s[j - 1];
      assert i > 0 ==> all[i] == s[i - 1];
      assert key(s[0]) <= key(s[j - 1]);
    }
  }

  lemma {:induction false} SortSorts<T>(key: T -> int, s: seq<T>)
    ensures Ascending(key, Sorted(key, s)) && multiset(Sorted(key, s)) == multiset(s)
    decreases |s|
  {
    if s != [] {
      var n := |s| - 1;
      SortSorts(key, s[..n]);
      InsertCounts(key, s[n], Sorted(key, s[..n]));
      InsertKeepsOrder(key, s[n], Sorted(key, s[..n]));
      assert s == s[..n] + [s[n]];
    }
  }

  lemma {:induction false} InsertLast<T>(key: T -> int, x: T, sorted: seq<T>)
    requires forall i | 0 <= i < |sorted| :: key(sorted[i]) <= key(x)
    ensures Insert(key, x, sorted) == sorted + [x]
    decreases |sorted|
  {
    if sorted != [] {
      InsertLast(key, x, sorted[1..]);
      assert sorted == [sorted[0]] + sorted[1..];
    }
  }

  lemma {:induction false} SortIsIdle<T>(key: T -> int, s: seq<T>)
    requires Ascending(key, s)
    ensures Sorted(key, s) == s
    decreases |s|
  {
    if s != [] {
      SortIsIdle(key, s[..|s| - 1]);
      InsertLast(key, s[|s| - 1], s[..|s| - 1]);
      assert s == s[..|s| - 1] + [s[|s| - 1]];
    }
  }

  /** Appending to sorted elements and sorting again is inserting. */
  lemma SortedAgain<T>(key: T -> int, s: seq<T>, x: T)
    ensures Sorted(key, Sorted(key, s) + [x]) == Sorted(key, s + [x])
  {
    var t := Sorted(key, s);
    SortSorts(key, s);
    SortIsIdle(key, t);
    assert (t + [x])[..|t|] == t && (s + [x])[..|s|] == s;
  }

  predicate HasKey<T>(key: T -> int, s: seq<T>, k: int) {
    exists i | 0 <= i < |s| :: key(s[i]) == k
  }

  lemma ConsDistinct<T>(key: T -> int, x: T, s: seq<T>)
    ensures Distinct(key, [x] + s) <==> Distinct(key, s) && !HasKey(key, s, key(x))
    ensures forall k :: HasKey(key, [x] + s, k) <==> k == key(x) || HasKey(key, s, k)
  {
    var all := [x] + s;
    forall k | HasKey(key, s, k) ensures HasKey(key, all, k) {
      var i :| 0 <= i < |s| && key(s[i]) == k;
      assert all[i + 1] == s[i];
    }
    forall k | HasKey(key, all, k) ensures k == key(x) || HasKey(key, s, k) {
      var i :| 0 <= i < |all| && key(all[i]) == k;
      assert i > 0 ==> all[i] == s[i - 1];
    }
    assert HasKey(key, all, key(x)) by {
      assert all[0] == x;
    }
    if Distinct(key, all) {
      forall i | 0 <= i < |s| ensures key(s[i]) != key(x) && all[i + 1] == s[i] {
        assert all[0] == x && all[i + 1] == s[i];
      }
    }
    if Distinct(key, s) && !HasKey(key, s, key(x)) {
      forall i, j | 0 <= i < j < |all| ensures key(all[i]) != key(all[j]) {
        assert all[j] == s[j - 1];
        assert i > 0 ==> all[i] == s[i - 1];
      }
    }
  }

  lemma {:induction false} InsertDistinct<T>(key: T -> int, x: T, sorted: seq<T>)
    ensures Distinct(key, Insert(key, x, sorted)) <==> Distinct(key, sorted) && !HasKey(key, sorted, key(x))
    ensures forall k :: HasKey(key, Insert(key, x, sorted), k) <==> k == key(x) || HasKey(key, sorted, k)
    decreases |sorted|
  {
    ConsDistinct(key, x, sorted);
    if sorted != [] && key(x) >= key(sorted[0]) {
      assert sorted == [sorted[0]] + sorted[1..];
      InsertDistinct(key, x, sorted[1..]);
      ConsDistinct(key, sorted[0], sorted[1..]);
      ConsDistinct(key, sorted[0], Insert(key, x, sorted[1..]));
    }
  }

  lemma AppendDistinct<T>(key: T -> int, s: seq<T>, x: T)
    ensures Distinct(key, s + [x]) <==> Distinct(key, s) && !HasKey(key, s, key(x))
    ensures forall k :: HasKey(key, s + [x], k) <==> k == key(x) || HasKey(key, s, k)
  {
    var all := s + [x];
    assert all[|s|] == x && forall i | 0 <= i < |s| :: all[i] == s[i];
  }

  /** Sorting neither hides nor creates repeated keys. */
  lemma {:induction false} SortDistinct<T>(key: T -> int, s: seq<T>)
    ensures Distinct(key, Sorted(key, s)) <==> Distinct(key, s)
    ensures forall k :: HasKey(key, Sorted(key, s), k) <==> HasKey(key, s, k)
    decreases |s|
  {
    if s != [] {
      var n := |s| - 1;
      SortDistinct(key, s[..n]);
      InsertDistinct(key, s[n], Sorted(key, s[..n]));
      AppendDistinct(key, s[..n], s[n]);
      assert s == s[..n] + [s[n]];
    }
  }
}
