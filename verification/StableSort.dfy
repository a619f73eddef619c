/** Python's `sorted(..., key=...)`: a stable sort by a real key. A descending sort is the sort by the
    negated key, because `reverse=True` keeps the order of equal keys too. */
module StableSort {

  /** `x` placed after everything whose key does not exceed its own. */
  function Insert<T>(s: seq<T>, x: T, key: T -> real): (r: seq<T>)
    ensures |r| == |s| + 1
  {
    if s == [] || key(s[|s| - 1]) <= key(x) then s + [x]
    else Insert(s[..|s| - 1], x, key) + [s[|s| - 1]]
  }

  function Sort<T>(s: seq<T>, key: T -> real): (r: seq<T>)
    ensures |r| == |s|
  {
    if s == [] then [] else Insert(Sort(s[..|s| - 1], key), s[|s| - 1], key)
  }

  ghost predicate Sorted<T>(s: seq<T>, key: T -> real) {
    forall i, j :: 0 <= i < j < |s| ==> key(s[i]) <= key(s[j])
  }

  lemma {:induction false} InsertMultiset<T>(s: seq<T>, x: T, key: T -> real)
    ensures multiset(Insert(s, x, key)) == multiset(s) + multiset{x}
  {
    var n := |s| - 1;
    if n >= 0 && key(s[n]) > key(x) {
      InsertMultiset(s[..n], x, key);
      assert s == s[..n] + [s[n]];
    }
  }

  lemma {:induction false} InsertSorted<T>(s: seq<T>, x: T, key: T -> real)
    requires Sorted(s, key)
    ensures Sorted(Insert(s, x, key), key)
  {
    var n := |s| - 1;
    if n >= 0 && key(s[n]) > key(x) {
      var init, r := s[..n], Insert(s[..n], x, key);
      InsertSorted(init, x, key);
      InsertMultiset(init, x, key);
      forall i | 0 <= i < |r| ensures key(r[i]) <= key(s[n]) {
        assert r[i] in multiset(r);
        assert r[i] == x || r[i] in init;
      }
    }
  }

  /** The result is sorted and a permutation of the input. */
  lemma {:induction false} SortSorts<T>(s: seq<T>, key: T -> real)
    ensures Sorted(Sort(s, key), key)
    ensures multiset(Sort(s, key)) == multiset(s)
  {
    if s != [] {
      var n := |s| - 1;
      SortSorts(s[..n], key);
      InsertSorted(Sort(s[..n], key), s[n], key);
      InsertMultiset(Sort(s[..n], key), s[n], key);
      assert s == s[..n] + [s[n]];
    }
  }

  /** `a` occurs before `b`. */
  ghost predicate Before<T>(s: seq<T>, a: T, b: T) {
    exists i, j :: 0 <= i < j < |s| && s[i] == a && s[j] == b
  }

  lemma BeforeAppend<T>(s: seq<T>, x: T, a: T, b: T)
    requires Before(s, a, b) || (a in s && b == x)
    ensures Before(s + [x], a, b)
  {
    if Before(s, a, b) {
      var i, j :| 0 <= i < j < |s| && s[i] == a && s[j] == b;
      assert (s + [x])[i] == a && (s + [x])[j] == b;
    } else {
      var i :| 0 <= i < |s| && s[i] == a;
      assert (s + [x])[i] == a && (s + [x])[|s|] == b;
    }
  }

  lemma InitBefore<T>(s: seq<T>, a: T, b: T)
    requires s != [] && Before(s, a, b)
    ensures Before(s[..|s| - 1], a, b) || (a in s[..|s| - 1] && b == s[|s| - 1])
  {
    var i, j :| 0 <= i < j < |s| && s[i] == a && s[j] == b;
    var init := s[..|s| - 1];
    assert init[i] == a;
    if j < |init| {
      assert init[j] == b;
    }
  }

  /** Inserting keeps what was in order, and puts `x` after everything with no greater key. */
  lemma {:induction false} InsertBefore<T>(s: seq<T>, x: T, key: T -> real, a: T, b: T)
    requires Sorted(s, key)
    requires Before(s, a, b) || (a in s && b == x && key(a) <= key(x))
    ensures Before(Insert(s, x, key), a, b)
  {
    var n := |s| - 1;
    if key(s[n]) <= key(x) {
      BeforeAppend(s, x, a, b);
    } else {
      var init, last := s[..n], s[n];
      assert s == init + [last];
      if Before(s, a, b) {
        InitBefore(s, a, b);
        if Before(init, a, b) {
          InsertBefore(init, x, key, a, b);
        } else {
          InsertKeeps(init, x, key, a);
        }
      } else {
        assert a in init;
        InsertBefore(init, x, key, a, b);
      }
      BeforeAppend(Insert(init, x, key), last, a, b);
    }
  }

  lemma {:induction false} InsertKeeps<T>(s: seq<T>, x: T, key: T -> real, a: T)
    requires a in s
    ensures a in Insert(s, x, key)
  {
    var n := |s| - 1;
    if key(s[n]) > key(x) {
      if a in s[..n] {
        InsertKeeps(s[..n], x, key, a);
      }
    }
  }

  lemma SameElements<T>(s: seq<T>, key: T -> real, a: T)
    ensures a in Sort(s, key) <==> a in s
  {
    SortSorts(s, key);
    assert a in Sort(s, key) <==> a in multiset(Sort(s, key));
    assert a in s <==> a in multiset(s);
  }

  /** Stability: of two elements in order whose keys do not ask otherwise, the order is kept. */
  lemma {:induction false} SortStable<T>(s: seq<T>, key: T -> real, a: T, b: T)
    requires Before(s, a, b) && key(a) <= key(b)
    ensures Before(Sort(s, key), a, b)
  {
    var n := |s| - 1;
    var init := s[..n];
    InitBefore(s, a, b);
    SortSorts(init, key);
    if Before(init, a, b) {
      SortStable(init, key, a, b);
    } else {
      SameElements(init, key, a);
    }
    InsertBefore(Sort(init, key), s[n], key, a, b);
  }

  function Map<T, U>(s: seq<T>, f: T -> U): (r: seq<U>)
    ensures |r| == |s| && forall i :: 0 <= i < |s| ==> r[i] == f(s[i])
  {
    seq(|s|, i requires 0 <= i < |s| => f(s[i]))
  }

  /** Sorting commutes with a conversion that keeps the key. */
  lemma {:induction false} SortMap<T, U>(s: seq<T>, f: T -> U, key: T -> real, key': U -> real)
    requires forall x :: x in s ==> key'(f(x)) == key(x)
    ensures Map(Sort(s, key), f) == Sort(Map(s, f), key')
  {
    if s != [] {
      var n := |s| - 1;
      assert Map(s, f)[..n] == Map(s[..n], f);
      SortMap(s[..n], f, key, key');
      forall x | x in Sort(s[..n], key) ensures key'(f(x)) == key(x) {
        SameElements(s[..n], key, x);
      }
      InsertMap(Sort(s[..n], key), s[n], f, key, key');
    }
  }

  lemma {:induction false} InsertMap<T, U>(s: seq<T>, x: T, f: T -> U, key: T -> real, key': U -> real)
    requires key'(f(x)) == key(x) && forall y :: y in s ==> key'(f(y)) == key(y)
    ensures Map(Insert(s, x, key), f) == Insert(Map(s, f), f(x), key')
  {
    var n := |s| - 1;
    if s != [] && key(s[n]) > key(x) {
      InsertMap(s[..n], x, f, key, key');
      assert Map(s, f)[..n] == Map(s[..n], f);
      assert Map(Insert(s[..n], x, key) + [s[n]], f) == Map(Insert(s[..n], x, key), f) + [f(s[n])];
    } else {
      assert Map(s + [x], f) == Map(s, f) + [f(x)];
    }
  }

  /** Only the keys of the elements matter. */
  lemma SortCongruent<T>(s: seq<T>, key: T -> real, key': T -> real)
    requires forall x :: x in s ==> key'(x) == key(x)
    ensures Sort(s, key) == Sort(s, key')
  {
    var same := (x: T) => x;
    SortMap(s, same, key, key');
    assert Map(s, same) == s && Map(Sort(s, key), same) == Sort(s, key);
  }
}
