/** Lists without repetitions: removing a value, first occurrences, truncation and reversal. */
module Lists {
  import opened Text

  ghost predicate Distinct<T>(s: seq<T>) {
    forall i, j :: 0 <= i < j < |s| ==> s[i] != s[j]
  }

  function Without<T(==)>(s: seq<T>, x: T): (r: seq<T>)
    ensures forall y :: y in r ==> y in s && y != x
    ensures forall y :: y in s && y != x ==> y in r
    ensures x !in s ==> r == s
  {
    if s == [] then []
    else if s[0] == x then Without(s[1..], x)
    else [s[0]] + Without(s[1..], x)
  }

  function Take<T>(s: seq<T>, n: nat): (r: seq<T>) {
    if |s| <= n then s else s[..n]
  }

  function Reverse<T>(s: seq<T>): (r: seq<T>)
    ensures |r| == |s|
  {
    if s == [] then [] else [s[|s| - 1]] + Reverse(s[..|s| - 1])
  }

  lemma {:induction false} WithoutOne<T>(s: seq<T>, x: T)
    requires Distinct(s)
    ensures Distinct(Without(s, x)) && |Without(s, x)| == |s| - (if x in s then 1 else 0)
  {
    if s != [] {
      var rest := s[1..];
      assert s == [s[0]] + rest;
      assert forall i :: 0 <= i < |rest| ==> rest[i] == s[i + 1];
      assert s[0] !in rest;
      WithoutOne(rest, x);
    }
  }

  lemma WithoutCons<T>(a: T, s: seq<T>, x: T)
    ensures Without([a] + s, x) == if a == x then Without(s, x) else [a] + Without(s, x)
  {
    assert ([a] + s)[1..] == s;
  }

  lemma {:induction false} WithoutAppend<T>(a: seq<T>, b: seq<T>, x: T)
    ensures Without(a + b, x) == Without(a, x) + Without(b, x)
  {
    if a == [] {
      assert a + b == b;
    } else {
      assert (a + b)[1..] == a[1..] + b;
      WithoutAppend(a[1..], b, x);
    }
  }

  lemma WithoutSnoc<T>(s: seq<T>, y: T, x: T)
    ensures Without(s + [y], x) == if y == x then Without(s, x) else Without(s, x) + [y]
  {
    WithoutAppend(s, [y], x);
    assert Without([y], x) == if y == x then [] else [y];
    assert Without(s, x) + [] == Without(s, x);
  }

  lemma {:induction false} ReverseWithout<T>(s: seq<T>, x: T)
    ensures Reverse(Without(s, x)) == Without(Reverse(s), x)
  {
    if s != [] {
      var n := |s| - 1;
      var init, last := s[..n], s[n];
      ReverseWithout(init, x);
      assert s == init + [last];
      WithoutSnoc(init, last, x);
      WithoutCons(last, Reverse(init), x);
      ReverseSnoc(Without(init, x), last);
    }
  }

  lemma ReverseSnoc<T>(s: seq<T>, x: T)
    ensures Reverse(s + [x]) == [x] + Reverse(s)
  {
    assert (s + [x])[..|s|] == s;
  }

  /** The end of a list, reversed, is the beginning of the reversed list. */
  lemma {:induction false} ReverseSuffix<T>(s: seq<T>, n: nat)
    requires n <= |s|
    ensures Reverse(s[|s| - n..]) == Reverse(s)[..n]
  {
    if n > 0 {
      var init, last := s[..|s| - 1], s[|s| - 1];
      ReverseSuffix(init, n - 1);
      assert s[|s| - n..] == init[|init| - (n - 1)..] + [last];
      ReverseSnoc(init[|init| - (n - 1)..], last);
    }
  }

  /** Truncating before or after bringing `key` to the front makes no difference. */
  lemma TakeFront<T>(d: seq<T>, key: T, n: nat)
    requires Distinct(d)
    ensures Take([key] + Without(Take(d, n), key), n) == Take([key] + Without(d, key), n)
  {
    if |d| > n {
      FrontBack(d[..n], d[n..], key, n);
      assert d == d[..n] + d[n..];
    }
  }

  lemma FrontBack<T>(front: seq<T>, back: seq<T>, key: T, n: nat)
    requires Distinct(front) && |front| == n
    ensures Take([key] + Without(front + back, key), n) == Take([key] + Without(front, key), n)
  {
    var a, b := Without(front, key), Without(back, key);
    WithoutAppend(front, back, key);
    WithoutOne(front, key);
    AppendAssoc([key], a, b);
    TakeAppend([key] + a, b, n);
  }

  lemma TakeAppend<T>(a: seq<T>, b: seq<T>, n: nat)
    requires |a| >= n
    ensures Take(a + b, n) == Take(a, n)
  {
  }

  // ----- first occurrences, collected from the left -----

  /** The keys of a Python dict filled from `s`: each value where it was first seen. */
  function FirstSeen<T(==)>(s: seq<T>): (r: seq<T>) {
    if s == [] then []
    else
      var init, last := FirstSeen(s[..|s| - 1]), s[|s| - 1];
      if last in init then init else init + [last]
  }

  lemma FirstSeenSnoc<T>(s: seq<T>, x: T)
    ensures FirstSeen(s + [x]) == if x in FirstSeen(s) then FirstSeen(s) else FirstSeen(s) + [x]
  {
    assert (s + [x])[..|s|] == s;
  }

  lemma {:induction false} FirstSeenIsDistinct<T>(s: seq<T>)
    ensures Distinct(FirstSeen(s))
    ensures forall x :: x in FirstSeen(s) <==> x in s
  {
    if s != [] {
      FirstSeenIsDistinct(s[..|s| - 1]);
      assert s == s[..|s| - 1] + [s[|s| - 1]];
    }
  }

  lemma {:induction false} FirstSeenIsShort<T>(s: seq<T>)
    ensures |FirstSeen(s)| <= |s|
  {
    if s != [] {
      FirstSeenIsShort(s[..|s| - 1]);
    }
  }

  /** Seeing `x` first brings it to the front. */
  lemma {:induction false} FirstSeenCons<T>(x: T, s: seq<T>)
    ensures FirstSeen([x] + s) == [x] + Without(FirstSeen(s), x)
    decreases |s|
  {
    if s == [] {
      assert [x] + s == [] + [x];
      FirstSeenSnoc([], x);
    } else {
      var init, y := s[..|s| - 1], s[|s| - 1];
      FirstSeenCons(x, init);
      assert [x] + s == ([x] + init) + [y];
      FirstSeenSnoc([x] + init, y);
      WithoutSnoc(FirstSeen(init), y, x);
      AppendAssoc([x], Without(FirstSeen(init), x), [y]);
    }
  }
}
