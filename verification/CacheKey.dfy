/** The key of the BM25 index cache: the user and the sorted resource ids
    (`_bm25_cache_key` in ai-service/app/services/hybrid_retrieval/hybrid_retrieval_service.py). */
module CacheKey {
  import opened Text

  // ----- sorting strings -----

  /** Lexicographic order by code point. */
  predicate LexLe(a: string, b: string) {
    a == "" || (b != "" && (a[0] < b[0] || (a[0] == b[0] && LexLe(a[1..], b[1..]))))
  }

  lemma {:induction false} LexTotal(a: string, b: string)
    ensures LexLe(a, b) || LexLe(b, a)
  {
    if a != "" && b != "" && a[0] == b[0] {
      LexTotal(a[1..], b[1..]);
    }
  }

  lemma {:induction false} LexAntisymmetric(a: string, b: string)
    requires LexLe(a, b) && LexLe(b, a)
    ensures a == b
  {
    if a != "" && b != "" {
      LexAntisymmetric(a[1..], b[1..]);
      assert a == [a[0]] + a[1..] && b == [b[0]] + b[1..];
    }
  }

  lemma {:induction false} LexTransitive(a: string, b: string, c: string)
    requires LexLe(a, b) && LexLe(b, c)
    ensures LexLe(a, c)
  {
    if a != "" && a[0] == b[0] == c[0] {
      LexTransitive(a[1..], b[1..], c[1..]);
    }
  }

  function InsertString(s: seq<string>, x: string): seq<string> {
    if s == [] || LexLe(x, s[0]) then [x] + s else [s[0]] + InsertString(s[1..], x)
  }

  /** `sorted(ids)`. */
  function SortStrings(s: seq<string>): seq<string> {
    if s == [] then [] else InsertString(SortStrings(s[1..]), s[0])
  }

  /** Sorted from the front: the head is least, and the tail is sorted. */
  ghost predicate LexSorted(s: seq<string>) {
    s == [] || ((forall x :: x in s ==> LexLe(s[0], x)) && LexSorted(s[1..]))
  }

  lemma LexReflexive(a: string)
    ensures LexLe(a, a)
  {
    LexTotal(a, a);
  }

  lemma {:induction false} InsertMultiset(s: seq<string>, x: string)
    ensures multiset(InsertString(s, x)) == multiset(s) + multiset{x}
  {
    if s != [] {
      assert s == [s[0]] + s[1..];
      if !LexLe(x, s[0]) {
        InsertMultiset(s[1..], x);
      }
    }
  }

  lemma {:induction false} InsertSorted(s: seq<string>, x: string)
    requires LexSorted(s)
    ensures LexSorted(InsertString(s, x))
  {
    LexReflexive(x);
    if s == [] {
      assert LexSorted([x][1..]);
    } else if LexLe(x, s[0]) {
      assert ([x] + s)[1..] == s;
      forall y | y in [x] + s ensures LexLe(x, y) {
        if y in s {
          LexTransitive(x, s[0], y);
        }
      }
    } else {
      LexTotal(x, s[0]);
      InsertSorted(s[1..], x);
      InsertMultiset(s[1..], x);
      var r := InsertString(s[1..], x);
      assert ([s[0]] + r)[1..] == r;
      forall y | y in [s[0]] + r ensures LexLe(s[0], y) {
        if y in r {
          assert y in multiset(r);
          assert y == x || y in s[1..];
        }
      }
    }
  }

  lemma {:induction false} SortStringsSorts(s: seq<string>)
    ensures LexSorted(SortStrings(s)) && multiset(SortStrings(s)) == multiset(s)
  {
    if s != [] {
      assert s == [s[0]] + s[1..];
      SortStringsSorts(s[1..]);
      InsertSorted(SortStrings(s[1..]), s[0]);
      InsertMultiset(SortStrings(s[1..]), s[0]);
    }
  }

  /** A sorted list is determined by what it contains. */
  lemma {:induction false} SortedIsUnique(a: seq<string>, b: seq<string>)
    requires LexSorted(a) && LexSorted(b) && multiset(a) == multiset(b)
    ensures a == b
    decreases |a|
  {
    assert |a| == |multiset(a)| == |multiset(b)| == |b|;
    if a != [] {
      assert a[0] in multiset(b) && b[0] in multiset(a);
      assert LexLe(a[0], b[0]) && LexLe(b[0], a[0]);
      LexAntisymmetric(a[0], b[0]);
      TailMultiset(a);
      TailMultiset(b);
      SortedIsUnique(a[1..], b[1..]);
    }
  }

  lemma TailMultiset(s: seq<string>)
    requires s != []
    ensures s == [s[0]] + s[1..] && multiset(s[1..]) == multiset(s) - multiset{s[0]}
  {
    assert s == [s[0]] + s[1..];
  }

  // ----- joining -----

  function JoinComma(ids: seq<string>): string {
    if ids == [] then ""
    else if |ids| == 1 then ids[0]
    else ids[0] + "," + JoinComma(ids[1..])
  }

  function Key(user: string, ids: seq<string>): string {
    user + "|" + JoinComma(SortStrings(ids))
  }

  predicate Free(s: string, c: char) {
    forall i :: 0 <= i < |s| ==> s[i] != c
  }

  /** A resource id without the two punctuation marks of the key. */
  predicate PlainId(id: string) {
    Free(id, ',') && Free(id, '|')
  }

  ghost predicate PlainIds(ids: seq<string>) {
    forall id :: id in ids ==> PlainId(id)
  }

  lemma {:induction false} JoinFreeOfBar(ids: seq<string>)
    requires PlainIds(ids)
    ensures Free(JoinComma(ids), '|')
  {
    if |ids| > 1 {
      assert ids[0] in ids;
      JoinFreeOfBar(ids[1..]);
    } else if |ids| == 1 {
      assert ids[0] in ids;
    }
  }

  /** Equal texts `x + c + p` and `y + c + q` with no `c` in `x` or `y` have equal parts. */
  lemma SplitFirst(x: string, p: string, y: string, q: string, c: char)
    requires Free(x, c) && Free(y, c) && x + [c] + p == y + [c] + q
    ensures x == y && p == q
  {
    var s, t := x + [c] + p, y + [c] + q;
    assert s[|x|] == c && t[|y|] == c;
    assert forall i :: 0 <= i < |x| ==> s[i] == x[i];
    assert forall i :: 0 <= i < |y| ==> t[i] == y[i];
    assert |x| == |y|;
    assert x == s[..|x|] && y == t[..|x|];
    assert p == s[|x| + 1..] && q == t[|x| + 1..];
  }

  /** The same from the right. */
  lemma SplitLast(x: string, p: string, y: string, q: string, c: char)
    requires Free(p, c) && Free(q, c) && x + [c] + p == y + [c] + q
    ensures x == y && p == q
  {
    var s, t := x + [c] + p, y + [c] + q;
    assert s[|x|] == c && t[|y|] == c;
    assert forall i :: |x| < i < |s| ==> s[i] == p[i - |x| - 1];
    assert forall i :: |y| < i < |t| ==> t[i] == q[i - |y| - 1];
    assert |x| == |y|;
    assert x == s[..|x|] && y == t[..|x|];
    assert p == s[|x| + 1..] && q == t[|x| + 1..];
  }

  lemma JoinHasComma(ids: seq<string>)
    requires |ids| > 1
    ensures !Free(JoinComma(ids), ',')
  {
    var s := ids[0] + "," + JoinComma(ids[1..]);
    assert s[|ids[0]|] == ',';
  }

  lemma {:induction false} JoinInjective(a: seq<string>, b: seq<string>)
    requires PlainIds(a) && PlainIds(b) && a != [] && b != [] && JoinComma(a) == JoinComma(b)
    ensures a == b
    decreases |a|
  {
    assert a[0] in a && b[0] in b;
    if |a| > 1 {
      JoinHasComma(a);
    }
    if |b| > 1 {
      JoinHasComma(b);
    }
    if |a| > 1 {
      SplitFirst(a[0], JoinComma(a[1..]), b[0], JoinComma(b[1..]), ',');
      JoinInjective(a[1..], b[1..]);
      assert a == [a[0]] + a[1..] && b == [b[0]] + b[1..];
    } else {
      assert a == [a[0]] && b == [b[0]];
    }
  }

  /** The ids as the key shows them: a single empty id looks like none. */
  function Shown(ids: seq<string>): seq<string> {
    if ids == [""] then [] else ids
  }

  lemma JoinShows(a: seq<string>, b: seq<string>)
    requires PlainIds(a) && PlainIds(b)
    ensures JoinComma(a) == JoinComma(b) <==> Shown(a) == Shown(b)
  {
    if |a| > 1 {
      JoinHasComma(a);
    }
    if |b| > 1 {
      JoinHasComma(b);
    }
    assert |a| == 1 ==> a == [a[0]];
    assert |b| == 1 ==> b == [b[0]];
    if a != [] && b != [] && JoinComma(a) == JoinComma(b) {
      JoinInjective(a, b);
    }
  }

  /** Sorting and showing commute as far as the contents go. */
  lemma ShownSorted(ids: seq<string>)
    ensures LexSorted(Shown(SortStrings(ids))) && multiset(Shown(SortStrings(ids))) == multiset(Shown(ids))
  {
    SortStringsSorts(ids);
    var a := SortStrings(ids);
    assert |a| == |multiset(a)| == |multiset(ids)| == |ids|;
    if |ids| == 1 {
      SortOne(ids[0]);
      assert ids == [ids[0]];
    }
  }

  /** Two requests share a key exactly when they have the same user and show the same resource ids, in any order. */
  lemma KeyIdentifies(user: string, ids: seq<string>, user': string, ids': seq<string>)
    requires PlainIds(ids) && PlainIds(ids')
    ensures Key(user, ids) == Key(user', ids') <==> user == user' && multiset(Shown(ids)) == multiset(Shown(ids'))
  {
    var a, b := SortStrings(ids), SortStrings(ids');
    PlainSorted(ids);
    PlainSorted(ids');
    JoinFreeOfBar(a);
    JoinFreeOfBar(b);
    JoinShows(a, b);
    ShownSorted(ids);
    ShownSorted(ids');
    if Key(user, ids) == Key(user', ids') {
      SplitLast(user, JoinComma(a), user', JoinComma(b), '|');
    }
    if multiset(Shown(ids)) == multiset(Shown(ids')) {
      SortedIsUnique(Shown(a), Shown(b));
    }
  }

  lemma PlainSorted(ids: seq<string>)
    requires PlainIds(ids)
    ensures PlainIds(SortStrings(ids))
  {
    SortStringsSorts(ids);
    forall id | id in SortStrings(ids) ensures PlainId(id) {
      assert id in multiset(SortStrings(ids));
      assert id in ids;
    }
  }

  /** The punctuation matters: one id with a comma in it has the key of the two ids around the comma. */
  lemma CommaIsAmbiguous(user: string, x: string, y: string)
    requires LexLe(x, y)
    ensures Key(user, [x + "," + y]) == Key(user, [x, y])
  {
    SortOne(x + "," + y);
    SortTwo(x, y);
    assert [x, y][1..] == [y];
    assert JoinComma([x, y]) == x + "," + JoinComma([y]);
  }

  lemma SortOne(x: string)
    ensures SortStrings([x]) == [x]
  {
    assert [x][1..] == [];
    assert [x] + [] == [x];
  }

  lemma SortTwo(x: string, y: string)
    requires LexLe(x, y)
    ensures SortStrings([x, y]) == [x, y]
  {
    assert [x, y][1..] == [y];
    SortOne(y);
    assert [x] + [y] == [x, y];
  }
}
