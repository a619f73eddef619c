/** Completeness of both retrieval paths over a store that answers from one ranked list: the candidates asked for
    suffice (ai-service/app/services/retrieval/retrieval_service.py,
    ai-service/app/services/llamaindex/retrieval_engine.py). */
module RetrievalCompleteness {
  import opened Text
  import opened Lists
  import opened StableSort
  import opened RetrievalStages
  import opened RetrievalEngines

  // ----- how many candidates are asked for -----

  /** The number of different values of a list. */
  lemma {:induction false} CountSeen<T>(s: seq<T>)
    ensures |FirstSeen(s)| == |set x | x in s|
  {
    if s != [] {
      var n := |s| - 1;
      CountSeen(s[..n]);
      FirstSeenIsDistinct(s[..n]);
      assert s == s[..n] + [s[n]];
      var before := set x | x in s[..n];
      assert (set x | x in s) == before + {s[n]};
      if s[n] in FirstSeen(s[..n]) {
        assert before + {s[n]} == before;
      }
    }
  }

  /** A request over one resource asks for `topK` hits. One over several asks for the larger of eight times as many and
      one more for every resource, but for no more than a hundred. */
  lemma CandidatesAsked(topK: nat, ids: seq<string>)
    ensures var unique, asked := |set id | id in ids|, CandidateTopK(topK, ids);
            && (unique <= 1 ==> asked == topK)
            && (unique > 1 ==>
                  && asked <= 100 && asked in {100, topK * 8, topK + unique}
                  && (asked < 100 ==> asked >= topK * 8 && asked >= topK + unique)
                  && (asked == 100 ==> topK * 8 >= 100 || topK + unique >= 100))
  {
    CountSeen(ids);
  }

  // ----- adding hits to a ranked list -----

  lemma {:induction false} SortOfSorted<T>(s: seq<T>, key: T -> real)
    requires Sorted(s, key)
    ensures Sort(s, key) == s
  {
    if s != [] {
      var n := |s| - 1;
      var init := s[..n];
      assert s == init + [s[n]];
      SortedInit(init, s[n], key);
      SortOfSorted(init, key);
      LastStays(init, s[n], key);
    }
  }

  lemma LastStays<T>(s: seq<T>, x: T, key: T -> real)
    requires Sorted(s + [x], key)
    ensures Insert(s, x, key) == s + [x]
  {
    if s != [] {
      assert key((s + [x])[|s| - 1]) <= key((s + [x])[|s|]);
    }
  }

  lemma InsertBack<T>(s: seq<T>, x: T, y: T, key: T -> real)
    requires key(y) > key(x)
    ensures Insert(s + [y], x, key) == Insert(s, x, key) + [y]
  {
    assert (s + [y])[..|s|] == s;
  }

  lemma SortedInit<T>(s: seq<T>, y: T, key: T -> real)
    requires Sorted(s + [y], key)
    ensures Sorted(s, key)
  {
    assert forall i :: 0 <= i < |s| ==> s[i] == (s + [y])[i];
  }

  /** Inserting into a list of two parts inserts into the second, if it has something the new item follows or the new
      item follows all of the first, else into the first. */
  lemma {:induction false} InsertParts<T>(a: seq<T>, b: seq<T>, x: T, key: T -> real)
    requires Sorted(a + b, key)
    ensures Insert(a + b, x, key) == a + Insert(b, x, key) || Insert(a + b, x, key) == Insert(a, x, key) + b
    ensures (forall i :: 0 <= i < |a| ==> key(a[i]) <= key(x)) ==> Insert(a + b, x, key) == a + Insert(b, x, key)
    decreases |b|
  {
    if b == [] {
      assert a + b == a && Insert(b, x, key) == [x];
    } else {
      var init, last := b[..|b| - 1], b[|b| - 1];
      assert b == init + [last];
      AppendAssoc(a, init, [last]);
      if key(last) > key(x) {
        SortedInit(a + init, last, key);
        InsertParts(a, init, x, key);
        InsertBack(a + init, x, last, key);
        InsertBack(init, x, last, key);
        AppendAssoc(a, Insert(init, x, key), [last]);
        AppendAssoc(Insert(a, x, key), init, [last]);
      } else {
        InsertLast(a + init, x, last, key);
        InsertLast(init, x, last, key);
        AppendAssoc(a, b, [x]);
      }
    }
  }

  lemma InsertLast<T>(s: seq<T>, x: T, y: T, key: T -> real)
    requires key(y) <= key(x)
    ensures Insert(s + [y], x, key) == s + [y] + [x]
  {
  }

  /** What was kept of the first part is still first. */
  lemma {:induction false} KeepFirstGrows<T>(a: seq<T>, b: seq<T>, key: T -> string)
    ensures KeepFirst(a, key) <= KeepFirst(a + b, key)
    decreases |b|
  {
    if b == [] {
      assert a + b == a;
    } else {
      var n := |b| - 1;
      assert a + b == (a + b[..n]) + [b[n]];
      assert (a + b)[..|a| + n] == a + b[..n];
      KeepFirstGrows(a, b[..n], key);
    }
  }

  lemma {:induction false} KeyIsKept<T>(s: seq<T>, key: T -> string, x: T)
    requires x in s
    ensures key(x) in Map(KeepFirst(s, key), key)
  {
    KeepFirstKeys(s, key);
    FirstSeenIsDistinct(Map(s, key));
    var i :| 0 <= i < |s| && s[i] == x;
    assert Map(s, key)[i] == key(x);
  }

  /** The first item with its key is kept: with the kept keys being the different ones, this says which items are
      kept. */
  lemma {:induction false} FirstIsKept<T>(s: seq<T>, key: T -> string, i: nat)
    requires i < |s| && forall j :: 0 <= j < i ==> key(s[j]) != key(s[i])
    ensures s[i] in KeepFirst(s, key)
  {
    var n := |s| - 1;
    if i < n {
      FirstIsKept(s[..n], key, i);
    } else {
      var kept := KeepFirst(s[..n], key);
      forall j | 0 <= j < |kept| ensures Map(kept, key)[j] != key(s[i]) {
        KeepFirstMembers(s[..n], key, kept[j]);
      }
    }
  }

  /** A second copy of an item changes nothing: it comes after the first one. */
  lemma {:induction false} CopyIsDropped<T>(s: seq<T>, x: T, order: T -> real, key: T -> string)
    requires x in s
    ensures KeepFirst(Insert(s, x, order), key) == KeepFirst(s, key)
  {
    var n := |s| - 1;
    var r := Insert(s, x, order);
    if order(s[n]) <= order(x) {
      assert r[..|s|] == s;
      KeyIsKept(s, key, x);
    } else {
      assert s == s[..n] + [s[n]];
      CopyIsDropped(s[..n], x, order, key);
      assert r[..|s|] == Insert(s[..n], x, order);
    }
  }

  ghost predicate AllIn<T>(a: seq<T>, b: seq<T>) {
    forall i :: 0 <= i < |a| ==> a[i] in b
  }

  /** `more` are hits of the list or rank no higher than any of them. */
  ghost predicate Behind<T>(hits: seq<T>, more: seq<T>, order: T -> real) {
    forall x :: x in more ==> x in hits || forall i :: 0 <= i < |hits| ==> order(hits[i]) <= order(x)
  }

  /** Sorted together, the hits come first, some of them again, before what is new. */
  ghost predicate Together<T>(hits: seq<T>, more: seq<T>, order: T -> real, key: T -> string, front: seq<T>,
                              back: seq<T>) {
    && Sort(hits + more, order) == front + back && KeepFirst(front, key) == KeepFirst(hits, key)
    && AllIn(front, hits) && AllIn(hits, front)
    && (AllIn(more, hits) ==> back == [])
  }

  lemma {:induction false} SortedTogether<T>(hits: seq<T>, more: seq<T>, order: T -> real, key: T -> string)
    returns (front: seq<T>, back: seq<T>)
    requires Sorted(hits, order) && Behind(hits, more, order)
    ensures Together(hits, more, order, key, front, back)
    decreases |more|
  {
    if more == [] {
      assert hits + more == hits == hits + [];
      SortOfSorted(hits, order);
      return hits, [];
    }
    var n := |more| - 1;
    assert more == more[..n] + [more[n]];
    front, back := SortedTogether(hits, more[..n], order, key);
    front, back := OneMore(hits, more[..n], more[n], order, key, front, back);
  }

  lemma OneMore<T>(hits: seq<T>, more: seq<T>, x: T, order: T -> real, key: T -> string, front: seq<T>, back: seq<T>)
    returns (front': seq<T>, back': seq<T>)
    requires Together(hits, more, order, key, front, back)
    requires x in hits || forall i :: 0 <= i < |hits| ==> order(hits[i]) <= order(x)
    ensures Together(hits, more + [x], order, key, front', back')
  {
    AllInSnoc(more, x, hits);
    SortAppend(hits, more, x, order);
    SortSorts(hits + more, order);
    if Insert(front + back, x, order) == front + Insert(back, x, order) && (x !in hits || back != []) {
      front', back' := front, Insert(back, x, order);
    } else {
      IntoFront(hits, front, back, x, order);
      CopyIsDropped(front, x, order, key);
      CopyKeepsMembers(front, x, order);
      AllInThrough(Insert(front, x, order), front, hits);
      AllInThrough(hits, front, Insert(front, x, order));
      front', back' := Insert(front, x, order), back;
    }
  }

  lemma AllInSnoc<T>(more: seq<T>, x: T, hits: seq<T>)
    ensures AllIn(more + [x], hits) <==> AllIn(more, hits) && x in hits
  {
    if AllIn(more + [x], hits) {
      assert forall i :: 0 <= i < |more| ==> (more + [x])[i] == more[i];
      assert (more + [x])[|more|] == x;
    }
  }

  lemma AllInThrough<T>(a: seq<T>, b: seq<T>, c: seq<T>)
    requires AllIn(a, b) && AllIn(b, c)
    ensures AllIn(a, c)
  {
  }

  lemma SortAppend<T>(hits: seq<T>, more: seq<T>, x: T, order: T -> real)
    ensures Sort(hits + (more + [x]), order) == Insert(Sort(hits + more, order), x, order)
  {
    assert hits + (more + [x]) == (hits + more) + [x];
    assert ((hits + more) + [x])[..|hits + more|] == hits + more;
  }

  lemma IntoFront<T>(hits: seq<T>, front: seq<T>, back: seq<T>, x: T, order: T -> real)
    requires Sorted(front + back, order) && AllIn(front, hits) && AllIn(hits, front)
    requires x in hits || forall i :: 0 <= i < |hits| ==> order(hits[i]) <= order(x)
    requires !(Insert(front + back, x, order) == front + Insert(back, x, order) && (x !in hits || back != []))
    ensures x in front && Insert(front + back, x, order) == Insert(front, x, order) + back
  {
    if x !in hits {
      AllBefore(hits, front, x, order);
      InsertParts(front, back, x, order);
      assert false;
    } else {
      InsertParts(front, back, x, order);
      assert back == [] ==> front + back == front && Insert(front, x, order) + [] == Insert(front, x, order);
    }
  }

  lemma AllBefore<T>(hits: seq<T>, front: seq<T>, x: T, order: T -> real)
    requires AllIn(front, hits) && forall i :: 0 <= i < |hits| ==> order(hits[i]) <= order(x)
    ensures forall i :: 0 <= i < |front| ==> order(front[i]) <= order(x)
  {
  }

  lemma CopyKeepsMembers<T>(s: seq<T>, x: T, order: T -> real)
    requires x in s
    ensures AllIn(Insert(s, x, order), s) && AllIn(s, Insert(s, x, order))
  {
    InsertMultiset(s, x, order);
    SameMembers(s, x, Insert(s, x, order));
  }

  lemma SameMembers<T>(s: seq<T>, x: T, r: seq<T>)
    requires multiset(r) == multiset(s) + multiset{x} && x in s
    ensures AllIn(r, s) && AllIn(s, r)
  {
    forall i | 0 <= i < |r| ensures r[i] in s {
      assert r[i] in multiset(r);
    }
    forall i | 0 <= i < |s| ensures s[i] in r {
      assert s[i] in multiset(r);
    }
  }

  // ----- the first keys of a longer list -----

  /** Enough hits, or all of them: more of the ranked list, and copies of its hits, leave the first `topK` keys
      alone. */
  lemma FirstKeysStay<T>(ranked: seq<T>, n: nat, more: seq<T>, order: T -> real, key: T -> string, topK: nat)
    requires Sorted(ranked, order) && AllIn(more, ranked)
    requires |ranked| <= n || |KeepFirst(Take(ranked, n), key)| >= topK
    ensures Take(KeepFirst(Sort(Take(ranked, n) + more, order), key), topK) == Take(KeepFirst(ranked, key), topK)
  {
    if |ranked| <= n {
      AllKeysStay(ranked, more, order, key);
    } else {
      var rest := ranked[n..];
      assert ranked == Take(ranked, n) + rest;
      SomeKeysStay(Take(ranked, n), rest, more, order, key, topK);
    }
  }

  lemma AllKeysStay<T>(hits: seq<T>, more: seq<T>, order: T -> real, key: T -> string)
    requires Sorted(hits, order) && AllIn(more, hits)
    ensures KeepFirst(Sort(hits + more, order), key) == KeepFirst(hits, key)
  {
    assert Behind(hits, more, order);
    var front, back := SortedTogether(hits, more, order, key);
    assert front + [] == front;
  }

  lemma SomeKeysStay<T>(hits: seq<T>, rest: seq<T>, more: seq<T>, order: T -> real, key: T -> string, topK: nat)
    requires Sorted(hits + rest, order) && AllIn(more, hits + rest) && |KeepFirst(hits, key)| >= topK
    ensures Take(KeepFirst(Sort(hits + more, order), key), topK) == Take(KeepFirst(hits + rest, key), topK)
  {
    FirstIsSorted(hits, rest, order);
    RestIsBehind(hits, rest, more, order);
    var front, back := SortedTogether(hits, more, order, key);
    KeepsGrowing(front, back, hits, rest, key, topK);
  }

  lemma KeepsGrowing<T>(a: seq<T>, b: seq<T>, c: seq<T>, d: seq<T>, key: T -> string, topK: nat)
    requires KeepFirst(a, key) == KeepFirst(c, key) && |KeepFirst(a, key)| >= topK
    ensures Take(KeepFirst(a + b, key), topK) == Take(KeepFirst(c + d, key), topK)
  {
    KeepFirstGrows(a, b, key);
    KeepFirstGrows(c, d, key);
    SamePrefix(KeepFirst(a, key), KeepFirst(a + b, key), KeepFirst(c + d, key), topK);
  }

  lemma SamePrefix<T>(a: seq<T>, b: seq<T>, c: seq<T>, n: nat)
    requires a <= b && a <= c && |a| >= n
    ensures Take(b, n) == Take(c, n)
  {
    assert b[..n] == a[..n] == c[..n];
  }

  lemma FirstIsSorted<T>(hits: seq<T>, rest: seq<T>, order: T -> real)
    requires Sorted(hits + rest, order)
    ensures Sorted(hits, order)
  {
    assert forall i :: 0 <= i < |hits| ==> hits[i] == (hits + rest)[i];
  }

  lemma RestIsBehind<T>(hits: seq<T>, rest: seq<T>, more: seq<T>, order: T -> real)
    requires Sorted(hits + rest, order) && AllIn(more, hits + rest)
    ensures Behind(hits, more, order)
  {
    var all := hits + rest;
    forall x | x in more ensures x in hits || forall i :: 0 <= i < |hits| ==> order(hits[i]) <= order(x) {
      var k :| 0 <= k < |more| && more[k] == x;
      var j :| 0 <= j < |all| && all[j] == more[k];
      if j < |hits| {
        assert hits[j] == x;
      } else {
        assert forall i :: 0 <= i < |hits| ==> hits[i] == all[i];
      }
    }
  }

  /** `kept` is the first `topK` of `items` that reach the threshold: all of these if there are fewer. */
  ghost predicate BestOf(kept: seq<Hit>, items: seq<Hit>, threshold: real, topK: nat) {
    && |kept| <= topK && |kept| <= |items|
    && (forall i :: 0 <= i < |kept| ==> kept[i] == items[i] && items[i].score >= threshold)
    && (forall i :: |kept| <= i < |items| ==> |kept| == topK || items[i].score < threshold)
  }

  lemma CutIsBest(items: seq<Hit>, others: seq<Hit>, threshold: real, topK: nat)
    requires ScoresFall(items, HitFace) && ScoresFall(others, HitFace) && Take(items, topK) == Take(others, topK)
    ensures BestOf(Take(AtLeast(items, HitFace, threshold), topK), others, threshold, topK)
  {
    var kept := Take(AtLeast(items, HitFace, threshold), topK);
    AtLeastIsPrefix(items, HitFace, threshold);
    AtLeastIsPrefix(others, HitFace, threshold);
    SameCut(items, others, AtLeast(items, HitFace, threshold), AtLeast(others, HitFace, threshold), threshold, topK);
    CutIsPrefix(others, HitFace, threshold, topK);
    BestIsPrefix(kept, others, threshold, topK);
  }

  lemma SameCut(items: seq<Hit>, others: seq<Hit>, a: seq<Hit>, b: seq<Hit>, threshold: real, topK: nat)
    requires Take(items, topK) == Take(others, topK) && a <= items && b <= others
    requires forall i :: 0 <= i < |items| ==> (i < |a| <==> HitFace(items[i]).score >= threshold)
    requires forall i :: 0 <= i < |others| ==> (i < |b| <==> HitFace(others[i]).score >= threshold)
    ensures Take(a, topK) == Take(b, topK)
  {
    var same := Take(items, topK);
    assert forall i :: 0 <= i < |same| ==> items[i] == same[i] && others[i] == same[i];
    var p, q := |Take(a, topK)|, |Take(b, topK)|;
    assert p <= |same| && q <= |same|;
    if p < |same| {
      assert items[p] == same[p] && others[p] == same[p];
    }
    if q < |same| {
      assert items[q] == same[q] && others[q] == same[q];
    }
    assert forall i :: 0 <= i < p ==> a[i] == items[i] && b[i] == others[i];
  }

  lemma BestIsPrefix(kept: seq<Hit>, items: seq<Hit>, threshold: real, topK: nat)
    requires kept <= items && |kept| <= topK
    requires forall i :: 0 <= i < |kept| ==> HitFace(kept[i]).score >= threshold
    requires forall i :: |kept| <= i < |items| && HitFace(items[i]).score >= threshold ==> |kept| == topK
    ensures BestOf(kept, items, threshold, topK)
  {
  }

  // ----- a store with one ranked list -----

  /** The hits of the given resources. */
  function InResources(library: seq<Hit>, ids: set<string>): seq<Hit> {
    if library == [] then []
    else
      var before, h := InResources(library[..|library| - 1], ids), library[|library| - 1];
      if h.resourceId in ids then before + [h] else before
  }

  lemma {:induction false} ResourceMembers(library: seq<Hit>, ids: set<string>, h: Hit)
    ensures h in InResources(library, ids) <==> h in library && h.resourceId in ids
  {
    if library != [] {
      var n := |library| - 1;
      ResourceMembers(library[..n], ids, h);
      assert library == library[..n] + [library[n]];
    }
  }

  /** The scores fall along the list. */
  ghost predicate Ranked(hits: seq<Hit>) {
    forall i, j :: 0 <= i < j < |hits| ==> hits[i].score >= hits[j].score
  }

  lemma {:induction false} ResourcesRanked(library: seq<Hit>, ids: set<string>)
    requires Ranked(library)
    ensures Ranked(InResources(library, ids))
  {
    if library != [] {
      var n := |library| - 1;
      var before := InResources(library[..n], ids);
      ResourcesRanked(library[..n], ids);
      forall i | 0 <= i < |before| ensures before[i].score >= library[n].score {
        ResourceMembers(library[..n], ids, before[i]);
      }
    }
  }

  /** The store answers every search of the user's question with the first hits of one ranked list of the user's. */
  ghost predicate Answers(b: Backend, req: Request, library: seq<Hit>) {
    && Ranked(library) && (forall i :: 0 <= i < |library| ==> library[i].userId == req.userId)
    && forall ids, k :: b.find(req.question, req.userId, ids, k) == Some(Take(InResources(library, ids), k))
  }

  function Ids(req: Request): set<string> {
    set id | id in req.resourceIds
  }

  lemma SearchFinds(b: Backend, req: Request, library: seq<Hit>, ids: seq<string>, k: nat)
    requires Answers(b, req, library)
    ensures HitQuery(b, req)(ids, k) == Ok(Take(InResources(library, set id | id in ids), Min(k, b.limit)))
  {
  }

  /** The best hits of the single resources are hits of the list too. */
  lemma {:induction false} EachFinds(b: Backend, req: Request, library: seq<Hit>, ids: seq<string>, found: seq<Hit>)
    returns (more: seq<Hit>)
    requires Answers(b, req, library) && forall i :: 0 <= i < |ids| ==> ids[i] in req.resourceIds
    ensures Each(HitQuery(b, req), ids, found) == Ok(found + more) && AllIn(more, InResources(library, Ids(req)))
    decreases |ids|
  {
    if ids == [] {
      assert found + [] == found;
      return [];
    }
    var n := |ids| - 1;
    more := EachFinds(b, req, library, ids[..n], found);
    var best := Take(InResources(library, (set id | id in [ids[n]])), Min(1, b.limit));
    SearchFinds(b, req, library, [ids[n]], 1);
    forall i | 0 <= i < |best| ensures best[i] in InResources(library, Ids(req)) {
      ResourceMembers(library, (set id | id in [ids[n]]), best[i]);
      ResourceMembers(library, Ids(req), best[i]);
    }
    AppendAssoc(found, more, best);
    more := more + best;
  }

  /** What is gathered: the first hits of the list, and more of its hits only if several resources are searched. */
  lemma GatherFinds(b: Backend, req: Request, library: seq<Hit>, topK: nat) returns (more: seq<Hit>)
    requires Answers(b, req, library)
    ensures var ranked := InResources(library, Ids(req));
            var n := Min(CandidateTopK(topK, req.resourceIds), b.limit);
            && Gather(HitQuery(b, req), req.resourceIds, topK) == Ok(Take(ranked, n) + more) && AllIn(more, ranked)
            && (|Ids(req)| <= 1 ==> more == [])
  {
    var n := CandidateTopK(topK, req.resourceIds);
    SearchFinds(b, req, library, req.resourceIds, n);
    CountSeen(req.resourceIds);
    var found := Take(InResources(library, Ids(req)), Min(n, b.limit));
    if Multi(req.resourceIds) {
      FirstSeenIsDistinct(req.resourceIds);
      var single := FirstSeen(req.resourceIds);
      forall i | 0 <= i < |single| ensures single[i] in req.resourceIds {
        assert single[i] in single;
      }
      more := EachFinds(b, req, library, single, found);
    } else {
      more := [];
      assert found + [] == found;
    }
  }

  // ----- eight copies of a key at most -----

  lemma {:induction false} WithoutCounts<T>(s: seq<T>, x: T, y: T)
    ensures |Without(s, x)| == |s| - multiset(s)[x]
    ensures y != x ==> multiset(Without(s, x))[y] == multiset(s)[y]
  {
    if s != [] {
      assert s == [s[0]] + s[1..];
      WithoutCounts(s[1..], x, y);
    }
  }

  /** A list of values from `values` with no more than eight of each is no longer than eight times these. */
  lemma {:induction false} FewOfEach<T>(s: seq<T>, values: seq<T>)
    requires AllIn(s, values) && forall x :: multiset(s)[x] <= 8
    ensures |s| <= 8 * |values|
    decreases |values|
  {
    if s != [] {
      assert s[0] in values;
      var n := |values| - 1;
      var x := values[n];
      var rest := Without(s, x);
      WithoutCounts(s, x, x);
      forall y ensures multiset(rest)[y] <= 8 {
        WithoutCounts(s, x, y);
        assert y == x ==> y !in multiset(rest);
      }
      forall i | 0 <= i < |rest| ensures rest[i] in values[..n] {
        assert rest[i] in s && rest[i] != x;
        assert values == values[..n] + [x];
      }
      FewOfEach(rest, values[..n]);
    }
  }

  lemma EnoughKeys<T>(hits: seq<T>, key: T -> string)
    requires forall k :: multiset(Map(hits, key))[k] <= 8
    ensures |hits| <= 8 * |KeepFirst(hits, key)|
  {
    var keys := Map(hits, key);
    KeepFirstKeys(hits, key);
    FirstSeenIsDistinct(keys);
    forall i | 0 <= i < |keys| ensures keys[i] in FirstSeen(keys) {
      assert keys[i] in keys;
    }
    FewOfEach(keys, FirstSeen(keys));
  }

  // ----- what the service finds -----

  /** What makes two hits duplicates: the digest of their texts, or for blank texts their own identity. */
  function HitKey(fingerprint: string -> string): Hit -> string {
    (h: Hit) => if fingerprint(h.text) == "" then h.resourceId + ":" + h.id else fingerprint(h.text)
  }

  lemma KeyOfHit(fingerprint: string -> string, h: Hit)
    ensures KeyOf(HitFace, fingerprint)(h) == HitKey(fingerprint)(h)
  {
    assert KeyOf(HitFace, fingerprint)(h) == Key(fingerprint, HitFace(h));
  }

  lemma {:induction false} SameKeysSameHits<T>(items: seq<T>, key: T -> string, key': T -> string)
    requires forall x :: x in items ==> key(x) == key'(x)
    ensures KeepFirst(items, key) == KeepFirst(items, key')
  {
    if items != [] {
      var n := |items| - 1;
      SameKeysSameHits(items[..n], key, key');
      var kept := KeepFirst(items[..n], key);
      forall i | 0 <= i < |kept| ensures key(kept[i]) == key'(kept[i]) {
        KeepFirstMembers(items[..n], key, kept[i]);
      }
      assert Map(kept, key) == Map(kept, key');
      assert items[n] in items;
    }
  }

  /** The hits a request can be answered with, best first: those of its resources, one for every key if there are
      several resources. */
  function Ideal(b: Backend, req: Request, library: seq<Hit>): seq<Hit> {
    var ranked := InResources(library, Ids(req));
    if |Ids(req)| > 1 then KeepFirst(ranked, HitKey(b.fingerprint)) else ranked
  }

  /** The candidates asked for hold all hits of the request's resources, or `topK` different ones. */
  ghost predicate Suffices(b: Backend, req: Request, library: seq<Hit>, topK: nat) {
    var ranked := InResources(library, Ids(req));
    var asked := CandidateTopK(topK, req.resourceIds);
    var n := if asked < b.limit then asked else b.limit;
    || |ranked| <= n
    || (if |Ids(req)| > 1 then |KeepFirst(ranked[..n], HitKey(b.fingerprint))| >= topK else n >= topK)
  }

  lemma FallingIsSorted<T>(items: seq<T>, face: T -> Face)
    requires ScoresFall(items, face)
    ensures Sorted(items, Descending(face))
  {
    forall i, j | 0 <= i < j < |items| ensures Descending(face)(items[i]) <= Descending(face)(items[j]) {
      assert face(items[i]).score >= face(items[j]).score;
    }
  }

  lemma RankedHitsFall(hits: seq<Hit>)
    requires Ranked(hits)
    ensures ScoresFall(hits, HitFace) && Sorted(hits, Descending(HitFace))
  {
    forall i, j | 0 <= i < j < |hits| ensures HitFace(hits[i]).score >= HitFace(hits[j]).score {
      assert hits[i].score >= hits[j].score;
    }
    FallingIsSorted(hits, HitFace);
  }

  /** The survivors of what is gathered are the best of the ideal. */
  lemma SurvivorsAreBest(b: Backend, req: Request, library: seq<Hit>, more: seq<Hit>, threshold: real, topK: nat)
    requires Ranked(library) && Suffices(b, req, library, topK)
    requires AllIn(more, InResources(library, Ids(req))) && (|Ids(req)| <= 1 ==> more == [])
    ensures var hits := Take(InResources(library, Ids(req)), Min(CandidateTopK(topK, req.resourceIds), b.limit)) + more;
            BestOf(Survivors(hits, HitFace, b.fingerprint, Multi(req.resourceIds), threshold, topK),
                   Ideal(b, req, library), threshold, topK)
  {
    var ranked, n := InResources(library, Ids(req)), Min(CandidateTopK(topK, req.resourceIds), b.limit);
    var hits := Take(ranked, n) + more;
    ResourcesRanked(library, Ids(req));
    RankedHitsFall(ranked);
    CountSeen(req.resourceIds);
    DedupedIsRanked(hits, HitFace, b.fingerprint, Multi(req.resourceIds));
    if Multi(req.resourceIds) {
      SeveralKeep(b, ranked, n, more, topK);
      KeepFirstFalls(ranked, HitKey(b.fingerprint), HitFace);
    } else {
      OneKeeps(ranked, n, topK);
      assert hits == Take(ranked, n);
    }
    CutIsBest(Deduped(hits, HitFace, b.fingerprint, Multi(req.resourceIds)), Ideal(b, req, library), threshold, topK);
  }

  lemma SeveralKeep(b: Backend, ranked: seq<Hit>, n: nat, more: seq<Hit>, topK: nat)
    requires Sorted(ranked, Descending(HitFace)) && AllIn(more, ranked)
    requires |ranked| <= n || |KeepFirst(ranked[..n], HitKey(b.fingerprint))| >= topK
    ensures Take(Deduped(Take(ranked, n) + more, HitFace, b.fingerprint, true), topK)
         == Take(KeepFirst(ranked, HitKey(b.fingerprint)), topK)
  {
    var hits := Sort(Take(ranked, n) + more, Descending(HitFace));
    forall h | h in hits ensures KeyOf(HitFace, b.fingerprint)(h) == HitKey(b.fingerprint)(h) {
      KeyOfHit(b.fingerprint, h);
    }
    SameKeysSameHits(hits, KeyOf(HitFace, b.fingerprint), HitKey(b.fingerprint));
    FirstKeysStay(ranked, n, more, Descending(HitFace), HitKey(b.fingerprint), topK);
  }

  lemma TakeTaken(hits: seq<Hit>, n: nat, k: nat)
    requires |hits| <= n || n >= k
    ensures Take(Take(hits, n), k) == Take(hits, k)
  {
  }

  lemma OneKeeps(ranked: seq<Hit>, n: nat, topK: nat)
    requires Sorted(ranked, Descending(HitFace)) && (|ranked| <= n || n >= topK)
    ensures Take(Sort(Take(ranked, n), Descending(HitFace)), topK) == Take(ranked, topK)
  {
    if |ranked| > n {
      assert ranked == Take(ranked, n) + ranked[n..];
      FirstIsSorted(Take(ranked, n), ranked[n..], Descending(HitFace));
    }
    SortOfSorted(Take(ranked, n), Descending(HitFace));
    TakeTaken(ranked, n, topK);
  }

  /** The reply's chunks are the hits of `kept` up to the first that exceeds the budget, the first always included. */
  ghost predicate RepliesWith(b: Backend, reply: Reply, kept: seq<Hit>, budget: nat) {
    && |reply.chunks| <= |kept| && LongestFit(Map(kept, TokensOf(b)), budget, |reply.chunks|)
    && (forall i :: 0 <= i < |reply.chunks| ==>
          reply.chunks[i] == Chunk(kept[i].id, kept[i].resourceId, kept[i].text, kept[i].score, kept[i].metadata))
    && reply.tokens == Total(Map(kept[..|reply.chunks|], TokensOf(b)))
  }

  function TokensOf(b: Backend): Hit -> nat {
    (h: Hit) => b.count(h.text)
  }

  lemma FittedReplies(b: Backend, kept: seq<Hit>, budget: nat)
    ensures RepliesWith(b, Fitted(b, kept, HitFace, HitChunk, budget), kept, budget)
  {
    var sizes, reply := Map(kept, SizeOf(HitFace, b.count)), Fitted(b, kept, HitFace, HitChunk, budget);
    FitIsLongest(sizes, budget);
    forall i | 0 <= i < |kept| ensures SizeOf(HitFace, b.count)(kept[i]) == TokensOf(b)(kept[i]) {
      assert SizeOf(HitFace, b.count)(kept[i]) == b.count(HitFace(kept[i]).text);
    }
    assert Map(kept, TokensOf(b)) == sizes;
    assert Map(kept[..|reply.chunks|], TokensOf(b)) == Take(sizes, Fit(sizes, budget));
  }

  /** As long as the candidates suffice, the service replies with the best hits of the request's resources that reach
      the threshold, the best one of every key if there are several resources, as many as `topK` and the budget
      allow. */
  lemma ServiceFindsBest(b: Backend, cfg: Config, req: Request, library: seq<Hit>) returns (kept: seq<Hit>)
    requires Answers(b, req, library)
    requires Suffices(b, req, library, if req.topK == 0 then cfg.defaultTopK else req.topK)
    ensures BestOf(kept, Ideal(b, req, library), if req.threshold.Some? then req.threshold.value else cfg.threshold,
                   if req.topK == 0 then cfg.defaultTopK else req.topK)
    ensures Service(b, cfg, req).Ok?
    ensures RepliesWith(b, Service(b, cfg, req).value, kept,
                        if req.budget.Some? then req.budget.value else cfg.budget)
  {
    var topK := TopK(cfg, req);
    var more := GatherFinds(b, req, library, topK);
    var hits := Take(InResources(library, Ids(req)), Min(CandidateTopK(topK, req.resourceIds), b.limit)) + more;
    AllFound(InResources(library, Ids(req)), Min(CandidateTopK(topK, req.resourceIds), b.limit), more);
    SurvivorsAreBest(b, req, library, more, Threshold(cfg, req), topK);
    kept := HitSurvivors(b, cfg, req, hits);
    KeptInScope(b, cfg, req, library, hits);
    FittedReplies(b, kept, Budget(cfg, req));
  }

  lemma AllFound(ranked: seq<Hit>, n: nat, more: seq<Hit>)
    requires AllIn(more, ranked)
    ensures AllIn(Take(ranked, n) + more, ranked)
  {
  }

  lemma KeptInScope(b: Backend, cfg: Config, req: Request, library: seq<Hit>, hits: seq<Hit>)
    requires Answers(b, req, library) && AllIn(hits, InResources(library, Ids(req)))
    ensures HitsInScope(hits, req) && HitsInScope(HitSurvivors(b, cfg, req, hits), req)
  {
    forall i | 0 <= i < |hits| ensures InScope(hits[i].userId, hits[i].resourceId, req) {
      ResourceMembers(library, Ids(req), hits[i]);
    }
    SurvivorsAgree(b, cfg, req, hits);
  }

  /** Over several resources the candidates suffice whenever eight times `topK` is no more than a hundred and than the
      store's limit, and no key stands more than eight times among the first eight times `topK` hits. */
  lemma EightCopiesSuffice(b: Backend, req: Request, library: seq<Hit>, topK: nat)
    requires |Ids(req)| > 1 && 8 * topK <= 100 && 8 * topK <= b.limit
    requires forall k ::
               multiset(Map(Take(InResources(library, Ids(req)), 8 * topK), HitKey(b.fingerprint)))[k] <= 8
    ensures Suffices(b, req, library, topK)
  {
    var ranked, n := InResources(library, Ids(req)), Min(CandidateTopK(topK, req.resourceIds), b.limit);
    CandidatesAsked(topK, req.resourceIds);
    assert Ids(req) == (set id | id in req.resourceIds);
    EnoughKeys(Take(ranked, 8 * topK), HitKey(b.fingerprint));
    if |ranked| > n {
      TakeGrows(ranked, 8 * topK, n);
      KeepFirstGrows(Take(ranked, 8 * topK), ranked[8 * topK..n], HitKey(b.fingerprint));
    }
  }

  lemma TakeGrows(hits: seq<Hit>, m: nat, n: nat)
    requires m <= n < |hits|
    ensures Take(hits, m) + hits[m..n] == hits[..n]
  {
  }

  /** Then, if all of them reach the threshold and fit the budget, the reply has the best hit of each of the first
      `topK` different keys, or of every key if there are fewer. */
  lemma ServiceFindsTopK(b: Backend, cfg: Config, req: Request, library: seq<Hit>, topK: nat)
    requires Answers(b, req, library) && topK == (if req.topK == 0 then cfg.defaultTopK else req.topK)
    requires |Ids(req)| > 1 && 8 * topK <= 100 && 8 * topK <= b.limit
    requires forall k ::
               multiset(Map(Take(InResources(library, Ids(req)), 8 * topK), HitKey(b.fingerprint)))[k] <= 8
    requires var best := Take(KeepFirst(InResources(library, Ids(req)), HitKey(b.fingerprint)), topK);
             && Total(Map(best, TokensOf(b))) <= (if req.budget.Some? then req.budget.value else cfg.budget)
             && forall h :: h in best ==> h.score >= if req.threshold.Some? then req.threshold.value else cfg.threshold
    ensures Service(b, cfg, req).Ok?
    ensures Service(b, cfg, req).value.chunks
         == Map(Take(KeepFirst(InResources(library, Ids(req)), HitKey(b.fingerprint)), topK), HitChunk)
  {
    EightCopiesSuffice(b, req, library, topK);
    var kept := ServiceFindsBest(b, cfg, req, library);
    var ideal := Ideal(b, req, library);
    BestIsTake(kept, ideal, if req.threshold.Some? then req.threshold.value else cfg.threshold, topK);
    AllFit(b, Service(b, cfg, req).value, kept, if req.budget.Some? then req.budget.value else cfg.budget);
  }

  lemma BestIsTake(kept: seq<Hit>, items: seq<Hit>, threshold: real, topK: nat)
    requires BestOf(kept, items, threshold, topK) && forall h :: h in Take(items, topK) ==> h.score >= threshold
    ensures kept == Take(items, topK)
  {
    var first := Take(items, topK);
    assert |kept| < |items| ==> |kept| == topK || items[|kept|].score < threshold;
    forall i | 0 <= i < |first| ensures items[i].score >= threshold {
      assert first[i] == items[i] && first[i] in first;
    }
  }

  lemma AllFit(b: Backend, reply: Reply, kept: seq<Hit>, budget: nat)
    requires RepliesWith(b, reply, kept, budget) && Total(Map(kept, TokensOf(b))) <= budget
    ensures reply.chunks == Map(kept, HitChunk)
  {
    var sizes := Map(kept, TokensOf(b));
    assert sizes[..|sizes|] == sizes;
  }

  /** On clean requests the engine then replies too, and with the same chunks. */
  lemma EngineFindsBest(b: Backend, cfg: Config, req: Request, library: seq<Hit>)
    requires Answers(b, req, library) && Clean(req)
    ensures Engine(b, cfg, req).Ok? && Service(b, cfg, req).Ok?
            && Agree(Engine(b, cfg, req).value, Service(b, cfg, req).value)
  {
    var topK := TopK(cfg, req);
    var more := GatherFinds(b, req, library, topK);
    var hits := Take(InResources(library, Ids(req)), Min(CandidateTopK(topK, req.resourceIds), b.limit)) + more;
    AllFound(InResources(library, Ids(req)), Min(CandidateTopK(topK, req.resourceIds), b.limit), more);
    KeptInScope(b, cfg, req, library, hits);
    EnginesAgree(b, cfg, req);
  }
}
