/** Reciprocal rank fusion of two ranked lists (ai-service/app/services/hybrid_retrieval/rrf.py). */
module Rrf {
  import opened Text
  import opened Lists
  import opened StableSort

  datatype Hit = Hit(chunkId: string, source: string, text: string, score: real)

  function Ids(hits: seq<Hit>): (r: seq<string>) {
    if hits == [] then [] else Ids(hits[..|hits| - 1]) + [hits[|hits| - 1].chunkId]
  }

  lemma {:induction false} IdsAt(hits: seq<Hit>)
    ensures |Ids(hits)| == |hits| && forall i :: 0 <= i < |hits| ==> Ids(hits)[i] == hits[i].chunkId
  {
    if hits != [] {
      IdsAt(hits[..|hits| - 1]);
    }
  }

  /** What the hit at a rank, counted from zero, is worth. */
  function Worth(weight: real, k: nat, rank: nat): real {
    weight / ((k + rank + 1) as real)
  }

  /** What a list contributes to the score of `id`: the weighted reciprocal of every rank it holds. */
  function Contribution(hits: seq<Hit>, id: string, weight: real, k: nat): real {
    if hits == [] then 0.0
    else
      var n := |hits| - 1;
      Contribution(hits[..n], id, weight, k)
      + (if hits[n].chunkId == id then Worth(weight, k, n) else 0.0)
  }

  function FusedScore(bm25: seq<Hit>, vector: seq<Hit>, id: string, w: real, v: real, k: nat): real {
    Contribution(bm25, id, w, k) + Contribution(vector, id, v, k)
  }

  /** The hit that first carried `id`. */
  function Carrier(hits: seq<Hit>, id: string): Option<Hit> {
    if hits == [] then None
    else
      var n := |hits| - 1;
      var earlier := Carrier(hits[..n], id);
      if earlier.Some? then earlier else if hits[n].chunkId == id then Some(hits[n]) else None
  }

  /** The two dictionaries of the fusion: their keys in insertion order, the scores and the first hits. */
  datatype Tables = Tables(order: seq<string>, scores: map<string, real>, meta: map<string, Hit>) {

    /** One more hit worth `c`: its score is added, its metadata kept if new. */
    function Add(hit: Hit, c: real): Tables {
      var id := hit.chunkId;
      Tables(if id in scores then order else order + [id], scores[id := (if id in scores then scores[id] else 0.0) + c],
             if id in meta then meta else meta[id := hit])
    }
  }

  const EMPTY := Tables([], map[], map[])

  /** The tables after the given hits: keys in the order first seen, their scores and their first hits. */
  ghost predicate Tallied(t: Tables, seen: seq<Hit>, total: string -> real) {
    && t.order == FirstSeen(Ids(seen)) && t.meta.Keys == t.scores.Keys
    && (forall id :: id in t.order <==> id in t.scores)
    && ScoresOk(t.scores, total) && MetaOk(t.meta, seen)
  }

  ghost predicate ScoresOk(scores: map<string, real>, total: string -> real) {
    forall id :: total(id) == if id in scores then scores[id] else 0.0
  }

  ghost predicate MetaOk(meta: map<string, Hit>, seen: seq<Hit>) {
    forall id :: Carrier(seen, id) == if id in meta then Some(meta[id]) else None
  }

  lemma CarrierSnoc(seen: seq<Hit>, hit: Hit, id: string)
    ensures Carrier(seen + [hit], id)
         == if Carrier(seen, id).Some? then Carrier(seen, id) else if hit.chunkId == id then Some(hit) else None
    ensures Ids(seen + [hit]) == Ids(seen) + [hit.chunkId]
  {
    assert (seen + [hit])[..|seen|] == seen;
  }

  /** One more hit, worth `c`. */
  lemma TallySnoc(t: Tables, seen: seq<Hit>, total: string -> real, hit: Hit, c: real, total': string -> real)
    requires Tallied(t, seen, total)
    requires forall id :: total'(id) == total(id) + (if id == hit.chunkId then c else 0.0)
    ensures Tallied(t.Add(hit, c), seen + [hit], total')
  {
    AddOrder(t, seen, hit, c);
    AddKeys(t, hit, c);
    AddScores(t, total, hit, c, total');
    AddMeta(t, seen, hit, c);
  }

  lemma AddOrder(t: Tables, seen: seq<Hit>, hit: Hit, c: real)
    requires t.order == FirstSeen(Ids(seen)) && (hit.chunkId in t.order <==> hit.chunkId in t.scores)
    ensures t.Add(hit, c).order == FirstSeen(Ids(seen + [hit]))
  {
    CarrierSnoc(seen, hit, hit.chunkId);
    FirstSeenSnoc(Ids(seen), hit.chunkId);
  }

  lemma AddKeys(t: Tables, hit: Hit, c: real)
    requires t.meta.Keys == t.scores.Keys && forall id :: id in t.order <==> id in t.scores
    ensures var t' := t.Add(hit, c);
            t'.meta.Keys == t'.scores.Keys && forall id :: id in t'.order <==> id in t'.scores
  {
  }

  lemma AddScores(t: Tables, total: string -> real, hit: Hit, c: real, total': string -> real)
    requires ScoresOk(t.scores, total)
    requires forall x :: total'(x) == total(x) + (if x == hit.chunkId then c else 0.0)
    ensures ScoresOk(t.Add(hit, c).scores, total')
  {
  }

  lemma AddMeta(t: Tables, seen: seq<Hit>, hit: Hit, c: real)
    requires MetaOk(t.meta, seen)
    ensures MetaOk(t.Add(hit, c).meta, seen + [hit])
  {
    forall id ensures Carrier(seen + [hit], id)
                   == if id in t.meta then Some(t.meta[id]) else if id == hit.chunkId then Some(hit) else None {
      CarrierSnoc(seen, hit, id);
    }
  }

  lemma ContributionSnoc(hits: seq<Hit>, n: nat, id: string, weight: real, k: nat)
    requires n < |hits|
    ensures Contribution(hits[..n + 1], id, weight, k)
         == Contribution(hits[..n], id, weight, k) + (if id == hits[n].chunkId then Worth(weight, k, n) else 0.0)
  {
    assert hits[..n + 1][..n] == hits[..n];
  }

  /** Scores so far plus what `hits` adds. */
  function Plus(base: string -> real, hits: seq<Hit>, weight: real, k: nat): string -> real {
    (id: string) => base(id) + Contribution(hits, id, weight, k)
  }

  lemma RankStep(t: Tables, before: seq<Hit>, base: string -> real, hits: seq<Hit>, weight: real, k: nat, rank: nat)
    requires rank < |hits| && Tallied(t, before + hits[..rank], Plus(base, hits[..rank], weight, k))
    ensures Tallied(t.Add(hits[rank], Worth(weight, k, rank)), before + hits[..rank + 1],
                    Plus(base, hits[..rank + 1], weight, k))
  {
    PlusSnoc(base, hits, weight, k, rank);
    TallySnoc(t, before + hits[..rank], Plus(base, hits[..rank], weight, k), hits[rank],
              Worth(weight, k, rank), Plus(base, hits[..rank + 1], weight, k));
    SeenSnoc(before, hits, rank);
  }

  lemma SeenSnoc(before: seq<Hit>, hits: seq<Hit>, rank: nat)
    requires rank < |hits|
    ensures before + hits[..rank + 1] == before + hits[..rank] + [hits[rank]]
  {
  }

  lemma PlusSnoc(base: string -> real, hits: seq<Hit>, weight: real, k: nat, rank: nat)
    requires rank < |hits|
    ensures var c := Worth(weight, k, rank);
            forall id :: Plus(base, hits[..rank + 1], weight, k)(id)
                      == Plus(base, hits[..rank], weight, k)(id) + (if id == hits[rank].chunkId then c else 0.0)
  {
    forall id ensures Plus(base, hits[..rank + 1], weight, k)(id)
                   == Plus(base, hits[..rank], weight, k)(id)
                      + (if id == hits[rank].chunkId then Worth(weight, k, rank) else 0.0) {
      ContributionSnoc(hits, rank, id, weight, k);
    }
  }

  /** One of the two loops: add the ranks of `hits` to what is tallied from `before`. */
  method AddRanks(hits: seq<Hit>, weight: real, k: nat, tables: Tables, ghost before: seq<Hit>,
                  ghost base: string -> real)
    returns (t: Tables)
    requires Tallied(tables, before, base)
    ensures Tallied(t, before + hits, Plus(base, hits, weight, k))
  {
    t := tables;
    assert before + hits[..0] == before;
    Retotal(t, before, base, Plus(base, hits[..0], weight, k));
    for rank := 0 to |hits|
      invariant Tallied(t, before + hits[..rank], Plus(base, hits[..rank], weight, k))
    {
      RankStep(t, before, base, hits, weight, k, rank);
      t := t.Add(hits[rank], Worth(weight, k, rank));
    }
    assert hits[..|hits|] == hits;
  }

  lemma Retotal(t: Tables, seen: seq<Hit>, total: string -> real, total': string -> real)
    requires Tallied(t, seen, total) && forall id :: total'(id) == total(id)
    ensures Tallied(t, seen, total')
  {
  }

  /** The ids in the order of the result: by fused score, highest first, ties in the order first seen. */
  function FusedIds(bm25: seq<Hit>, vector: seq<Hit>, w: real, v: real, k: nat): seq<string> {
    Sort(FirstSeen(Ids(bm25 + vector)), Falling(bm25, vector, w, v, k))
  }

  function Falling(bm25: seq<Hit>, vector: seq<Hit>, w: real, v: real, k: nat): string -> real {
    (id: string) => -FusedScore(bm25, vector, id, w, v, k)
  }

  method ReciprocalRankFusion(bm25: seq<Hit>, vector: seq<Hit>, w: real, v: real, k: nat) returns (fused: seq<Hit>)
    ensures |fused| == |FusedIds(bm25, vector, w, v, k)|
    ensures forall i :: 0 <= i < |fused| ==>
              var id := FusedIds(bm25, vector, w, v, k)[i];
              && Carrier(bm25 + vector, id).Some?
              && fused[i] == Carrier(bm25 + vector, id).value.(score := FusedScore(bm25, vector, id, w, v, k))
  {
    ghost var none := (id: string) => 0.0;
    assert Tallied(EMPTY, [], none);
    var t := AddRanks(bm25, w, k, EMPTY, [], none);
    assert [] + bm25 == bm25;
    ghost var base := Plus(none, bm25, w, k);
    t := AddRanks(vector, v, k, t, bm25, base);
    ghost var total := (id: string) => FusedScore(bm25, vector, id, w, v, k);
    Retotal(t, bm25 + vector, Plus(base, vector, v, k), total);
    var byScore := (id: string) => if id in t.scores then -t.scores[id] else 0.0;
    SortCongruent(t.order, byScore, Falling(bm25, vector, w, v, k));
    AllTallied(t.order, byScore);
    fused := Render(Sort(t.order, byScore), t.scores, t.meta);
  }

  lemma AllTallied(order: seq<string>, key: string -> real)
    ensures forall id :: id in Sort(order, key) <==> id in order
  {
    forall id ensures id in Sort(order, key) <==> id in order {
      SameElements(order, key, id);
    }
  }

  /** The result list: each id's first hit with the fused score. */
  method Render(ordered: seq<string>, scores: map<string, real>, meta: map<string, Hit>) returns (fused: seq<Hit>)
    requires forall id :: id in ordered ==> id in scores && id in meta
    ensures |fused| == |ordered|
    ensures forall i :: 0 <= i < |ordered| ==> fused[i] == meta[ordered[i]].(score := scores[ordered[i]])
  {
    fused := [];
    for i := 0 to |ordered|
      invariant |fused| == i
      invariant forall j :: 0 <= j < i ==> fused[j] == meta[ordered[j]].(score := scores[ordered[j]])
    {
      fused := fused + [meta[ordered[i]].(score := scores[ordered[i]])];
    }
  }

  // ----- what fusion promises -----

  /** The result has each id of either list exactly once, in falling order of fused score. */
  lemma FusedIsSortedUnion(bm25: seq<Hit>, vector: seq<Hit>, w: real, v: real, k: nat)
    ensures var ids := FusedIds(bm25, vector, w, v, k);
            && Distinct(ids)
            && (forall id :: id in ids <==> id in Ids(bm25 + vector))
            && (forall i, j :: 0 <= i < j < |ids| ==>
                  FusedScore(bm25, vector, ids[i], w, v, k) >= FusedScore(bm25, vector, ids[j], w, v, k))
  {
    var seen, key := FirstSeen(Ids(bm25 + vector)), Falling(bm25, vector, w, v, k);
    FirstSeenIsDistinct(Ids(bm25 + vector));
    SortSorts(seen, key);
    DistinctByMultiset(seen, Sort(seen, key));
    AllTallied(seen, key);
    var ids := Sort(seen, key);
    forall i, j | 0 <= i < j < |ids|
      ensures FusedScore(bm25, vector, ids[i], w, v, k) >= FusedScore(bm25, vector, ids[j], w, v, k)
    {
      assert key(ids[i]) <= key(ids[j]);
    }
  }

  lemma {:induction false} DistinctMultiset<T>(s: seq<T>)
    ensures Distinct(s) <==> forall x :: multiset(s)[x] <= 1
  {
    if s != [] {
      var init, last := s[..|s| - 1], s[|s| - 1];
      assert s == init + [last];
      DistinctMultiset(init);
      assert multiset(s) == multiset(init) + multiset{last};
      if Distinct(s) {
        assert last !in init;
      }
      if forall x :: multiset(s)[x] <= 1 {
        assert multiset(s)[last] <= 1;
        assert last !in multiset(init);
        assert last !in init;
        assert forall x :: multiset(init)[x] <= multiset(s)[x];
      }
    }
  }

  lemma DistinctByMultiset<T>(a: seq<T>, b: seq<T>)
    requires Distinct(a) && multiset(a) == multiset(b)
    ensures Distinct(b)
  {
    DistinctMultiset(a);
    DistinctMultiset(b);
  }

  /** `a` is ranked above `b` in `hits`. */
  ghost predicate Above(hits: seq<Hit>, a: string, b: string) {
    exists i, j :: 0 <= i < j < |hits| && hits[i].chunkId == a && hits[j].chunkId == b
  }

  ghost predicate NoRepeats(hits: seq<Hit>) {
    Distinct(Ids(hits))
  }

  /** In a list without repetitions an id contributes the reciprocal of its one rank, or nothing. */
  lemma {:induction false} OneRank(hits: seq<Hit>, id: string, weight: real, k: nat, r: nat)
    requires NoRepeats(hits)
    requires r < |hits| ==> hits[r].chunkId == id
    requires r >= |hits| ==> id !in Ids(hits)
    ensures Contribution(hits, id, weight, k) == if r < |hits| then weight / ((k + r + 1) as real) else 0.0
    decreases |hits|
  {
    if hits != [] {
      var n := |hits| - 1;
      IdsAt(hits);
      IdsAt(hits[..n]);
      assert Ids(hits) == Ids(hits[..n]) + [hits[n].chunkId];
      assert Distinct(Ids(hits[..n]));
      assert hits[n].chunkId !in Ids(hits[..n]);
      OneRank(hits[..n], id, weight, k, if r == n then n else r);
    }
  }

  /** An id's score is the reciprocal of its rank in each list that has it, counted from one and put back by `k`, at the
      weight of that list: `r` and `q` are its ranks from zero, or beyond the list where it is missing. */
  lemma ScoreOfRanks(bm25: seq<Hit>, vector: seq<Hit>, id: string, w: real, v: real, k: nat, r: nat, q: nat)
    requires NoRepeats(bm25) && NoRepeats(vector)
    requires if r < |bm25| then bm25[r].chunkId == id else id !in Ids(bm25)
    requires if q < |vector| then vector[q].chunkId == id else id !in Ids(vector)
    ensures FusedScore(bm25, vector, id, w, v, k)
         == (if r < |bm25| then w / ((k + r + 1) as real) else 0.0)
            + (if q < |vector| then v / ((k + q + 1) as real) else 0.0)
  {
    OneRank(bm25, id, w, k, r);
    OneRank(vector, id, v, k, q);
  }

  /** The carrier of an id is the first hit with that id. */
  lemma {:induction false} CarrierIsFirst(hits: seq<Hit>, i: nat)
    requires i < |hits| && forall j :: 0 <= j < i ==> hits[j].chunkId != hits[i].chunkId
    ensures Carrier(hits, hits[i].chunkId) == Some(hits[i])
  {
    var n := |hits| - 1;
    if i < n {
      CarrierIsFirst(hits[..n], i);
    } else {
      NoCarrier(hits[..n], hits[i].chunkId);
    }
  }

  lemma {:induction false} NoCarrier(hits: seq<Hit>, id: string)
    requires forall j :: 0 <= j < |hits| ==> hits[j].chunkId != id
    ensures Carrier(hits, id) == None
  {
    if hits != [] {
      NoCarrier(hits[..|hits| - 1], id);
    }
  }

  lemma Reciprocal(weight: real, x: int, y: int)
    requires weight >= 0.0 && 0 < x < y
    ensures weight / (x as real) >= weight / (y as real) >= 0.0
  {
    var a, b := x as real, y as real;
    assert weight / a - weight / b == weight * (b - a) / (a * b);
  }

  /** A better rank contributes at least as much. */
  lemma AboveContributes(hits: seq<Hit>, a: string, b: string, weight: real, k: nat)
    requires NoRepeats(hits) && weight >= 0.0
    requires b in Ids(hits) ==> Above(hits, a, b)
    ensures Contribution(hits, a, weight, k) >= Contribution(hits, b, weight, k)
  {
    IdsAt(hits);
    if b in Ids(hits) {
      var i, j :| 0 <= i < j < |hits| && hits[i].chunkId == a && hits[j].chunkId == b;
      OneRank(hits, a, weight, k, i);
      OneRank(hits, b, weight, k, j);
      Reciprocal(weight, k + i + 1, k + j + 1);
    } else {
      OneRank(hits, b, weight, k, |hits|);
      NotNegative(hits, a, weight, k);
    }
  }

  lemma {:induction false} NotNegative(hits: seq<Hit>, id: string, weight: real, k: nat)
    requires weight >= 0.0
    ensures Contribution(hits, id, weight, k) >= 0.0
  {
    if hits != [] {
      NotNegative(hits[..|hits| - 1], id, weight, k);
      Reciprocal(weight, k + |hits|, k + |hits| + 1);
    }
  }

  lemma {:induction false} FirstSeenKeepsOrder<T>(s: seq<T>, i: nat, b: T)
    requires i < |s| && s[i] != b
    requires forall j :: 0 <= j < i ==> s[j] != b
    requires b in s
    ensures Before(FirstSeen(s), s[i], b)
  {
    var n := |s| - 1;
    var init, last := s[..n], s[n];
    FirstSeenIsDistinct(init);
    assert s == init + [last];
    if b in init {
      FirstSeenKeepsOrder(init, i, b);
      if last !in FirstSeen(init) {
        BeforeAppend(FirstSeen(init), last, s[i], b);
      }
    } else {
      assert init[i] == s[i];
      BeforeAppend(FirstSeen(init), last, s[i], b);
    }
  }

  /** Above in every list containing `b` means seen before `b`. */
  lemma AboveIsSeenFirst(bm25: seq<Hit>, vector: seq<Hit>, a: string, b: string)
    requires a != b && b in Ids(bm25 + vector) && NoRepeats(bm25) && NoRepeats(vector)
    requires (b in Ids(bm25) ==> Above(bm25, a, b)) && (b in Ids(vector) ==> Above(vector, a, b))
    ensures Before(FirstSeen(Ids(bm25 + vector)), a, b)
  {
    IdsAppend(bm25, vector);
    if b in Ids(bm25) {
      var i, j := AboveIn(bm25, a, b);
      SeenInFirst(Ids(bm25), Ids(vector), i, j);
    } else {
      var i, j := AboveIn(vector, a, b);
      SeenInSecond(Ids(bm25), Ids(vector), i, j);
    }
  }

  lemma AboveIn(hits: seq<Hit>, a: string, b: string) returns (i: nat, j: nat)
    requires Above(hits, a, b)
    ensures i < j < |Ids(hits)| && Ids(hits)[i] == a && Ids(hits)[j] == b
  {
    IdsAt(hits);
    i, j :| 0 <= i < j < |hits| && hits[i].chunkId == a && hits[j].chunkId == b;
  }

  lemma {:induction false} IdsAppend(x: seq<Hit>, y: seq<Hit>)
    ensures Ids(x + y) == Ids(x) + Ids(y)
  {
    if y == [] {
      assert x + y == x;
    } else {
      var n := |y| - 1;
      IdsAppend(x, y[..n]);
      assert (x + y)[..|x + y| - 1] == x + y[..n];
    }
  }

  lemma SeenInFirst(x: seq<string>, y: seq<string>, i: nat, j: nat)
    requires i < j < |x| && Distinct(x)
    ensures Before(FirstSeen(x + y), x[i], x[j])
  {
    assert forall m :: 0 <= m < |x| ==> (x + y)[m] == x[m];
    FirstSeenKeepsOrder(x + y, i, x[j]);
  }

  lemma SeenInSecond(x: seq<string>, y: seq<string>, i: nat, j: nat)
    requires i < j < |y| && Distinct(y) && y[j] !in x
    ensures Before(FirstSeen(x + y), y[i], y[j])
  {
    assert forall m :: 0 <= m < |x| ==> (x + y)[m] == x[m];
    assert forall m :: 0 <= m < |y| ==> (x + y)[|x| + m] == y[m];
    FirstSeenKeepsOrder(x + y, |x| + i, y[j]);
  }

  /** If `a` is ranked above `b` in every list that contains `b`, then `a` precedes `b` in the result, whatever the
      non-negative weights: ties are broken in the order first seen. */
  lemma UnanimousOrderIsKept(bm25: seq<Hit>, vector: seq<Hit>, w: real, v: real, k: nat, a: string, b: string)
    requires a != b && b in Ids(bm25 + vector) && NoRepeats(bm25) && NoRepeats(vector) && w >= 0.0 && v >= 0.0
    requires (b in Ids(bm25) ==> Above(bm25, a, b)) && (b in Ids(vector) ==> Above(vector, a, b))
    ensures Before(FusedIds(bm25, vector, w, v, k), a, b)
  {
    AboveContributes(bm25, a, b, w, k);
    AboveContributes(vector, a, b, v, k);
    AboveIsSeenFirst(bm25, vector, a, b);
    var key := Falling(bm25, vector, w, v, k);
    assert key(a) <= key(b);
    SortStable(FirstSeen(Ids(bm25 + vector)), key, a, b);
  }
}
