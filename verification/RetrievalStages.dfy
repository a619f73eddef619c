/** The stages both retrieval paths run: gather candidates, rank, drop duplicates, cut at the threshold, fit the
    token budget (ai-service/app/services/retrieval/retrieval_service.py and
    ai-service/app/services/llamaindex/retrieval_engine.py, context_compressor.py). The two paths run them on
    different item types, so a stage sees an item through the fields it reads. */
module RetrievalStages {
  import opened Lists
  import opened StableSort

  datatype Error = InvalidRequest | InvalidFilter | Unavailable | Forbidden
  datatype Outcome<T> = Ok(value: T) | Failed(error: Error)

  /** The fields of an item that the stages read. */
  datatype Face = Face(id: string, resourceId: string, text: string, score: real)

  type Query<T> = (seq<string>, nat) -> Outcome<seq<T>>

  // ----- gathering candidates -----

  /** Whether a request ranges over more than one resource. */
  predicate Multi(ids: seq<string>) {
    |FirstSeen(ids)| > 1
  }

  function Min(a: nat, b: nat): nat {
    if a <= b then a else b
  }

  /** A wider net when several resources are searched. */
  function CandidateTopK(topK: nat, ids: seq<string>): nat {
    if !Multi(ids) then topK
    else
      var unique := |FirstSeen(ids)|;
      Min(if topK * 8 >= topK + unique then topK * 8 else topK + unique, 100)
  }

  /** The best hit of every single resource after what was found already; the first failure ends it. */
  function Each<T>(query: Query<T>, ids: seq<string>, found: seq<T>): Outcome<seq<T>> {
    if ids == [] then Ok(found)
    else
      var before := Each(query, ids[..|ids| - 1], found);
      if before.Failed? then before
      else
        var more := query([ids[|ids| - 1]], 1);
        if more.Failed? then more else Ok(before.value + more.value)
  }

  function Gather<T>(query: Query<T>, ids: seq<string>, topK: nat): Outcome<seq<T>> {
    var found := query(ids, CandidateTopK(topK, ids));
    if found.Failed? || !Multi(ids) then found
    else Each(query, FirstSeen(ids), found.value)
  }

  lemma {:induction false} EachFails<T>(query: Query<T>, ids: seq<string>, found: seq<T>, k: nat)
    requires k <= |ids| && Each(query, ids[..k], found).Failed?
    ensures Each(query, ids, found) == Each(query, ids[..k], found)
  {
    if k < |ids| {
      var n := |ids| - 1;
      assert ids[..n][..k] == ids[..k];
      EachFails(query, ids[..n], found, k);
    } else {
      assert ids[..k] == ids;
    }
  }

  /** Nothing a search finds is left out: what is gathered begins with the hits of the broad search and has the best hit
      of every single resource if there are several; it fails only with one of these searches. */
  lemma GatherHasAll<T>(query: Query<T>, ids: seq<string>, topK: nat, id: string)
    requires id in ids
    ensures var broad, r := query(ids, CandidateTopK(topK, ids)), Gather(query, ids, topK);
            && (broad.Failed? ==> r == broad)
            && (r.Ok? ==> broad.Ok? && broad.value <= r.value)
            && (r.Ok? && Multi(ids) ==>
                  query([id], 1).Ok? && forall i :: 0 <= i < |query([id], 1).value| ==>
                    query([id], 1).value[i] in r.value)
            && (r.Failed? && broad.Ok? ==> exists other :: other in ids && query([other], 1) == r)
  {
    var broad := query(ids, CandidateTopK(topK, ids));
    FirstSeenIsDistinct(ids);
    if broad.Ok? && Multi(ids) {
      EachHas(query, FirstSeen(ids), broad.value, id);
    }
  }

  lemma {:induction false} EachHas<T>(query: Query<T>, ids: seq<string>, found: seq<T>, id: string)
    ensures var r := Each(query, ids, found);
            && (r.Ok? ==> found <= r.value)
            && (r.Ok? && id in ids ==>
                  query([id], 1).Ok? && forall i :: 0 <= i < |query([id], 1).value| ==>
                    query([id], 1).value[i] in r.value)
            && (r.Failed? ==> exists other :: other in ids && query([other], 1) == r)
  {
    if ids != [] {
      var n := |ids| - 1;
      EachHas(query, ids[..n], found, id);
      assert ids == ids[..n] + [ids[n]];
      var before := Each(query, ids[..n], found);
      if before.Failed? {
        var other :| other in ids[..n] && query([other], 1) == before;
        assert other in ids;
      } else if query([ids[n]], 1).Failed? {
        assert ids[n] in ids;
      }
    }
  }

  method GatherCandidates<T>(query: Query<T>, ids: seq<string>, topK: nat) returns (r: Outcome<seq<T>>)
    ensures r == Gather(query, ids, topK)
  {
    r := query(ids, CandidateTopK(topK, ids));
    if r.Failed? || !Multi(ids) {
      return;
    }
    var found, single := r.value, FirstSeen(ids);
    assert single[..0] == [];
    for k := 0 to |single|
      invariant r == Each(query, single[..k], found) && r.Ok?
    {
      assert single[..k + 1][..k] == single[..k];
      var more := query([single[k]], 1);
      if more.Failed? {
        EachFails(query, single, found, k + 1);
        return more;
      }
      r := Ok(r.value + more.value);
    }
    assert single[..|single|] == single;
  }

  function Converted<T, U>(r: Outcome<seq<T>>, f: T -> U): Outcome<seq<U>> {
    if r.Failed? then Failed(r.error) else Ok(Map(r.value, f))
  }

  /** Two queries with the same answers up to a conversion gather the same candidates up to that conversion. */
  lemma {:induction false} EachMap<T, U>(query: Query<T>, query': Query<U>, f: T -> U, ids: seq<string>, found: seq<T>)
    requires forall i :: 0 <= i < |ids| ==> query'([ids[i]], 1) == Converted(query([ids[i]], 1), f)
    ensures Each(query', ids, Map(found, f)) == Converted(Each(query, ids, found), f)
  {
    if ids != [] {
      var n := |ids| - 1;
      EachMap(query, query', f, ids[..n], found);
      var before, more := Each(query, ids[..n], found), query([ids[n]], 1);
      assert query'([ids[n]], 1) == Converted(more, f);
      if before.Ok? && more.Ok? {
        MapAppend(before.value, more.value, f);
      }
    }
  }

  lemma MapAppend<T, U>(a: seq<T>, b: seq<T>, f: T -> U)
    ensures Map(a + b, f) == Map(a, f) + Map(b, f)
  {
  }

  lemma GatherMap<T, U>(query: Query<T>, query': Query<U>, f: T -> U, ids: seq<string>, topK: nat)
    requires var k := CandidateTopK(topK, ids); query'(ids, k) == Converted(query(ids, k), f)
    requires forall i :: 0 <= i < |FirstSeen(ids)| ==>
               query'([FirstSeen(ids)[i]], 1) == Converted(query([FirstSeen(ids)[i]], 1), f)
    ensures Gather(query', ids, topK) == Converted(Gather(query, ids, topK), f)
  {
    var found := query(ids, CandidateTopK(topK, ids));
    if found.Ok? {
      EachMap(query, query', f, FirstSeen(ids), found.value);
    }
  }

  // ----- ranking and removing duplicates -----

  function Descending<T>(face: T -> Face): T -> real {
    (x: T) => -face(x).score
  }

  function Key(fingerprint: string -> string, f: Face): string {
    if fingerprint(f.text) != "" then fingerprint(f.text) else f.resourceId + ":" + f.id
  }

  function KeyOf<T>(face: T -> Face, fingerprint: string -> string): T -> string {
    (x: T) => Key(fingerprint, face(x))
  }

  /** The first item of every key. */
  function KeepFirst<T>(items: seq<T>, key: T -> string): seq<T> {
    if items == [] then []
    else
      var kept, x := KeepFirst(items[..|items| - 1], key), items[|items| - 1];
      if key(x) in Map(kept, key) then kept else kept + [x]
  }

  method Deduplicate<T>(items: seq<T>, key: T -> string) returns (r: seq<T>)
    ensures r == KeepFirst(items, key)
  {
    var seen: set<string> := {};
    r := [];
    assert items[..0] == [];
    for k := 0 to |items|
      invariant r == KeepFirst(items[..k], key)
      invariant forall s :: s in seen <==> s in Map(r, key)
    {
      assert items[..k + 1][..k] == items[..k];
      if key(items[k]) !in seen {
        MapSnoc(r, items[k], key);
        seen := seen + {key(items[k])};
        r := r + [items[k]];
      }
    }
    assert items[..|items|] == items;
  }

  lemma MapSnoc<T, U>(s: seq<T>, x: T, f: T -> U)
    ensures Map(s + [x], f) == Map(s, f) + [f(x)]
  {
  }

  /** What is kept has the first occurrences of the keys, so no key twice and every key once. */
  lemma {:induction false} KeepFirstKeys<T>(items: seq<T>, key: T -> string)
    ensures Map(KeepFirst(items, key), key) == FirstSeen(Map(items, key))
  {
    if items != [] {
      var n := |items| - 1;
      KeepFirstKeys(items[..n], key);
      assert Map(items, key)[..n] == Map(items[..n], key);
      MapSnoc(KeepFirst(items[..n], key), items[n], key);
    }
  }

  // ----- the threshold -----

  function AtLeast<T>(items: seq<T>, face: T -> Face, threshold: real): seq<T> {
    if items == [] then []
    else
      var kept, x := AtLeast(items[..|items| - 1], face, threshold), items[|items| - 1];
      if face(x).score >= threshold then kept + [x] else kept
  }

  // ----- order and membership through the stages -----

  ghost predicate ScoresFall<T>(items: seq<T>, face: T -> Face) {
    forall i, j :: 0 <= i < j < |items| ==> face(items[i]).score >= face(items[j]).score
  }

  lemma RankedFalls<T>(items: seq<T>, face: T -> Face)
    ensures ScoresFall(Sort(items, Descending(face)), face)
    ensures forall x :: x in Sort(items, Descending(face)) <==> x in items
  {
    var r := Sort(items, Descending(face));
    SortSorts(items, Descending(face));
    forall i, j | 0 <= i < j < |r| ensures face(r[i]).score >= face(r[j]).score {
      assert Descending(face)(r[i]) <= Descending(face)(r[j]);
    }
    forall x ensures x in r <==> x in items {
      SameElements(items, Descending(face), x);
    }
  }

  lemma FallsSnoc<T>(items: seq<T>, x: T, face: T -> Face)
    requires ScoresFall(items, face) && forall i :: 0 <= i < |items| ==> face(items[i]).score >= face(x).score
    ensures ScoresFall(items + [x], face)
  {
  }

  lemma {:induction false} KeepFirstMembers<T>(items: seq<T>, key: T -> string, x: T)
    requires x in KeepFirst(items, key)
    ensures x in items
  {
    var n := |items| - 1;
    if x != items[n] {
      KeepFirstMembers(items[..n], key, x);
    }
  }

  /** Keeping the first of each key keeps the order. */
  lemma {:induction false} KeepFirstFalls<T>(items: seq<T>, key: T -> string, face: T -> Face)
    requires ScoresFall(items, face)
    ensures ScoresFall(KeepFirst(items, key), face)
  {
    if items != [] {
      var n := |items| - 1;
      KeepFirstFalls(items[..n], key, face);
      var kept := KeepFirst(items[..n], key);
      forall i | 0 <= i < |kept| ensures face(kept[i]).score >= face(items[n]).score {
        KeepFirstMembers(items[..n], key, kept[i]);
      }
      FallsSnoc(kept, items[n], face);
    }
  }

  /** A dropped item is represented by one that ranks as high. */
  lemma {:induction false} KeepFirstRepresents<T>(items: seq<T>, key: T -> string, face: T -> Face, i: nat)
    requires ScoresFall(items, face) && i < |items|
    ensures Represented(items[i], KeepFirst(items, key), key, face)
  {
    var n := |items| - 1;
    var kept, x := KeepFirst(items[..n], key), items[n];
    if i < n {
      KeepFirstRepresents(items[..n], key, face, i);
      RepresentedSnoc(items[i], kept, x, key, face);
    } else if key(x) in Map(kept, key) {
      var j :| 0 <= j < |kept| && Map(kept, key)[j] == key(x);
      KeepFirstMembers(items[..n], key, kept[j]);
      assert key(kept[j]) == key(x);
    } else {
      assert (kept + [x])[|kept|] == x;
    }
  }

  ghost predicate Represented<T>(x: T, kept: seq<T>, key: T -> string, face: T -> Face) {
    exists i :: 0 <= i < |kept| && key(kept[i]) == key(x) && face(kept[i]).score >= face(x).score
  }

  lemma RepresentedSnoc<T>(x: T, kept: seq<T>, y: T, key: T -> string, face: T -> Face)
    requires Represented(x, kept, key, face)
    ensures Represented(x, kept + [y], key, face)
  {
    var i :| 0 <= i < |kept| && key(kept[i]) == key(x) && face(kept[i]).score >= face(x).score;
    assert (kept + [y])[i] == kept[i];
  }

  /** On ranked items the threshold cuts off a tail. */
  lemma {:induction false} AtLeastIsPrefix<T>(items: seq<T>, face: T -> Face, threshold: real)
    requires ScoresFall(items, face)
    ensures AtLeast(items, face, threshold) <= items
    ensures forall i :: 0 <= i < |items| ==>
              (i < |AtLeast(items, face, threshold)| <==> face(items[i]).score >= threshold)
  {
    if items != [] {
      var n := |items| - 1;
      AtLeastIsPrefix(items[..n], face, threshold);
      assert items == items[..n] + [items[n]];
    }
  }

  lemma {:induction false} AtLeastNone<T>(items: seq<T>, face: T -> Face, threshold: real)
    requires forall x :: x in items ==> face(x).score < threshold
    ensures AtLeast(items, face, threshold) == []
  {
    if items != [] {
      assert items[|items| - 1] in items;
      AtLeastNone(items[..|items| - 1], face, threshold);
    }
  }

  // ----- what survives -----

  /** The items by falling score, the first of each key when several resources are searched. */
  function Deduped<T>(items: seq<T>, face: T -> Face, fingerprint: string -> string, multi: bool): seq<T> {
    var ranked := Sort(items, Descending(face));
    if multi then KeepFirst(ranked, KeyOf(face, fingerprint)) else ranked
  }

  /** The ranked, duplicate-free, relevant items, at most `topK` of them. */
  function Survivors<T>(items: seq<T>, face: T -> Face, fingerprint: string -> string, multi: bool,
                        threshold: real, topK: nat): seq<T> {
    Take(AtLeast(Deduped(items, face, fingerprint, multi), face, threshold), topK)
  }

  method Survive<T>(items: seq<T>, face: T -> Face, fingerprint: string -> string, multi: bool,
                    threshold: real, topK: nat) returns (r: seq<T>)
    ensures r == Survivors(items, face, fingerprint, multi, threshold, topK)
  {
    r := Sort(items, Descending(face));
    if multi {
      r := Deduplicate(r, KeyOf(face, fingerprint));
    }
    r := Take(AtLeast(r, face, threshold), topK);
  }

  lemma DedupedIsRanked<T>(items: seq<T>, face: T -> Face, fingerprint: string -> string, multi: bool)
    ensures var r := Deduped(items, face, fingerprint, multi);
            && ScoresFall(r, face)
            && (forall x :: x in r ==> x in items)
            && (multi ==> Distinct(Map(r, KeyOf(face, fingerprint))))
  {
    var ranked, key := Sort(items, Descending(face)), KeyOf(face, fingerprint);
    RankedFalls(items, face);
    forall x | x in Deduped(items, face, fingerprint, multi) ensures x in items {
      if multi {
        KeepFirstMembers(ranked, key, x);
      }
      SameElements(items, Descending(face), x);
    }
    if multi {
      KeepFirstFalls(ranked, key, face);
      KeepFirstKeys(ranked, key);
      FirstSeenIsDistinct(Map(ranked, key));
    }
  }

  /** Cutting ranked items at a threshold and a number leaves a prefix. */
  lemma CutIsPrefix<T>(items: seq<T>, face: T -> Face, threshold: real, topK: nat)
    requires ScoresFall(items, face)
    ensures var r := Take(AtLeast(items, face, threshold), topK);
            && r <= items && |r| <= topK
            && (forall i :: 0 <= i < |r| ==> face(r[i]).score >= threshold)
            && (forall i :: |r| <= i < |items| && face(items[i]).score >= threshold ==> |r| == topK)
  {
    AtLeastIsPrefix(items, face, threshold);
  }

  lemma PrefixDistinct<T, U>(r: seq<T>, items: seq<T>, f: T -> U)
    requires r <= items && Distinct(Map(items, f))
    ensures Distinct(Map(r, f))
  {
    var all := Map(items, f);
    assert forall i :: 0 <= i < |r| ==> Map(r, f)[i] == all[i];
  }

  lemma PrefixFalls<T>(r: seq<T>, items: seq<T>, face: T -> Face)
    requires r <= items && ScoresFall(items, face)
    ensures ScoresFall(r, face)
  {
    assert forall i :: 0 <= i < |r| ==> r[i] == items[i];
  }

  /** Survivors are candidates at or above the threshold, in order of falling score, without duplicates. */
  lemma SurvivorsAreRanked<T>(items: seq<T>, face: T -> Face, fingerprint: string -> string, multi: bool,
                              threshold: real, topK: nat)
    ensures var r := Survivors(items, face, fingerprint, multi, threshold, topK);
            && |r| <= topK && ScoresFall(r, face)
            && (forall i :: 0 <= i < |r| ==> r[i] in items && face(r[i]).score >= threshold)
            && (multi ==> Distinct(Map(r, KeyOf(face, fingerprint))))
  {
    var deduped := Deduped(items, face, fingerprint, multi);
    DedupedIsRanked(items, face, fingerprint, multi);
    CutIsPrefix(deduped, face, threshold, topK);
    var r := Survivors(items, face, fingerprint, multi, threshold, topK);
    PrefixFalls(r, deduped, face);
    forall i | 0 <= i < |r| ensures r[i] in items {
      assert deduped[i] == r[i];
    }
    if multi {
      PrefixDistinct(r, deduped, KeyOf(face, fingerprint));
    }
  }

  lemma NoneSurvives<T>(items: seq<T>, face: T -> Face, fingerprint: string -> string, multi: bool,
                        threshold: real, topK: nat)
    requires forall x :: x in items ==> face(x).score < threshold
    ensures Survivors(items, face, fingerprint, multi, threshold, topK) == []
  {
    DedupedIsRanked(items, face, fingerprint, multi);
    AtLeastNone(Deduped(items, face, fingerprint, multi), face, threshold);
  }

  /** The position, before the cut, of an item that stands for `x`: itself unless duplicates are dropped. */
  lemma StandIn<T>(items: seq<T>, face: T -> Face, fingerprint: string -> string, multi: bool, x: T) returns (i: nat)
    requires x in items
    ensures var deduped := Deduped(items, face, fingerprint, multi);
            && i < |deduped| && face(deduped[i]).score >= face(x).score
            && Key(fingerprint, face(deduped[i])) == Key(fingerprint, face(x))
            && (!multi ==> deduped[i] == x)
  {
    var ranked, key := Sort(items, Descending(face)), KeyOf(face, fingerprint);
    RankedFalls(items, face);
    var j :| 0 <= j < |ranked| && ranked[j] == x;
    i := j;
    if multi {
      KeepFirstRepresents(ranked, key, face, j);
      var kept := KeepFirst(ranked, key);
      i :| 0 <= i < |kept| && key(kept[i]) == key(x) && face(kept[i]).score >= face(x).score;
    }
  }

  /** Nothing better is dropped: a relevant candidate is represented by a survivor with its key that ranks as high
      (itself, when duplicates are kept), or the result is full of items that rank as high. */
  lemma NothingBetterIsDropped<T>(items: seq<T>, face: T -> Face, fingerprint: string -> string, multi: bool,
                                  threshold: real, topK: nat, x: T)
    requires x in items && face(x).score >= threshold
    ensures var r := Survivors(items, face, fingerprint, multi, threshold, topK);
            || (if multi then Represented(x, r, KeyOf(face, fingerprint), face) else x in r)
            || (|r| == topK && forall i :: 0 <= i < |r| ==> face(r[i]).score >= face(x).score)
  {
    var deduped := Deduped(items, face, fingerprint, multi);
    DedupedIsRanked(items, face, fingerprint, multi);
    CutIsPrefix(deduped, face, threshold, topK);
    var r := Survivors(items, face, fingerprint, multi, threshold, topK);
    var i := StandIn(items, face, fingerprint, multi, x);
    if i < |r| {
      assert r[i] == deduped[i];
      assert KeyOf(face, fingerprint)(r[i]) == KeyOf(face, fingerprint)(x);
    } else {
      assert forall j :: 0 <= j < |r| ==> r[j] == deduped[j];
    }
  }

  // ----- the stages commute with a conversion that keeps the fields they read -----

  lemma {:induction false} KeepFirstMap<T, U>(items: seq<T>, f: T -> U, key: T -> string, key': U -> string)
    requires forall x :: x in items ==> key'(f(x)) == key(x)
    ensures KeepFirst(Map(items, f), key') == Map(KeepFirst(items, key), f)
    ensures Map(KeepFirst(Map(items, f), key'), key') == Map(KeepFirst(items, key), key)
  {
    if items != [] {
      var n := |items| - 1;
      KeepFirstMap(items[..n], f, key, key');
      assert Map(items, f)[..n] == Map(items[..n], f);
      assert items[n] in items;
      var kept := KeepFirst(items[..n], key);
      MapSnoc(kept, items[n], f);
      MapSnoc(kept, items[n], key);
      MapSnoc(Map(kept, f), f(items[n]), key');
    }
  }

  lemma {:induction false} AtLeastMap<T, U>(items: seq<T>, f: T -> U, face: T -> Face, face': U -> Face,
                                            threshold: real)
    requires forall x :: x in items ==> face'(f(x)) == face(x)
    ensures AtLeast(Map(items, f), face', threshold) == Map(AtLeast(items, face, threshold), f)
  {
    if items != [] {
      var n := |items| - 1;
      AtLeastMap(items[..n], f, face, face', threshold);
      assert Map(items, f)[..n] == Map(items[..n], f);
      assert items[n] in items;
      MapSnoc(AtLeast(items[..n], face, threshold), items[n], f);
    }
  }

  lemma TakeMap<T, U>(items: seq<T>, f: T -> U, n: nat)
    ensures Take(Map(items, f), n) == Map(Take(items, n), f)
  {
  }

  lemma DedupedMap<T, U>(items: seq<T>, f: T -> U, face: T -> Face, face': U -> Face,
                         fingerprint: string -> string, multi: bool)
    requires forall x :: x in items ==> face'(f(x)) == face(x)
    ensures Deduped(Map(items, f), face', fingerprint, multi) == Map(Deduped(items, face, fingerprint, multi), f)
  {
    var key, key' := KeyOf(face, fingerprint), KeyOf(face', fingerprint);
    var ranked := Sort(items, Descending(face));
    forall x | x in items ensures Descending(face')(f(x)) == Descending(face)(x) {
    }
    SortMap(items, f, Descending(face), Descending(face'));
    if multi {
      forall x | x in ranked ensures key'(f(x)) == key(x) {
        SameElements(items, Descending(face), x);
      }
      KeepFirstMap(ranked, f, key, key');
    }
  }

  /** Converting the candidates first or the survivors last gives the same items. */
  lemma SurvivorsMap<T, U>(items: seq<T>, f: T -> U, face: T -> Face, face': U -> Face,
                           fingerprint: string -> string, multi: bool, threshold: real, topK: nat)
    requires forall x :: x in items ==> face'(f(x)) == face(x)
    ensures Survivors(Map(items, f), face', fingerprint, multi, threshold, topK)
         == Map(Survivors(items, face, fingerprint, multi, threshold, topK), f)
  {
    var deduped := Deduped(items, face, fingerprint, multi);
    DedupedIsRanked(items, face, fingerprint, multi);
    DedupedMap(items, f, face, face', fingerprint, multi);
    AtLeastMap(deduped, f, face, face', threshold);
    TakeMap(AtLeast(deduped, face, threshold), f, topK);
  }

  // ----- the token budget -----

  function Total(sizes: seq<nat>): nat {
    if sizes == [] then 0 else Total(sizes[..|sizes| - 1]) + sizes[|sizes| - 1]
  }

  /** How many items from the front are kept: they fit the budget, except that the first is always kept. */
  function Fit(sizes: seq<nat>, budget: nat): nat {
    if sizes == [] then 0
    else
      var n := |sizes| - 1;
      var before := Fit(sizes[..n], budget);
      if before < n then before
      else if n == 0 || Total(sizes) <= budget then n + 1
      else n
  }

  /** `n` is the longest prefix within the budget, or the first item alone where it exceeds the budget. */
  ghost predicate LongestFit(sizes: seq<nat>, budget: nat, n: nat) {
    && n <= |sizes| && (sizes != [] ==> n >= 1)
    && (n > 1 ==> Total(sizes[..n]) <= budget)
    && (forall m :: n < m <= |sizes| ==> Total(sizes[..m]) > budget)
  }

  lemma {:induction false} TotalGrows(sizes: seq<nat>, m: nat, n: nat)
    requires m <= n <= |sizes|
    ensures Total(sizes[..m]) <= Total(sizes[..n])
  {
    if m < n {
      TotalGrows(sizes, m, n - 1);
      assert sizes[..n][..n - 1] == sizes[..n - 1];
    }
  }

  lemma {:induction false} FitIsLongest(sizes: seq<nat>, budget: nat)
    ensures LongestFit(sizes, budget, Fit(sizes, budget))
  {
    if sizes != [] {
      var n := |sizes| - 1;
      FitIsLongest(sizes[..n], budget);
      assert sizes[..n + 1] == sizes;
      assert forall m :: 0 <= m <= n ==> sizes[..n][..m] == sizes[..m];
      TotalGrows(sizes, n, n + 1);
    }
  }

  /** `Fit` is the one number of items with this property. */
  lemma LongestIffFit(sizes: seq<nat>, budget: nat, n: nat)
    ensures LongestFit(sizes, budget, n) <==> n == Fit(sizes, budget)
  {
    FitIsLongest(sizes, budget);
  }

  lemma {:induction false} FitStops(sizes: seq<nat>, budget: nat, k: nat)
    requires k <= |sizes| && Fit(sizes[..k], budget) < k
    ensures Fit(sizes, budget) == Fit(sizes[..k], budget)
  {
    if k < |sizes| {
      var n := |sizes| - 1;
      assert sizes[..n][..k] == sizes[..k];
      FitStops(sizes[..n], budget, k);
      FitBelow(sizes[..k], budget);
    } else {
      assert sizes[..k] == sizes;
    }
  }

  lemma {:induction false} FitBelow(sizes: seq<nat>, budget: nat)
    ensures Fit(sizes, budget) <= |sizes|
  {
    if sizes != [] {
      FitBelow(sizes[..|sizes| - 1], budget);
    }
  }

  function SizeOf<T>(face: T -> Face, count: string -> nat): T -> nat {
    (x: T) => count(face(x).text)
  }

  /** The longest prefix that fits, and its tokens. */
  method Compress<T>(items: seq<T>, face: T -> Face, count: string -> nat, budget: nat)
    returns (selected: seq<T>, total: nat)
    ensures var sizes := Map(items, SizeOf(face, count));
            && selected == Take(items, Fit(sizes, budget))
            && total == Total(Take(sizes, Fit(sizes, budget)))
  {
    ghost var sizes := Map(items, SizeOf(face, count));
    selected, total := [], 0;
    assert sizes[..0] == [] && items[..0] == [];
    for k := 0 to |items|
      invariant selected == items[..k] && total == Total(sizes[..k]) && Fit(sizes[..k], budget) == k
    {
      var size := count(face(items[k]).text);
      assert sizes[..k + 1][..k] == sizes[..k] && sizes[k] == size;
      if selected != [] && total + size > budget {
        FitStops(sizes, budget, k + 1);
        return;
      }
      selected := selected + [items[k]];
      total := total + size;
    }
    assert sizes[..|items|] == sizes;
  }
}
