/** The least-recently-used cache of BM25 indexes
    (ai-service/app/services/hybrid_retrieval/hybrid_retrieval_service.py). */
module Bm25Cache {
  import opened Text
  import opened CacheKey
  import opened Lists

  /** An index is identified by the documents it was built from. */
  type Index = seq<string>

  /** The store's answer to a corpus query: a function of the user and the set of resources, or a failure. */
  type Corpus = (string, set<string>) -> Option<Index>

  function IdSet(ids: seq<string>): set<string> {
    set id | id in ids
  }

  // ----- the cache -----

  /** The keys after an access to `key`: moved or added to the end, the oldest evicted. */
  function Touch(order: seq<string>, key: string, maxEntries: nat): seq<string> {
    Newest(Without(order, key) + [key], maxEntries)
  }

  /** The last `maxEntries` entries. */
  function Newest(order: seq<string>, maxEntries: nat): seq<string> {
    if |order| <= maxEntries then order else order[|order| - maxEntries..]
  }

  /** The ordered dictionary, oldest entry first. */
  class Cache {
    var order: seq<string>
    var index: map<string, Index>
    const maxEntries: nat
    const enabled: bool

    ghost predicate Valid()
      reads this
    {
      && Distinct(order) && |order| <= maxEntries
      && (forall k :: k in index <==> k in order)
    }

    constructor (maxEntries: nat, enabled: bool)
      ensures Valid() && order == [] && index == map[]
      ensures this.maxEntries == maxEntries && this.enabled == enabled
    {
      order, index := [], map[];
      this.maxEntries, this.enabled := maxEntries, enabled;
    }

    /** Drop the oldest entries until at most `maxEntries` remain. */
    method Evict()
      requires Distinct(order) && forall k :: k in index <==> k in order
      modifies this
      ensures Valid()
      ensures order == Newest(old(order), maxEntries)
      ensures Submap(index, old(index))
    {
      while |order| > maxEntries
        invariant Distinct(order) && forall k :: k in index <==> k in order
        invariant Newest(order, maxEntries) == Newest(old(order), maxEntries)
        invariant Submap(index, old(index))
        decreases |order|
      {
        DropOldest(order, maxEntries);
        index := index - {order[0]};
        order := order[1..];
      }
    }

    /** Add a new entry and evict. */
    method Insert(key: string, value: Index)
      requires Valid() && key !in index
      modifies this
      ensures Valid()
      ensures order == Touch(old(order), key, maxEntries)
      ensures Submap(index, old(index)[key := value])
    {
      AddToEnd(order, key);
      index := index[key := value];
      order := order + [key];
      Evict();
    }

    /** The index for a request: from the cache, or built from the corpus and cached. */
    method GetOrBuild(user: string, ids: seq<string>, corpus: Corpus) returns (r: Option<Index>)
      requires Valid()
      modifies this
      ensures Valid()
      ensures var key := Key(user, ids);
              if enabled && key in old(index) then
                r == Some(old(index)[key]) && order == Touch(old(order), key, maxEntries) && index == old(index)
              else if corpus(user, IdSet(ids)).None? || !enabled then
                r == corpus(user, IdSet(ids)) && order == old(order) && index == old(index)
              else
                && r == corpus(user, IdSet(ids)) && order == Touch(old(order), key, maxEntries)
                && Submap(index, old(index)[key := r.value])
      ensures Readable(ids) && Fresh(old(index), corpus) ==> Fresh(index, corpus) && r == corpus(user, IdSet(ids))
    {
      var key := Key(user, ids);
      if enabled && key in index {
        MoveToEnd(order, key, maxEntries);
        order := Without(order, key) + [key];
        return Some(index[key]);
      }
      r := corpus(user, IdSet(ids));
      if r.Some? && enabled {
        ghost var before := index;
        Insert(key, r.value);
        if Readable(ids) && Fresh(before, corpus) {
          BuildKeepsFresh(before, user, ids, corpus);
          FewerKeepFresh(before[key := r.value], index, corpus);
        }
      }
    }
  }

  ghost predicate Submap(small: map<string, Index>, big: map<string, Index>) {
    forall k :: k in small ==> k in big && small[k] == big[k]
  }

  /** Ids the key can be read back from. */
  ghost predicate Readable(ids: seq<string>) {
    PlainIds(ids) && ids != [""]
  }

  /** Every cached index is what building afresh would give, for every request with readable resource ids. */
  ghost predicate Fresh(index: map<string, Index>, corpus: Corpus) {
    forall user, ids :: Readable(ids) && Key(user, ids) in index ==>
        corpus(user, IdSet(ids)) == Some(index[Key(user, ids)])
  }

  lemma SameKeySameSet(user: string, ids: seq<string>, user': string, ids': seq<string>)
    requires Readable(ids) && Readable(ids') && Key(user, ids) == Key(user', ids')
    ensures user == user' && IdSet(ids) == IdSet(ids')
  {
    KeyIdentifies(user, ids, user', ids');
    assert forall id :: id in ids <==> id in multiset(ids);
    assert forall id :: id in ids' <==> id in multiset(ids');
  }

  lemma BuildKeepsFresh(index: map<string, Index>, user: string, ids: seq<string>, corpus: Corpus)
    requires Fresh(index, corpus) && Readable(ids) && corpus(user, IdSet(ids)).Some?
    ensures Fresh(index[Key(user, ids) := corpus(user, IdSet(ids)).value], corpus)
  {
    var grown := index[Key(user, ids) := corpus(user, IdSet(ids)).value];
    forall user', ids' | Readable(ids') && Key(user', ids') in grown
      ensures corpus(user', IdSet(ids')) == Some(grown[Key(user', ids')])
    {
      if Key(user', ids') == Key(user, ids) {
        SameKeySameSet(user, ids, user', ids');
      }
    }
  }

  lemma FewerKeepFresh(index: map<string, Index>, fewer: map<string, Index>, corpus: Corpus)
    requires Fresh(index, corpus) && Submap(fewer, index)
    ensures Fresh(fewer, corpus)
  {
  }

  lemma DropOldest(order: seq<string>, maxEntries: nat)
    requires |order| > maxEntries && Distinct(order)
    ensures Distinct(order[1..]) && forall k :: k in order[1..] <==> k in order && k != order[0]
    ensures Newest(order[1..], maxEntries) == Newest(order, maxEntries)
  {
    var rest := order[1..];
    assert order == [order[0]] + rest;
    assert forall i :: 0 <= i < |rest| ==> rest[i] == order[i + 1];
  }

  lemma MoveToEnd(order: seq<string>, key: string, maxEntries: nat)
    requires Distinct(order) && key in order && |order| <= maxEntries
    ensures Touch(order, key, maxEntries) == Without(order, key) + [key]
    ensures Distinct(Without(order, key) + [key]) && |Without(order, key) + [key]| == |order|
    ensures forall k :: k in Without(order, key) + [key] <==> k in order
  {
    WithoutOne(order, key);
  }

  lemma AddToEnd(order: seq<string>, key: string)
    requires Distinct(order) && key !in order
    ensures Distinct(order + [key]) && Without(order, key) == order
  {
  }

  // ----- what the cache holds after any history -----

  /** The keys after a history of successful accesses. */
  function Played(history: seq<string>, maxEntries: nat): seq<string> {
    if history == [] then []
    else Touch(Played(history[..|history| - 1], maxEntries), history[|history| - 1], maxEntries)
  }

  lemma ReverseTouch(order: seq<string>, key: string, maxEntries: nat)
    ensures Reverse(Touch(order, key, maxEntries)) == Take([key] + Without(Reverse(order), key), maxEntries)
  {
    ReverseSnoc(Without(order, key), key);
    ReverseWithout(order, key);
    ReverseNewest(Without(order, key) + [key], maxEntries);
  }

  lemma ReverseNewest(order: seq<string>, maxEntries: nat)
    ensures Reverse(Newest(order, maxEntries)) == Take(Reverse(order), maxEntries)
  {
    if |order| > maxEntries {
      ReverseSuffix(order, maxEntries);
    }
  }

  /** After any history of successful accesses the keys, newest first, are the first `maxEntries` distinct keys of the
      reversed history. */
  lemma {:induction false} LeastRecentlyUsed(history: seq<string>, maxEntries: nat)
    ensures Reverse(Played(history, maxEntries)) == Take(FirstSeen(Reverse(history)), maxEntries)
  {
    if history != [] {
      var n := |history| - 1;
      var before, key := history[..n], history[n];
      LeastRecentlyUsed(before, maxEntries);
      ReverseTouch(Played(before, maxEntries), key, maxEntries);
      FirstSeenIsDistinct(Reverse(before));
      TakeFront(FirstSeen(Reverse(before)), key, maxEntries);
      FirstSeenCons(key, Reverse(before));
    }
  }
}
