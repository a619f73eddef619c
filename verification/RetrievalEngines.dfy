/** The two retrieval paths: the service that works on search results
    (ai-service/app/services/retrieval/retrieval_service.py) and the LlamaIndex engine, which asks the same store
    through an adapter and works on nodes (ai-service/app/services/llamaindex/retrieval_engine.py,
    milvus_adapter.py, filters.py, metadata_mapper.py). */
module RetrievalEngines {
  import opened Text
  import opened Lists
  import opened StableSort
  import opened RetrievalStages

  datatype Value = Str(s: string) | Num(x: real)

  /** The metadata keys the mapping knows, and any other. */
  datatype Field = ChunkId | Id | ResourceId | UserId | Score | ResourceType | SourceType
                 | TimestampStart | TimestampEnd | StartSec | EndSec | Other(name: string)

  type Metadata = map<Field, Value>

  datatype Hit = Hit(id: string, resourceId: string, userId: string, text: string, metadata: Metadata, score: real)
  datatype Node = Node(nodeId: string, text: string, metadata: Metadata)
  datatype Chunk = Chunk(chunkId: string, resourceId: string, text: string, score: real, metadata: Metadata)

  datatype Request = Request(question: string, userId: string, resourceIds: seq<string>, topK: nat,
                             threshold: Option<real>, budget: Option<nat>)
  datatype Config = Config(defaultTopK: nat, threshold: real, budget: nat)
  datatype Reply = Reply(chunks: seq<Chunk>, tokens: nat)

  /** The store as a query answered per user and set of resources (no answer: the embedding or the store failed),
      with the store's own limit; the token counter; and the digest of a text, empty for a blank one. */
  datatype Backend = Backend(find: (string, string, set<string>, nat) -> Option<seq<Hit>>, limit: nat,
                             count: string -> nat, fingerprint: string -> string) {

    function Search(question: string, userId: string, ids: seq<string>, topK: nat): Outcome<seq<Hit>> {
      var r := find(question, userId, (set id | id in ids), Min(topK, limit));
      if r.None? then Failed(Unavailable) else Ok(r.value)
    }
  }

  function TopK(cfg: Config, req: Request): nat {
    if req.topK == 0 then cfg.defaultTopK else req.topK
  }

  function Threshold(cfg: Config, req: Request): real {
    if req.threshold.None? then cfg.threshold else req.threshold.value
  }

  function Budget(cfg: Config, req: Request): nat {
    if req.budget.None? then cfg.budget else req.budget.value
  }

  predicate InScope(userId: string, resourceId: string, req: Request) {
    userId == req.userId && resourceId in req.resourceIds
  }

  // ----- the service -----

  function HitFace(h: Hit): Face {
    Face(h.id, h.resourceId, h.text, h.score)
  }

  function HitChunk(h: Hit): Chunk {
    Chunk(h.id, h.resourceId, h.text, h.score, h.metadata)
  }

  predicate HitsInScope(hits: seq<Hit>, req: Request) {
    forall i :: 0 <= i < |hits| ==> InScope(hits[i].userId, hits[i].resourceId, req)
  }

  function HitQuery(b: Backend, req: Request): Query<Hit> {
    (ids: seq<string>, topK: nat) => b.Search(req.question, req.userId, ids, topK)
  }

  function HitSurvivors(b: Backend, cfg: Config, req: Request, hits: seq<Hit>): seq<Hit> {
    Survivors(hits, HitFace, b.fingerprint, Multi(req.resourceIds), Threshold(cfg, req), TopK(cfg, req))
  }

  /** The chunks within the budget and their tokens. */
  function Fitted<T>(b: Backend, items: seq<T>, face: T -> Face, chunk: T -> Chunk, budget: nat): Reply {
    var sizes := Map(items, SizeOf(face, b.count));
    Reply(Map(Take(items, Fit(sizes, budget)), chunk), Total(Take(sizes, Fit(sizes, budget))))
  }

  function Service(b: Backend, cfg: Config, req: Request): Outcome<Reply> {
    var hits := Gather(HitQuery(b, req), req.resourceIds, TopK(cfg, req));
    if hits.Failed? then Failed(hits.error)
    else
      var kept := HitSurvivors(b, cfg, req, hits.value);
      if !HitsInScope(kept, req) then Failed(Forbidden)
      else Ok(Fitted(b, kept, HitFace, HitChunk, Budget(cfg, req)))
  }

  method CheckHits(hits: seq<Hit>, req: Request) returns (ok: bool)
    ensures ok == HitsInScope(hits, req)
  {
    for i := 0 to |hits|
      invariant HitsInScope(hits[..i], req)
    {
      if hits[i].userId != req.userId || hits[i].resourceId !in req.resourceIds {
        return false;
      }
    }
    assert hits[..|hits|] == hits;
    return true;
  }

  method ServiceRetrieve(b: Backend, cfg: Config, req: Request) returns (r: Outcome<Reply>)
    ensures r == Service(b, cfg, req)
  {
    var hits := GatherCandidates(HitQuery(b, req), req.resourceIds, TopK(cfg, req));
    if hits.Failed? {
      return Failed(hits.error);
    }
    var kept := Survive(hits.value, HitFace, b.fingerprint, Multi(req.resourceIds), Threshold(cfg, req),
                            TopK(cfg, req));
    var allowed := CheckHits(kept, req);
    if !allowed {
      return Failed(Forbidden);
    }
    var selected, tokens := Compress(kept, HitFace, b.count, Budget(cfg, req));
    r := Ok(Reply(Map(selected, HitChunk), tokens));
  }

  // ----- search results as nodes and back -----

  /** A missing key is filled in from its other spelling. */
  function Filled(m: Metadata, to: Field, from: Field): Metadata {
    if to !in m && from in m then m[to := m[from]] else m
  }

  function KindsFilled(m: Metadata): Metadata {
    Filled(Filled(Filled(m, ChunkId, Id), ResourceType, SourceType), SourceType, ResourceType)
  }

  function TimesFilled(m: Metadata): Metadata {
    var both := Filled(Filled(m, TimestampStart, StartSec), TimestampEnd, EndSec);
    Filled(Filled(both, StartSec, TimestampStart), EndSec, TimestampEnd)
  }

  /** `_normalize_metadata`. */
  function Normalized(m: Metadata): Metadata {
    TimesFilled(KindsFilled(m))
  }

  /** Both spellings are there if either was, with the values given. */
  ghost predicate Spelled(m: Metadata, r: Metadata, a: Field, b: Field) {
    && (a in r <==> a in m || b in m) && (b in r <==> a in m || b in m)
    && (a in m ==> r[a] == m[a]) && (b in m ==> r[b] == m[b])
    && (a in m && b !in m ==> r[b] == m[a]) && (b in m && a !in m ==> r[a] == m[b])
  }

  ghost predicate Unchanged(m: Metadata, r: Metadata, k: Field) {
    (k in r <==> k in m) && (k in m ==> r[k] == m[k])
  }

  lemma FilledTwice(m: Metadata, a: Field, b: Field)
    requires a != b
    ensures Spelled(m, Filled(Filled(m, a, b), b, a), a, b)
  {
  }

  lemma KindsSpelled(m: Metadata, k: Field)
    ensures Spelled(m, KindsFilled(m), ResourceType, SourceType)
    ensures k !in {ChunkId, ResourceType, SourceType} ==> Unchanged(m, KindsFilled(m), k)
    ensures Unchanged(Filled(m, ChunkId, Id), KindsFilled(m), ChunkId)
  {
    var m1 := Filled(m, ChunkId, Id);
    FilledTwice(m1, ResourceType, SourceType);
  }

  lemma TimesSpelled(m: Metadata, k: Field)
    ensures Spelled(m, TimesFilled(m), TimestampStart, StartSec) && Spelled(m, TimesFilled(m), TimestampEnd, EndSec)
    ensures k !in {TimestampStart, StartSec, TimestampEnd, EndSec} ==> Unchanged(m, TimesFilled(m), k)
  {
  }

  /** Normalized metadata has both spellings of what has either, with the value given, and nothing new besides. */
  lemma NormalizedFills(m: Metadata, k: Field)
    ensures Spelled(m, Normalized(m), ResourceType, SourceType)
    ensures Spelled(m, Normalized(m), TimestampStart, StartSec) && Spelled(m, Normalized(m), TimestampEnd, EndSec)
    ensures ChunkId in Normalized(m) <==> ChunkId in m || Id in m
    ensures ChunkId in m ==> Normalized(m)[ChunkId] == m[ChunkId]
    ensures ChunkId !in m && Id in m ==> Normalized(m)[ChunkId] == m[Id]
    ensures k.Id? || k.ResourceId? || k.UserId? || k.Score? || k.Other? ==> Unchanged(m, Normalized(m), k)
  {
    var kinds := KindsFilled(m);
    KindsSpelled(m, k);
    KindsSpelled(m, TimestampStart);
    KindsSpelled(m, StartSec);
    KindsSpelled(m, TimestampEnd);
    KindsSpelled(m, EndSec);
    TimesSpelled(kinds, k);
    TimesSpelled(kinds, ResourceType);
    TimesSpelled(kinds, SourceType);
    TimesSpelled(kinds, ChunkId);
  }

  lemma NormalizedKeeps(m: Metadata, k: Field)
    requires k in m
    ensures k in Normalized(m) && Normalized(m)[k] == m[k]
  {
    NormalizedFills(m, k);
  }

  function ToNode(h: Hit): Node {
    Node(h.id, h.text, Normalized(h.metadata)[ChunkId := Str(h.id)][ResourceId := Str(h.resourceId)]
      [UserId := Str(h.userId)][Score := Num(h.score)])
  }

  /** The text under a key, or another where it is missing or empty. A number never stands under these keys. */
  function Said(m: Metadata, key: Field, other: string): string {
    if key in m && m[key].Str? && m[key].s != "" then m[key].s else other
  }

  function ToChunk(n: Node): Chunk {
    var m := Normalized(n.metadata);
    Chunk(Said(m, ChunkId, n.nodeId), Said(m, ResourceId, ""), n.text,
          if Score in m && m[Score].Num? then m[Score].x else 0.0, m)
  }

  function ChunkFace(c: Chunk): Face {
    Face(c.chunkId, c.resourceId, c.text, c.score)
  }

  function ViaNode(h: Hit): Chunk {
    ToChunk(ToNode(h))
  }

  /** A search result passes through a node with its identity, text, score and owner intact, and keeps its other
      metadata. */
  lemma NodeRoundTrip(h: Hit)
    ensures ChunkFace(ViaNode(h)) == HitFace(h)
    ensures Said(ViaNode(h).metadata, UserId, "") == h.userId
    ensures Matches(ViaNode(h), HitChunk(h))
  {
    var m := ToNode(h).metadata;
    NormalizedKeeps(m, ChunkId);
    NormalizedKeeps(m, ResourceId);
    NormalizedKeeps(m, UserId);
    NormalizedKeeps(m, Score);
    forall k | k in h.metadata && k !in {ChunkId, ResourceId, UserId, Score}
      ensures k in ViaNode(h).metadata && ViaNode(h).metadata[k] == h.metadata[k] {
      OthersKept(h, k);
    }
  }

  lemma OthersKept(h: Hit, k: Field)
    requires k in h.metadata && k !in {ChunkId, ResourceId, UserId, Score}
    ensures k in Normalized(ToNode(h).metadata) && Normalized(ToNode(h).metadata)[k] == h.metadata[k]
  {
    NormalizedKeeps(h.metadata, k);
    NormalizedKeeps(ToNode(h).metadata, k);
  }

  /** The same chunk up to the metadata the mapping adds. */
  ghost predicate Matches(engine: Chunk, service: Chunk) {
    && ChunkFace(engine) == ChunkFace(service)
    && forall k :: k in service.metadata && k !in {ChunkId, ResourceId, UserId, Score} ==>
         k in engine.metadata && engine.metadata[k] == service.metadata[k]
  }

  // ----- the engine -----

  function Strips(ids: seq<string>): seq<string> {
    if ids == [] then []
    else
      var n := |ids| - 1;
      Strips(ids[..n]) + (if Strip(ids[n]) != "" then [Strip(ids[n])] else [])
  }

  /** `_normalize_resource_ids`: trimmed, without blanks and repetitions. */
  method NormalizeIds(ids: seq<string>) returns (r: seq<string>)
    ensures r == FirstSeen(Strips(ids))
  {
    var seen: set<string> := {};
    r := [];
    assert ids[..0] == [];
    for k := 0 to |ids|
      invariant r == FirstSeen(Strips(ids[..k]))
      invariant forall s :: s in seen <==> s in r
    {
      assert ids[..k + 1][..k] == ids[..k];
      FirstSeenSnoc(Strips(ids[..k]), Strip(ids[k]));
      assert Strips(ids[..k]) + [] == Strips(ids[..k]);
      var value := Strip(ids[k]);
      if value != "" && value !in seen {
        r := r + [value];
        seen := seen + {value};
      }
    }
    assert ids[..|ids|] == ids;
  }

  /** `MKCVectorStoreAdapter.query`. */
  function Adapted(b: Backend, req: Request, ids: seq<string>, topK: nat): Outcome<seq<Node>> {
    var normalized := FirstSeen(Strips(ids));
    if Strip(req.userId) == "" || normalized == [] then Failed(InvalidFilter)
    else
      var hits := b.Search(req.question, Strip(req.userId), normalized, Min(topK, b.limit));
      if hits.Failed? then Failed(hits.error) else Ok(Map(hits.value, ToNode))
  }

  function NodeQuery(b: Backend, req: Request): Query<Node> {
    (ids: seq<string>, topK: nat) => Adapted(b, req, ids, topK)
  }

  predicate ChunksInScope(chunks: seq<Chunk>, req: Request) {
    forall i :: 0 <= i < |chunks| ==> InScope(Said(chunks[i].metadata, UserId, ""), chunks[i].resourceId, req)
  }

  function Same(c: Chunk): Chunk {
    c
  }

  function Engine(b: Backend, cfg: Config, req: Request): Outcome<Reply> {
    if Strip(req.question) == "" || Strip(req.userId) == "" || req.resourceIds == [] then Failed(InvalidRequest)
    else
      var nodes := Gather(NodeQuery(b, req), req.resourceIds, TopK(cfg, req));
      if nodes.Failed? then Failed(nodes.error)
      else
        var chunks := Map(nodes.value, ToChunk);
        if !ChunksInScope(chunks, req) then Failed(Forbidden)
        else
          var kept := Survivors(chunks, ChunkFace, b.fingerprint, Multi(req.resourceIds), Threshold(cfg, req),
              TopK(cfg, req));
          Ok(Fitted(b, kept, ChunkFace, Same, Budget(cfg, req)))
  }

  method CheckChunks(chunks: seq<Chunk>, req: Request) returns (ok: bool)
    ensures ok == ChunksInScope(chunks, req)
  {
    for i := 0 to |chunks|
      invariant ChunksInScope(chunks[..i], req)
    {
      if Said(chunks[i].metadata, UserId, "") != req.userId || chunks[i].resourceId !in req.resourceIds {
        return false;
      }
    }
    assert chunks[..|chunks|] == chunks;
    return true;
  }

  lemma {:induction false} BlanksStripped(ids: seq<string>)
    requires forall i :: 0 <= i < |ids| ==> Strip(ids[i]) == ""
    ensures Strips(ids) == []
  {
    if ids != [] {
      BlanksStripped(ids[..|ids| - 1]);
    }
  }

  /** What the engine refuses before it searches: a blank question or user, no resources, or only blank ones. */
  lemma EngineRefuses(b: Backend, cfg: Config, req: Request)
    ensures Strip(req.question) == "" || Strip(req.userId) == "" || req.resourceIds == [] ==>
              Engine(b, cfg, req) == Failed(InvalidRequest)
    ensures Strip(req.question) != "" && Strip(req.userId) != "" && req.resourceIds != []
            && (forall i :: 0 <= i < |req.resourceIds| ==> Strip(req.resourceIds[i]) == "") ==>
              Engine(b, cfg, req) == Failed(InvalidFilter)
  {
    if forall i :: 0 <= i < |req.resourceIds| ==> Strip(req.resourceIds[i]) == "" {
      BlanksStripped(req.resourceIds);
      assert NodeQuery(b, req)(req.resourceIds, CandidateTopK(TopK(cfg, req), req.resourceIds))
          == Adapted(b, req, req.resourceIds, CandidateTopK(TopK(cfg, req), req.resourceIds));
    }
  }

  lemma MapSame(chunks: seq<Chunk>)
    ensures Map(chunks, Same) == chunks
  {
  }

  method EngineRetrieve(b: Backend, cfg: Config, req: Request) returns (r: Outcome<Reply>)
    ensures r == Engine(b, cfg, req)
  {
    if Strip(req.question) == "" || Strip(req.userId) == "" || req.resourceIds == [] {
      return Failed(InvalidRequest);
    }
    var nodes := GatherCandidates(NodeQuery(b, req), req.resourceIds, TopK(cfg, req));
    if nodes.Failed? {
      return Failed(nodes.error);
    }
    var chunks := Map(nodes.value, ToChunk);
    var allowed := CheckChunks(chunks, req);
    if !allowed {
      return Failed(Forbidden);
    }
    var kept := Survive(chunks, ChunkFace, b.fingerprint, Multi(req.resourceIds), Threshold(cfg, req), TopK(cfg, req));
    var selected, tokens := Compress(kept, ChunkFace, b.count, Budget(cfg, req));
    MapSame(selected);
    r := Ok(Reply(selected, tokens));
  }

  // ----- what a reply promises -----

  /** A reply is the longest run of `kept` from the front that fits the budget, the first item always included; its
      scores fall, and no two chunks share a key when several resources are searched. */
  ghost predicate GoodReply(b: Backend, reply: Reply, kept: seq<Hit>, budget: nat, multi: bool) {
    && |reply.chunks| <= |kept| && (forall i :: 0 <= i < |reply.chunks| ==> reply.chunks[i] == HitChunk(kept[i]))
    && LongestFit(Map(kept, SizeOf(HitFace, b.count)), budget, |reply.chunks|)
    && reply.tokens == Total(Map(reply.chunks, SizeOf(ChunkFace, b.count)))
    && ScoresFall(reply.chunks, ChunkFace)
    && (multi ==> Distinct(Map(reply.chunks, KeyOf(ChunkFace, b.fingerprint))))
  }

  /** Survivors are candidates in scope that reach the threshold, at most `topK` of them. */
  ghost predicate GoodSurvivors(cfg: Config, req: Request, kept: seq<Hit>, hits: seq<Hit>) {
    |kept| <= TopK(cfg, req) && forall i :: 0 <= i < |kept| ==>
      && kept[i] in hits && kept[i].score >= Threshold(cfg, req)
      && kept[i].userId == req.userId && kept[i].resourceId in req.resourceIds
  }

  /** What a reply of the service promises. */
  lemma ServiceReplies(b: Backend, cfg: Config, req: Request)
    requires Service(b, cfg, req).Ok?
    ensures var hits := Gather(HitQuery(b, req), req.resourceIds, TopK(cfg, req));
            hits.Ok? &&
            var kept := HitSurvivors(b, cfg, req, hits.value);
            && GoodSurvivors(cfg, req, kept, hits.value)
            && GoodReply(b, Service(b, cfg, req).value, kept, Budget(cfg, req), Multi(req.resourceIds))
  {
    var hits := Gather(HitQuery(b, req), req.resourceIds, TopK(cfg, req));
    SurvivorsAreGood(b, cfg, req, hits.value);
    FittedIsGood(b, HitSurvivors(b, cfg, req, hits.value), Budget(cfg, req), Multi(req.resourceIds));
  }

  lemma SurvivorsAreGood(b: Backend, cfg: Config, req: Request, hits: seq<Hit>)
    ensures var kept := HitSurvivors(b, cfg, req, hits);
            && (HitsInScope(kept, req) ==> GoodSurvivors(cfg, req, kept, hits))
            && ScoresFall(kept, HitFace)
            && (Multi(req.resourceIds) ==> Distinct(Map(kept, KeyOf(HitFace, b.fingerprint))))
  {
    SurvivorsAreRanked(hits, HitFace, b.fingerprint, Multi(req.resourceIds), Threshold(cfg, req), TopK(cfg, req));
  }

  lemma FittedIsGood(b: Backend, kept: seq<Hit>, budget: nat, multi: bool)
    requires ScoresFall(kept, HitFace)
    requires multi ==> Distinct(Map(kept, KeyOf(HitFace, b.fingerprint)))
    ensures GoodReply(b, Fitted(b, kept, HitFace, HitChunk, budget), kept, budget, multi)
  {
    var sizes, reply := Map(kept, SizeOf(HitFace, b.count)), Fitted(b, kept, HitFace, HitChunk, budget);
    FitIsLongest(sizes, budget);
    assert forall i :: 0 <= i < |reply.chunks| ==> ChunkFace(reply.chunks[i]) == HitFace(kept[i]);
    FirstScoresFall(reply.chunks, kept);
    assert Map(reply.chunks, SizeOf(ChunkFace, b.count)) == Take(sizes, Fit(sizes, budget));
    if multi {
      FirstKeysDistinct(reply.chunks, kept, b.fingerprint);
    }
  }

  lemma FirstScoresFall(chunks: seq<Chunk>, kept: seq<Hit>)
    requires ScoresFall(kept, HitFace)
    requires |chunks| <= |kept| && forall i :: 0 <= i < |chunks| ==> ChunkFace(chunks[i]) == HitFace(kept[i])
    ensures ScoresFall(chunks, ChunkFace)
  {
    forall i, j | 0 <= i < j < |chunks| ensures ChunkFace(chunks[i]).score >= ChunkFace(chunks[j]).score {
      assert HitFace(kept[i]).score >= HitFace(kept[j]).score;
    }
  }

  lemma FirstKeysDistinct(chunks: seq<Chunk>, kept: seq<Hit>, fingerprint: string -> string)
    requires Distinct(Map(kept, KeyOf(HitFace, fingerprint)))
    requires |chunks| <= |kept| && forall i :: 0 <= i < |chunks| ==> ChunkFace(chunks[i]) == HitFace(kept[i])
    ensures Distinct(Map(chunks, KeyOf(ChunkFace, fingerprint)))
  {
    var keys := Map(kept, KeyOf(HitFace, fingerprint));
    assert forall i :: 0 <= i < |chunks| ==> Map(chunks, KeyOf(ChunkFace, fingerprint))[i] == keys[i];
  }

  // ----- the engines agree -----

  /** A request as the API accepts it, with identifiers free of surrounding space. */
  predicate Clean(req: Request) {
    && Strip(req.question) != "" && CleanId(req.userId)
    && req.resourceIds != [] && CleanIds(req.resourceIds)
  }

  predicate CleanIds(ids: seq<string>) {
    forall i :: 0 <= i < |ids| ==> CleanId(ids[i])
  }

  predicate CleanId(id: string) {
    Strip(id) == id && id != ""
  }

  lemma {:induction false} StripsOfClean(ids: seq<string>)
    requires CleanIds(ids)
    ensures Strips(ids) == ids
  {
    if ids != [] {
      var init, last := ids[..|ids| - 1], ids[|ids| - 1];
      assert forall i :: 0 <= i < |init| ==> init[i] == ids[i];
      StripsOfClean(init);
      assert CleanId(last);
      assert ids == init + [last];
    }
  }

  lemma SearchBySet(b: Backend, question: string, userId: string, ids: seq<string>, ids': seq<string>, topK: nat)
    requires (set id | id in ids) == (set id | id in ids')
    ensures b.Search(question, userId, ids, Min(topK, b.limit)) == b.Search(question, userId, ids', topK)
  {
  }

  lemma NormalizedIds(ids: seq<string>)
    requires ids != [] && CleanIds(ids)
    ensures FirstSeen(Strips(ids)) != [] && (set id | id in FirstSeen(Strips(ids))) == (set id | id in ids)
  {
    StripsOfClean(ids);
    FirstSeenIsDistinct(ids);
    assert ids[0] in FirstSeen(ids);
  }

  /** The adapter's trimming, deduplication and clamping change nothing the store can see. */
  lemma AdapterIsTransparent(b: Backend, req: Request, ids: seq<string>, topK: nat)
    requires CleanId(req.userId) && ids != [] && CleanIds(ids)
    ensures NodeQuery(b, req)(ids, topK) == Converted(HitQuery(b, req)(ids, topK), ToNode)
  {
    NormalizedIds(ids);
    AdaptedIs(b, req, ids, topK, FirstSeen(Strips(ids)));
  }

  lemma AdaptedIs(b: Backend, req: Request, ids: seq<string>, topK: nat, normalized: seq<string>)
    requires CleanId(req.userId) && normalized == FirstSeen(Strips(ids)) && normalized != []
    requires (set id | id in normalized) == (set id | id in ids)
    ensures Adapted(b, req, ids, topK) == Converted(b.Search(req.question, req.userId, ids, topK), ToNode)
  {
    SearchBySet(b, req.question, req.userId, normalized, ids, topK);
  }

  lemma FirstSeenIsClean(ids: seq<string>)
    requires CleanIds(ids)
    ensures CleanIds(FirstSeen(ids))
  {
    FirstSeenIsDistinct(ids);
    forall i | 0 <= i < |FirstSeen(ids)| ensures CleanId(FirstSeen(ids)[i]) {
      assert FirstSeen(ids)[i] in ids;
    }
  }

  ghost predicate Transparent(query: Query<Hit>, query': Query<Node>) {
    forall ids, topK :: ids != [] && CleanIds(ids) ==> query'(ids, topK) == Converted(query(ids, topK), ToNode)
  }

  lemma QueriesAreTransparent(b: Backend, req: Request)
    requires Clean(req)
    ensures Transparent(HitQuery(b, req), NodeQuery(b, req))
  {
    forall ids: seq<string>, topK: nat | ids != [] && CleanIds(ids)
      ensures NodeQuery(b, req)(ids, topK) == Converted(HitQuery(b, req)(ids, topK), ToNode) {
      AdapterIsTransparent(b, req, ids, topK);
    }
  }

  lemma GatherThrough(query: Query<Hit>, query': Query<Node>, ids: seq<string>, topK: nat)
    requires Transparent(query, query') && ids != [] && CleanIds(ids)
    ensures Gather(query', ids, topK) == Converted(Gather(query, ids, topK), ToNode)
  {
    FirstSeenIsClean(ids);
    var single := FirstSeen(ids);
    forall i | 0 <= i < |single| ensures query'([single[i]], 1) == Converted(query([single[i]], 1), ToNode) {
      assert CleanIds([single[i]]);
    }
    GatherMap(query, query', ToNode, ids, topK);
  }

  lemma GatherTransparent(b: Backend, req: Request, topK: nat)
    requires Clean(req)
    ensures Gather(NodeQuery(b, req), req.resourceIds, topK)
         == Converted(Gather(HitQuery(b, req), req.resourceIds, topK), ToNode)
  {
    QueriesAreTransparent(b, req);
    GatherThrough(HitQuery(b, req), NodeQuery(b, req), req.resourceIds, topK);
  }

  /** Two replies with the same chunks in the same order, up to the metadata the mapping adds. */
  ghost predicate Agree(engine: Reply, service: Reply) {
    && engine.tokens == service.tokens && |engine.chunks| == |service.chunks|
    && forall i :: 0 <= i < |engine.chunks| ==> Matches(engine.chunks[i], service.chunks[i])
  }

  lemma FittedAgree(b: Backend, kept: seq<Hit>, budget: nat)
    ensures Agree(Fitted(b, Map(kept, ViaNode), ChunkFace, Same, budget), Fitted(b, kept, HitFace, HitChunk, budget))
  {
    var items := Map(kept, ViaNode);
    var sizes, sizes' := Map(kept, SizeOf(HitFace, b.count)), Map(items, SizeOf(ChunkFace, b.count));
    forall i | 0 <= i < |kept| ensures sizes'[i] == sizes[i] && Matches(items[i], HitChunk(kept[i])) {
      NodeRoundTrip(kept[i]);
    }
    assert sizes' == sizes;
  }

  /** What the engine's scope check sees of the candidates. */
  lemma ScopeThroughNodes(hits: seq<Hit>, req: Request)
    ensures Map(Map(hits, ToNode), ToChunk) == Map(hits, ViaNode)
    ensures ChunksInScope(Map(hits, ViaNode), req) <==> HitsInScope(hits, req)
  {
    var chunks := Map(hits, ViaNode);
    forall i | 0 <= i < |hits|
      ensures chunks[i].resourceId == hits[i].resourceId && Said(chunks[i].metadata, UserId, "") == hits[i].userId {
      NodeRoundTrip(hits[i]);
    }
  }

  lemma SurvivorsAgree(b: Backend, cfg: Config, req: Request, hits: seq<Hit>)
    ensures Survivors(Map(hits, ViaNode), ChunkFace, b.fingerprint, Multi(req.resourceIds), Threshold(cfg, req),
            TopK(cfg, req))
         == Map(HitSurvivors(b, cfg, req, hits), ViaNode)
    ensures HitsInScope(hits, req) ==> HitsInScope(HitSurvivors(b, cfg, req, hits), req)
  {
    forall x | x in hits ensures ChunkFace(ViaNode(x)) == HitFace(x) {
      NodeRoundTrip(x);
    }
    SurvivorsMap(hits, ViaNode, HitFace, ChunkFace, b.fingerprint, Multi(req.resourceIds), Threshold(cfg, req),
        TopK(cfg, req));
    SurvivorsAreRanked(hits, HitFace, b.fingerprint, Multi(req.resourceIds), Threshold(cfg, req), TopK(cfg, req));
    var kept := HitSurvivors(b, cfg, req, hits);
    if HitsInScope(hits, req) {
      forall i | 0 <= i < |kept| ensures InScope(kept[i].userId, kept[i].resourceId, req) {
        assert kept[i] in hits;
      }
    }
  }

  /** On the same store, configuration and request the engine fails as the service does when a search fails, refuses
      exactly when some candidate is out of scope, and otherwise returns the service's chunks and token count. */
  lemma EnginesAgree(b: Backend, cfg: Config, req: Request)
    requires Clean(req)
    ensures var hits := Gather(HitQuery(b, req), req.resourceIds, TopK(cfg, req));
            var engine, service := Engine(b, cfg, req), Service(b, cfg, req);
            if hits.Failed? then engine == service == Failed(Unavailable)
            else if !HitsInScope(hits.value, req) then engine == Failed(Forbidden)
            else engine.Ok? && service.Ok? && Agree(engine.value, service.value)
  {
    var hits := Gather(HitQuery(b, req), req.resourceIds, TopK(cfg, req));
    GatherTransparent(b, req, TopK(cfg, req));
    GatherUnavailable(b, req, TopK(cfg, req));
    if hits.Ok? {
      ScopeThroughNodes(hits.value, req);
      SurvivorsAgree(b, cfg, req, hits.value);
      FittedAgree(b, HitSurvivors(b, cfg, req, hits.value), Budget(cfg, req));
    }
  }

  lemma {:induction false} EachUnavailable(b: Backend, req: Request, ids: seq<string>, found: seq<Hit>)
    ensures var r := Each(HitQuery(b, req), ids, found);
            r.Failed? ==> r.error == Unavailable
  {
    if ids != [] {
      EachUnavailable(b, req, ids[..|ids| - 1], found);
    }
  }

  lemma GatherUnavailable(b: Backend, req: Request, topK: nat)
    ensures var r := Gather(HitQuery(b, req), req.resourceIds, topK);
            r.Failed? ==> r.error == Unavailable
  {
    var found := HitQuery(b, req)(req.resourceIds, CandidateTopK(topK, req.resourceIds));
    if found.Ok? {
      EachUnavailable(b, req, FirstSeen(req.resourceIds), found.value);
    }
  }

  /** Whenever the engine returns, the service returns the same chunks and token count. */
  lemma EngineRefinesService(b: Backend, cfg: Config, req: Request)
    requires Clean(req) && Engine(b, cfg, req).Ok?
    ensures Service(b, cfg, req).Ok? && Agree(Engine(b, cfg, req).value, Service(b, cfg, req).value)
  {
    EnginesAgree(b, cfg, req);
  }

  /** The converse fails exactly where a stray candidate does not survive: the service checks what it returns, the
      engine everything it was given. */
  lemma EngineIsStricter(b: Backend, cfg: Config, req: Request)
    requires Clean(req)
    ensures var hits := Gather(HitQuery(b, req), req.resourceIds, TopK(cfg, req));
            Service(b, cfg, req).Ok? && Engine(b, cfg, req).Failed?
            <==> hits.Ok? && !HitsInScope(hits.value, req) && HitsInScope(HitSurvivors(b, cfg, req, hits.value), req)
  {
    EnginesAgree(b, cfg, req);
  }

  /** A store that answers every query with one hit outside the request and below the threshold. */
  lemma StrayHit(b: Backend, cfg: Config, req: Request, stray: Hit)
    requires Clean(req) && |req.resourceIds| == 1 && !InScope(stray.userId, stray.resourceId, req)
    requires stray.score < Threshold(cfg, req)
    requires b.find == ((q: string, u: string, ids: set<string>, k: nat) => Some([stray]))
    ensures Service(b, cfg, req).Ok? && Engine(b, cfg, req) == Failed(Forbidden)
  {
    FirstSeenIsShort(req.resourceIds);
    OneHit(b, cfg, req, stray);
    EnginesAgree(b, cfg, req);
  }

  lemma OneHit(b: Backend, cfg: Config, req: Request, stray: Hit)
    requires !Multi(req.resourceIds) && forall q, u, ids, k :: b.find(q, u, ids, k) == Some([stray])
    requires stray.score < Threshold(cfg, req)
    ensures Gather(HitQuery(b, req), req.resourceIds, TopK(cfg, req)) == Ok([stray])
    ensures HitSurvivors(b, cfg, req, [stray]) == [] && Service(b, cfg, req).Ok?
  {
    NoneSurvives([stray], HitFace, b.fingerprint, Multi(req.resourceIds), Threshold(cfg, req), TopK(cfg, req));
  }
}
