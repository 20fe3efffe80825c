/**
 * The vector index adapter (app/services/vector_service.py): one point per
 * stored content, keyed by a random point id, holding the embedding of the
 * content's search text and a payload copied from the content.  The index
 * is a map from point id to point; what the index server computes (the
 * ranked nearest-neighbour search) reaches the adapter as a function of
 * the query vector, the filter, the limit and the threshold, together with
 * the predicate a correct answer satisfies.
 */
module Vectors {
  import opened Wrappers
  import opened Text
  import opened Embedding

  /** Point ids are random UUID strings. */
  type PointId = string

  /** Longest summary kept in a payload. */
  const PayloadSummaryLength: nat := 200

  /** Longest search text kept in a payload. */
  const PayloadSearchTextLength: nat := 300

  /** Most points one deletion looks up. */
  const DeleteBatch: nat := 10

  datatype Payload = Payload(
    contentId: int,
    userId: int,
    title: string,
    summary: string,
    tags: seq<string>,
    searchText: string,
    isPublic: bool)

  datatype Point = Point(vector: Vector, payload: Payload)

  /** One entry of the index's answer to a search: a point id, its score and its payload. */
  datatype Hit = Hit(id: PointId, score: real, payload: Payload)

  /**
   * The index server's search: its answer for a query vector, a payload
   * filter, a limit and a score threshold; `None` when the call raises.
   */
  type Searcher = (Vector, Filter, nat, real) -> Option<seq<Hit>>

  /** One formatted search result. */
  datatype SearchResult = SearchResult(
    contentId: int,
    title: string,
    summary: string,
    tags: seq<string>,
    similarityScore: real,
    userId: int)

  /** The payload condition a search is restricted to. */
  datatype Filter = OwnerIs(owner: int) | PublicOnly

  /**
   * The text that is embedded: title, summary and the tags joined by
   * spaces, each separated from the next by one space.
   */
  function SearchText(title: string, summary: string, tags: seq<string>): (t: string)
    ensures |t| == |title| + |summary| + |Join(tags, " ")| + 2
    ensures StartsWith(t, title + " " + summary + " ")
  {
    title + " " + summary + " " + Join(tags, " ")
  }

  /** The encoder sees the words of the title, then of the summary, then of the tags. */
  lemma {:induction false} SearchTextWords(title: string, summary: string, tags: seq<string>)
    ensures Normalized(SearchText(title, summary, tags))
      == Join(Words(title) + Words(summary) + Words(Join(tags, " ")), " ")
  {
    WordsSpaced(title + " " + summary, Join(tags, " "));
    WordsSpaced(title, summary);
  }

  /** The payload stored with a content's point. */
  function MakePayload(contentId: int, userId: int, title: string, summary: string,
                       tags: seq<string>, isPublic: bool): (p: Payload)
    ensures p.contentId == contentId && p.userId == userId && p.isPublic == isPublic
    ensures p.title == title && p.tags == tags
    ensures |p.summary| <= PayloadSummaryLength && StartsWith(summary, p.summary)
    ensures |summary| <= PayloadSummaryLength ==> p.summary == summary
    ensures |p.searchText| <= PayloadSearchTextLength
    ensures StartsWith(SearchText(title, summary, tags), p.searchText)
  {
    Payload(contentId, userId, title, Take(summary, PayloadSummaryLength), tags,
            Take(SearchText(title, summary, tags), PayloadSearchTextLength), isPublic)
  }

  /**
   * The filter of `search_similar_contents`: a truthy user id (present and
   * not 0) restricts to that user's points, anything else to public points.
   */
  function SearchFilter(userId: Option<int>): (f: Filter)
    ensures f.OwnerIs? <==> userId.Some? && userId.value != 0
    ensures f.OwnerIs? ==> f.owner == userId.value
  {
    if userId.Some? && userId.value != 0 then OwnerIs(userId.value) else PublicOnly
  }

  predicate Matches(f: Filter, p: Payload)
  {
    match f
    case OwnerIs(owner) => p.userId == owner
    case PublicOnly => p.isPublic
  }

  /**
   * Which payloads a search with `userId` may return: with a truthy user id
   * exactly that user's, public or not; with none or 0 exactly the public ones.
   */
  lemma {:induction false} FilterAdmits(userId: Option<int>, p: Payload)
    ensures userId.Some? && userId.value != 0 ==> (Matches(SearchFilter(userId), p) <==> p.userId == userId.value)
    ensures userId.None? || userId.value == 0 ==> (Matches(SearchFilter(userId), p) <==> p.isPublic)
  {
  }

  /** A result copies the payload fields and the score of its hit. */
  function ToResult(h: Hit): (r: SearchResult)
    ensures r.contentId == h.payload.contentId && r.userId == h.payload.userId
    ensures r.title == h.payload.title && r.summary == h.payload.summary && r.tags == h.payload.tags
    ensures r.similarityScore == h.score
  {
    SearchResult(h.payload.contentId, h.payload.title, h.payload.summary, h.payload.tags,
                 h.score, h.payload.userId)
  }

  /** The formatted results of an index answer; none when the index raised. */
  function SearchResults(answer: Option<seq<Hit>>): (results: seq<SearchResult>)
    ensures answer.None? ==> results == []
    ensures answer.Some? ==> |results| == |answer.value|
    ensures answer.Some? ==> forall i :: 0 <= i < |results| ==> results[i] == ToResult(answer.value[i])
  {
    if answer.None? then []
    else seq(|answer.value|, i requires 0 <= i < |answer.value| => ToResult(answer.value[i]))
  }

  /**
   * What a correct index answer to a search is: at most `limit` distinct
   * stored points, each matching the filter, with its stored payload and
   * a score of at least `threshold`, best first; and every matching point
   * left out either scores no better than all returned ones, with the
   * answer full, or falls under the threshold.
   */
  ghost predicate IsRankedAnswer(points: map<PointId, Point>, query: Vector,
                                 similarity: (Vector, Vector) -> real, f: Filter,
                                 limit: nat, threshold: real, hits: seq<Hit>)
  {
    && |hits| <= limit
    && (forall i :: 0 <= i < |hits| ==>
          && hits[i].id in points
          && hits[i].payload == points[hits[i].id].payload
          && Matches(f, hits[i].payload)
          && hits[i].score == similarity(query, points[hits[i].id].vector)
          && hits[i].score >= threshold)
    && (forall i, j :: 0 <= i < j < |hits| ==> hits[i].score >= hits[j].score && hits[i].id != hits[j].id)
    && (forall id :: id in points && Matches(f, points[id].payload)
          && similarity(query, points[id].vector) >= threshold
          && (forall i :: 0 <= i < |hits| ==> hits[i].id != id)
          ==> |hits| == limit
              && forall i :: 0 <= i < |hits| ==> hits[i].score >= similarity(query, points[id].vector))
  }

  /**
   * The bounds and order a formatted answer keeps: at most `limit`
   * results, none under the threshold, best first, and only the asking
   * user's contents when the filter is by owner.
   */
  ghost predicate WellRanked(results: seq<SearchResult>, userId: Option<int>, limit: nat, threshold: real)
  {
    && |results| <= limit
    && (forall i :: 0 <= i < |results| ==> results[i].similarityScore >= threshold)
    && (forall i, j :: 0 <= i < j < |results| ==> results[i].similarityScore >= results[j].similarityScore)
    && (userId.Some? && userId.value != 0 ==> forall i :: 0 <= i < |results| ==> results[i].userId == userId.value)
  }

  /** Formatting a correct index answer gives well-ranked results. */
  lemma {:induction false} RankedResults(points: map<PointId, Point>, query: Vector,
                                         similarity: (Vector, Vector) -> real, userId: Option<int>,
                                         limit: nat, threshold: real, hits: seq<Hit>)
    requires IsRankedAnswer(points, query, similarity, SearchFilter(userId), limit, threshold, hits)
    ensures WellRanked(SearchResults(Some(hits)), userId, limit, threshold)
  {
    var results := SearchResults(Some(hits));
    if userId.Some? && userId.value != 0 {
      forall i | 0 <= i < |results|
        ensures results[i].userId == userId.value
      {
        FilterAdmits(userId, hits[i].payload);
      }
    }
  }

  /** The ids of the points stored for `contentId`. */
  function PointsOf(points: map<PointId, Point>, contentId: int): (ids: set<PointId>)
    ensures forall id :: id in ids <==> id in points && points[id].payload.contentId == contentId
  {
    set id | id in points && points[id].payload.contentId == contentId
  }

  /** Storing a new point of a content adds exactly its id to the content's points. */
  lemma {:induction false} PointsOfInsert(points: map<PointId, Point>, id: PointId, p: Point)
    requires id !in points
    ensures PointsOf(points[id := p], p.payload.contentId) == PointsOf(points, p.payload.contentId) + {id}
    ensures forall c :: c != p.payload.contentId ==> PointsOf(points[id := p], c) == PointsOf(points, c)
  {
  }

  /**
   * What a correct answer to the lookup of `delete_content_vector` is: at
   * most ten distinct points of the content, and all of them when it has
   * fewer than ten.
   */
  ghost predicate IsContentLookup(points: map<PointId, Point>, contentId: int, found: seq<PointId>)
  {
    && |found| <= DeleteBatch
    && (forall i :: 0 <= i < |found| ==> found[i] in PointsOf(points, contentId))
    && (forall i, j :: 0 <= i < j < |found| ==> found[i] != found[j])
    && (|found| < DeleteBatch ==> forall id :: id in PointsOf(points, contentId) ==> id in found)
  }

  /** The index without the points `ids`. */
  function Without(points: map<PointId, Point>, ids: seq<PointId>): (rest: map<PointId, Point>)
    ensures forall id :: id in rest <==> id in points && id !in ids
    ensures forall id :: id in rest ==> rest[id] == points[id]
  {
    map id | id in points && id !in ids :: points[id]
  }

  /**
   * What a deletion after the lookup for `contentId` may do to the index:
   * keep every point of other contents, remove at most ten points, and,
   * when it `completed` on a content with at most ten points, leave none
   * of them.
   */
  ghost predicate DeleteEffect(before: map<PointId, Point>, after: map<PointId, Point>, contentId: int, completed: bool)
  {
    && (forall id :: id in before && before[id].payload.contentId != contentId ==>
          id in after && after[id] == before[id])
    && |before.Keys - after.Keys| <= DeleteBatch
    && (completed && |PointsOf(before, contentId)| <= DeleteBatch ==> PointsOf(after, contentId) == {})
  }

  /** Deleting what a correct lookup found has the effect `DeleteEffect` allows. */
  lemma {:induction false} DeleteLookupEffect(points: map<PointId, Point>, contentId: int, found: seq<PointId>)
    requires IsContentLookup(points, contentId, found)
    ensures DeleteEffect(points, Without(points, found), contentId, true)
  {
    DeletesAtMostBatch(points, found);
    if |PointsOf(points, contentId)| <= DeleteBatch {
      DeletesAllFound(points, contentId, found);
    }
  }

  /** Deleting distinct ids removes at most as many points as there are ids. */
  lemma {:induction false} DeletesAtMostBatch(points: map<PointId, Point>, found: seq<PointId>)
    requires forall i, j :: 0 <= i < j < |found| ==> found[i] != found[j]
    ensures |points.Keys - Without(points, found).Keys| <= |found|
  {
    var gone := points.Keys - Without(points, found).Keys;
    var foundSet := set i | 0 <= i < |found| :: found[i];
    DistinctSeqSize(found);
    assert gone <= foundSet;
    SubsetSize(gone, foundSet);
  }

  /** A correct lookup of a content with at most ten points found all of them. */
  lemma {:induction false} DeletesAllFound(points: map<PointId, Point>, contentId: int, found: seq<PointId>)
    requires IsContentLookup(points, contentId, found)
    requires |PointsOf(points, contentId)| <= DeleteBatch
    ensures PointsOf(Without(points, found), contentId) == {}
  {
    if |found| >= DeleteBatch {
      var all := PointsOf(points, contentId);
      var foundSet := set i | 0 <= i < |found| :: found[i];
      DistinctSeqSize(found);
      assert foundSet <= all;
      assert all == foundSet + (all - foundSet);
      assert all - foundSet == {};
      forall id | id in all
        ensures id in found
      {
        assert id in foundSet;
      }
    }
  }

  /**
   * Leaving the index as it is also has an allowed effect, complete when
   * the correct lookup found nothing.
   */
  lemma {:induction false} KeepEffect(points: map<PointId, Point>, contentId: int, found: seq<PointId>, completed: bool)
    requires IsContentLookup(points, contentId, found)
    requires completed ==> found == []
    ensures DeleteEffect(points, points, contentId, completed)
  {
    assert points.Keys - points.Keys == {};
    if completed && |PointsOf(points, contentId)| <= DeleteBatch {
      assert forall id :: id !in PointsOf(points, contentId);
    }
  }

  /** A sequence of distinct elements has as many distinct elements as entries. */
  lemma {:induction false} DistinctSeqSize<T>(xs: seq<T>)
    requires forall i, j :: 0 <= i < j < |xs| ==> xs[i] != xs[j]
    ensures |set i | 0 <= i < |xs| :: xs[i]| == |xs|
    decreases |xs|
  {
    if |xs| > 0 {
      var init := xs[..|xs| - 1];
      DistinctSeqSize(init);
      assert (set i | 0 <= i < |xs| :: xs[i]) == (set i | 0 <= i < |init| :: init[i]) + {xs[|xs| - 1]};
    }
  }

  lemma {:induction false} SubsetSize<T>(a: set<T>, b: set<T>)
    requires a <= b
    ensures |a| <= |b|
  {
    assert b == a + (b - a);
  }

  /** The Qdrant collection behind the adapter. */
  class VectorService {
    var points: map<PointId, Point>

    constructor()
      ensures points == map[]
    {
      points := map[];
    }

    /**
     * `store_content_vector`: embed the search text and upsert one point
     * under the fresh id `freshId` (a new UUID).  `upsertFails` stands for
     * the index raising; it also refuses a vector of the wrong size.  On
     * failure the error is re-raised and the index is unchanged.
     */
    method StoreContentVector(contentId: int, title: string, summary: string, tags: seq<string>,
                              userId: int, isPublic: bool, encode: Encoder,
                              freshId: PointId, upsertFails: bool) returns (stored: bool)
      requires freshId !in points
      modifies this
      ensures var v := GenerateEmbedding(SearchText(title, summary, tags), encode);
        stored <==> !upsertFails && |v| == Dimension
      ensures stored ==> points == old(points)[freshId := Point(
        GenerateEmbedding(SearchText(title, summary, tags), encode),
        MakePayload(contentId, userId, title, summary, tags, isPublic))]
      ensures stored ==> PointsOf(points, contentId) == PointsOf(old(points), contentId) + {freshId}
      ensures !stored ==> points == old(points)
    {
      var text := SearchText(title, summary, tags);
      var embedding := GenerateEmbedding(text, encode);
      var point := Point(embedding, MakePayload(contentId, userId, title, summary, tags, isPublic));
      if upsertFails || |embedding| != Dimension {
        return false;
      }
      PointsOfInsert(points, freshId, point);
      points := points[freshId := point];
      return true;
    }

    /**
     * `search_similar_contents`: ask the index for the embedded query,
     * filtered by `SearchFilter(userId)`, with the given limit and
     * threshold, and format its answer hit by hit in the index's order;
     * `[]` when the index raises.
     */
    method SearchSimilarContents(query: string, userId: Option<int>, limit: nat, threshold: real,
                                 encode: Encoder, similarity: (Vector, Vector) -> real,
                                 search: Searcher) returns (results: seq<SearchResult>)
      ensures results == SearchResults(search(GenerateEmbedding(query, encode), SearchFilter(userId), limit, threshold))
      ensures var answer := search(GenerateEmbedding(query, encode), SearchFilter(userId), limit, threshold);
        && (answer.None? ==> results == [])
        && (answer.Some? ==>
              && |results| == |answer.value|
              && forall i :: 0 <= i < |results| ==> results[i] == ToResult(answer.value[i]))
      ensures var answer := search(GenerateEmbedding(query, encode), SearchFilter(userId), limit, threshold);
        answer.Some? && IsRankedAnswer(points, GenerateEmbedding(query, encode), similarity,
                                       SearchFilter(userId), limit, threshold, answer.value) ==>
        WellRanked(results, userId, limit, threshold)
    {
      var queryVector := GenerateEmbedding(query, encode);
      var answer := search(queryVector, SearchFilter(userId), limit, threshold);
      if answer.None? {
        return [];
      }
      var hits := answer.value;
      results := [];
      var i := 0;
      while i < |hits|
        invariant 0 <= i <= |hits|
        invariant |results| == i
        invariant forall k :: 0 <= k < i ==> results[k] == ToResult(hits[k])
      {
        results := results + [ToResult(hits[i])];
        i := i + 1;
      }
      assert results == SearchResults(answer);
      if IsRankedAnswer(points, queryVector, similarity, SearchFilter(userId), limit, threshold, hits) {
        RankedResults(points, queryVector, similarity, userId, limit, threshold, hits);
      }
    }

    /**
     * `delete_content_vector`: delete the points the lookup by content id
     * found (`found` is `None` when the lookup raised); nothing happens when
     * it found none, and a failing deletion (`deleteFails`) is swallowed.
     */
    method DeleteContentVector(contentId: int, found: Option<seq<PointId>>, deleteFails: bool)
      modifies this
      ensures found.None? || found.value == [] || deleteFails ==> points == old(points)
      ensures found.Some? && found.value != [] && !deleteFails ==> points == Without(old(points), found.value)
      ensures found.Some? && IsContentLookup(old(points), contentId, found.value) ==>
        DeleteEffect(old(points), points, contentId, !deleteFails)
    {
      if found.None? || found.value == [] || deleteFails {
        if found.Some? && found.value == [] {
          assert points == Without(points, found.value);
        }
        if found.Some? && IsContentLookup(points, contentId, found.value) {
          KeepEffect(points, contentId, found.value, !deleteFails);
        }
        return;
      }
      if IsContentLookup(points, contentId, found.value) {
        DeleteLookupEffect(points, contentId, found.value);
      }
      points := Without(points, found.value);
    }
  }
}
