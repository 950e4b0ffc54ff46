/** Mapping an engine reply to the gateway's response: the total hit count,
    one item per hit, and one (key, document count) pair per bucket of the
    "aggregations" terms aggregation. */
module Responses {
  import opened Wrappers
  import opened Catalog
  import opened Engine
  import opened Queries

  /** One matched product, deserialised from the hit's stored source. */
  datatype SearchItem = SearchItem(source: Doc)

  /** One aggregation bucket: its key and its document count. */
  datatype AggregationCount = AggregationCount(name: string, count: int)

  datatype SearchResponse = SearchResponse(count: int, items: seq<SearchItem>, aggregations: seq<AggregationCount>)

  /** The item loop: one item per hit, in hit order. */
  method CollectItems(hits: seq<Hit>) returns (items: seq<SearchItem>)
    ensures |items| == |hits|
    ensures forall i :: 0 <= i < |hits| ==> items[i] == SearchItem(hits[i].source)
  {
    items := [];
    for i := 0 to |hits|
      invariant |items| == i
      invariant forall j :: 0 <= j < i ==> items[j] == SearchItem(hits[j].source)
    {
      items := items + [SearchItem(hits[i].source)];
    }
  }

  /** The bucket loop: one aggregation count per bucket, in bucket order. */
  method CollectAggregations(buckets: seq<Bucket>) returns (aggs: seq<AggregationCount>)
    ensures |aggs| == |buckets|
    ensures forall i :: 0 <= i < |buckets| ==> aggs[i] == AggregationCount(buckets[i].key, buckets[i].docCount)
  {
    aggs := [];
    for i := 0 to |buckets|
      invariant |aggs| == i
      invariant forall j :: 0 <= j < i ==> aggs[j] == AggregationCount(buckets[j].key, buckets[j].docCount)
    {
      aggs := aggs + [AggregationCount(buckets[i].key, buckets[i].docCount)];
    }
  }

  /** `resp` is the response built from `reply`: the total hit count, one item
      per hit and one aggregation count per bucket, each in the engine's order. */
  predicate ResponseFor(resp: SearchResponse, reply: SearchReply)
  {
    var buckets := BucketsOf(reply);
    && resp.count == reply.totalHits
    && |resp.items| == |reply.hits|
    && (forall i :: 0 <= i < |reply.hits| ==> resp.items[i] == SearchItem(reply.hits[i].source))
    && |resp.aggregations| == |buckets|
    && (forall i :: 0 <= i < |buckets| ==>
          resp.aggregations[i] == AggregationCount(buckets[i].key, buckets[i].docCount))
  }

  /** A response determines the hits' sources and the buckets it was built
      from, so no hit and no bucket is dropped, duplicated or reordered. */
  lemma ResponseDeterminesReply(resp: SearchResponse, reply: SearchReply, reply': SearchReply)
    requires ResponseFor(resp, reply) && ResponseFor(resp, reply')
    ensures reply.totalHits == reply'.totalHits
    ensures |reply.hits| == |reply'.hits|
    ensures forall i :: 0 <= i < |reply.hits| ==> reply.hits[i].source == reply'.hits[i].source
    ensures BucketsOf(reply) == BucketsOf(reply')
  {
    var b, b' := BucketsOf(reply), BucketsOf(reply');
    forall i | 0 <= i < |b|
      ensures b[i] == b'[i]
    {
      assert resp.aggregations[i] == AggregationCount(b[i].key, b[i].docCount);
      assert resp.aggregations[i] == AggregationCount(b'[i].key, b'[i].docCount);
    }
    forall i | 0 <= i < |reply.hits|
      ensures reply.hits[i].source == reply'.hits[i].source
    {
      assert resp.items[i] == SearchItem(reply.hits[i].source);
    }
  }

  // ----- Reading the aggregation section -----

  /** The engine's side of the protocol: a reply carries an aggregations
      section exactly when the request asked for an aggregation, and the
      section then holds the requested aggregation by name. */
  predicate AnswersBody(body: SearchBody, reply: SearchReply)
  {
    && (reply.aggregations.Some? <==> body.aggregation.Some?)
    && (body.aggregation.Some? ==> body.aggregation.value.name in reply.aggregations.value)
  }

  /** The buckets as the source reads them: `getAggregations()` and then
      `get("aggregations")` are both dereferenced without a null check. */
  function BucketsAsWritten(reply: SearchReply): (r: Result<seq<Bucket>, Error>)
    ensures r.Failure? <==> reply.aggregations.None? || DefaultAggregation !in reply.aggregations.value
    ensures r.Failure? ==> r.error == NullDereference("aggregations")
    ensures r.Success? ==> r.value == reply.aggregations.value[DefaultAggregation]
  {
    match reply.aggregations
    case None => Failure(NullDereference("aggregations"))
    case Some(section) =>
      match Get(section, DefaultAggregation)
      case None => Failure(NullDereference("aggregations"))
      case Some(buckets) => Success(buckets)
  }

  /** As written, every search without a requested aggregation fails once it
      reaches the bucket loop, whatever the engine found. */
  lemma SearchWithoutAggregationFails(body: SearchBody, reply: SearchReply)
    requires body.aggregation.None? && AnswersBody(body, reply)
    ensures BucketsAsWritten(reply) == Failure(NullDereference("aggregations"))
  {
  }

  /** A concrete instance: a search for "Nike" in store "default" with no
      filters and no aggregations, answered with one hit. */
  lemma PlainSearchFails()
    ensures var body := SearchBody(Some(Bool([MultiMatch("Nike", ProductFields)], [Term("store", "default")])),
                                   RequestedAggregation([]));
            var reply := SearchReply(200, 1, [Hit("1", Fields(map[]))], None);
            AnswersBody(body, reply) && BucketsAsWritten(reply).Failure?
  {
  }

  /** The buckets as intended: no requested aggregation means no buckets. */
  function BucketsOf(reply: SearchReply): (r: seq<Bucket>)
    ensures reply.aggregations.Some? && DefaultAggregation in reply.aggregations.value ==>
      r == reply.aggregations.value[DefaultAggregation]
    ensures reply.aggregations.None? ==> r == []
  {
    match reply.aggregations
    case None => []
    case Some(section) =>
      match Get(section, DefaultAggregation)
      case None => []
      case Some(buckets) => buckets
  }

  /** For every reply that answers the products body, the corrected reading
      never fails, agrees with the source's reading whenever that one
      succeeds, and yields the requested aggregation's buckets exactly when
      one was requested. */
  lemma BucketsOfIsTotal(names: seq<string>, query: Option<Query>, reply: SearchReply)
    requires AnswersBody(SearchBody(query, RequestedAggregation(names)), reply)
    ensures BucketsAsWritten(reply).Success? <==> names != []
    ensures BucketsAsWritten(reply).Success? ==> BucketsOf(reply) == BucketsAsWritten(reply).value
    ensures names == [] ==> BucketsOf(reply) == []
  {
  }
}
