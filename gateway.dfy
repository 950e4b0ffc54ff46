/** The gateway object: a reference to the shared client, set by `configure`,
    and the index, delete and search operations, each proved against the
    effect functions of the Documents module and the builders of the Queries
    and Responses modules. */
module Gateway {
  import opened Wrappers
  import opened JavaText
  import opened Catalog
  import opened Engine
  import opened Provisioning
  import opened Documents
  import opened Queries
  import opened Responses

  /** The request carries what both searches validate: a language and a store. */
  predicate Searchable(request: Option<SearchRequest>)
  {
    request.Some? && request.value.language.Some? && request.value.store.Some?
  }

  /** `sent` is the products search for `request`: addressed to the products
      index of the request's language, with the products query for the
      request's text, store and filters, and the requested aggregation. */
  predicate ProductsSearch(sent: Request, request: SearchRequest)
    requires request.language.Some? && request.store.Some?
  {
    && sent.SearchIn?
    && sent.index == ProductsPrefix + request.language.value
    && sent.body.query.Some?
    && IsProductQuery(sent.body.query.value, request.searchString, request.store.value, request.filters)
    && sent.body.aggregation == RequestedAggregation(request.aggregations)
  }

  /** The keywords search for `request`: addressed to the keywords index of the
      request's language, with an empty body, because the keywords query is
      built but never attached to the request. */
  function KeywordsSearch(request: SearchRequest): (sent: Request)
    requires request.language.Some?
    ensures sent.SearchIn? && sent.index == KeywordsPrefix + request.language.value
    ensures sent.body == SearchBody(None, None)
  {
    SearchIn(KeywordsPrefix + request.language.value, SearchBody(None, None))
  }

  /** Two products searches for the same request are the same request, and
      each determines the request's language, text, store and filters. */
  lemma ProductsSearchDeterminesRequest(sent: Request, request: SearchRequest, request': SearchRequest)
    requires request.language.Some? && request.store.Some?
    requires request'.language.Some? && request'.store.Some?
    requires ProductsSearch(sent, request) && ProductsSearch(sent, request')
    ensures request.language == request'.language
    ensures request.searchString == request'.searchString
    ensures request.store == request'.store
    ensures request.filters == request'.filters
  {
    ProductQueryDeterminesRequest(sent.body.query.value, request.searchString, request.store.value, request.filters,
                                  request'.searchString, request'.store.value, request'.filters);
    assert ProductsPrefix + request.language.value == ProductsPrefix + request'.language.value;
    assert request.language.value == (ProductsPrefix + request.language.value)[|ProductsPrefix|..];
  }

  /** The keywords search depends on the language alone: the search string and
      the store of the request never reach the engine. */
  lemma KeywordsSearchIgnoresText(request: SearchRequest, request': SearchRequest)
    requires request.language.Some? && request'.language.Some?
    ensures KeywordsSearch(request) == KeywordsSearch(request') <==> request.language == request'.language
  {
    if KeywordsSearch(request) == KeywordsSearch(request') {
      assert request.language.value == (KeywordsPrefix + request.language.value)[|KeywordsPrefix|..];
      assert request'.language.value == (KeywordsPrefix + request'.language.value)[|KeywordsPrefix|..];
    }
  }

  class SearchModule {
    /** The process-wide singleton holder that `configure` asks for a client. */
    const process: Registry
    /** The client this gateway was configured with; null until `configure` succeeds. */
    var searchClient: SearchClient?

    ghost predicate Valid()
      reads this, process
    {
      && process.Valid()
      && (searchClient != null ==> searchClient.connection == process.cluster)
    }

    constructor (process: Registry)
      requires process.Valid()
      ensures Valid() && this.process == process && searchClient == null
    {
      this.process := process;
      searchClient := null;
    }

    /** `configure`: take the singleton client. When building it fails the
        field keeps its previous value. */
    method Configure(config: Option<SearchConfiguration>) returns (o: Outcome<Error>)
      requires Valid()
      modifies this, process`client, process.cluster
      ensures Valid()
      ensures old(process.client) != null ==>
        && o.Pass? && searchClient == old(process.client) && process.client == old(process.client)
        && unchanged(process.cluster)
      ensures old(process.client) == null && config.None? ==>
        && o == Fail(Invalid("configuration")) && searchClient == old(searchClient) && process.client == null
        && unchanged(process.cluster)
      ensures old(process.client) == null && config.Some? ==>
        var e := ProvisionEffect(old(process.cluster.store), process.cluster.refuses, config.value);
        && process.cluster.store == e.store && process.cluster.log == old(process.cluster.log) + e.sent
        && o == e.outcome
        && (e.outcome.Pass? ==> searchClient == process.client && fresh(searchClient))
        && (e.outcome.Fail? ==> searchClient == old(searchClient) && process.client == null)
    {
      var r := process.GetInstance(config);
      if r.Failure? {
        return Fail(r.error);
      }
      searchClient := r.value;
      o := Pass;
    }

    /** `index(item)`. */
    method Index(item: Option<IndexItem>) returns (o: Outcome<Error>)
      requires Valid()
      modifies process.cluster
      ensures var e := IndexEffect(old(process.cluster.store), process.cluster.refuses, searchClient != null, item);
              && process.cluster.store == e.store && process.cluster.log == old(process.cluster.log) + e.sent
              && o == e.outcome
    {
      if item.None? {
        return Fail(Invalid("item"));
      }
      if item.value.language.None? {
        return Fail(Invalid("language"));
      }
      if searchClient == null {
        return Fail(NotConfigured);
      }
      var it := item.value;
      var language := it.language.value;
      var id := DocIdOf(it.id);
      var written := searchClient.connection.Put(ProductsPrefix + language, id, ProductSource(it));
      if !written {
        return Fail(EngineFailure(ProductsPrefix + language));
      }
      written := searchClient.connection.Put(KeywordsPrefix + language, id, KeywordDoc(it));
      if !written {
        return Fail(EngineFailure(KeywordsPrefix + language));
      }
      o := Pass;
    }

    /** `index(list)`: `index` on each item in order; the first exception
        propagates. */
    method IndexAll(items: Option<seq<Option<IndexItem>>>) returns (o: Outcome<Error>)
      requires Valid()
      modifies process.cluster
      ensures var e := IndexAllEffect(old(process.cluster.store), process.cluster.refuses, searchClient != null, items);
              && process.cluster.store == e.store && process.cluster.log == old(process.cluster.log) + e.sent
              && o == e.outcome
    {
      if items.None? {
        return Fail(NullDereference("items"));
      }
      var xs := items.value;
      ghost var step := Indexer(process.cluster.refuses, searchClient != null);
      ghost var s0, log0 := process.cluster.store, process.cluster.log;
      ghost var done := Effect(s0, [], Pass);
      assert xs[..0] == [];
      for i := 0 to |xs|
        invariant done == Chain(s0, xs[..i], step) && done.outcome.Pass?
        invariant process.cluster.store == done.store && process.cluster.log == log0 + done.sent
      {
        ghost var next := IndexEffect(done.store, process.cluster.refuses, searchClient != null, xs[i]);
        IndexerApplies(process.cluster.refuses, searchClient != null, done.store, xs[i]);
        o := Index(xs[i]);
        ChainStep(s0, xs, i, step, next);
        LogGrows(process.cluster.log, log0, done, next);
        done := Then(done, next);
        if o.Fail? {
          return;
        }
      }
      assert xs[..|xs|] == xs;
      o := Pass;
    }

    /** `delete(languages, id)`. */
    method Delete(languages: Option<seq<Option<string>>>, id: Option<Long>) returns (o: Outcome<Error>)
      requires Valid()
      modifies process.cluster
      ensures var e := DeleteEffect(old(process.cluster.store), process.cluster.refuses, searchClient != null, languages, id);
              && process.cluster.store == e.store && process.cluster.log == old(process.cluster.log) + e.sent
              && o == e.outcome
    {
      if searchClient == null {
        return Fail(NotConfigured);
      }
      if languages.None? || languages.value == [] {
        return Fail(Invalid("languages"));
      }
      o := DeleteEach(languages.value, id);
    }

    /** The `forEach` of `delete`: each language in order; the first exception
        propagates. */
    method DeleteEach(ls: seq<Option<string>>, id: Option<Long>) returns (o: Outcome<Error>)
      requires Valid() && searchClient != null
      modifies process.cluster
      ensures var e := Chain(old(process.cluster.store), ls, Deleter(process.cluster.refuses, id));
              && process.cluster.store == e.store && process.cluster.log == old(process.cluster.log) + e.sent
              && o == e.outcome
    {
      ghost var step := Deleter(process.cluster.refuses, id);
      ghost var s0, log0 := process.cluster.store, process.cluster.log;
      ghost var done := Effect(s0, [], Pass);
      assert ls[..0] == [];
      for i := 0 to |ls|
        invariant done == Chain(s0, ls[..i], step) && done.outcome.Pass?
        invariant process.cluster.store == done.store && process.cluster.log == log0 + done.sent
      {
        ghost var next := DeleteLanguageEffect(done.store, process.cluster.refuses, id, ls[i]);
        DeleterApplies(process.cluster.refuses, id, done.store, ls[i]);
        o := DeleteLanguage(ls[i], id);
        ChainStep(s0, ls, i, step, next);
        LogGrows(process.cluster.log, log0, done, next);
        done := Then(done, next);
        if o.Fail? {
          return;
        }
      }
      assert ls[..|ls|] == ls;
      o := Pass;
    }

    /** The body of the delete loop: lower-case the entry, then
        `deleteDocument`. */
    method DeleteLanguage(l: Option<string>, id: Option<Long>) returns (o: Outcome<Error>)
      requires Valid() && searchClient != null
      modifies process.cluster
      ensures var e := DeleteLanguageEffect(old(process.cluster.store), process.cluster.refuses, id, l);
              && process.cluster.store == e.store && process.cluster.log == old(process.cluster.log) + e.sent
              && o == e.outcome
    {
      if l.None? {
        return Fail(NullDereference("language"));
      }
      o := DeleteDocument(Lower(l.value), id);
    }

    /** `deleteDocument`: the products delete, then the keywords delete. */
    method DeleteDocument(language: string, id: Option<Long>) returns (o: Outcome<Error>)
      requires Valid() && searchClient != null
      modifies process.cluster
      ensures var e := DeleteDocumentEffect(old(process.cluster.store), process.cluster.refuses, id, language);
              && process.cluster.store == e.store && process.cluster.log == old(process.cluster.log) + e.sent
              && o == e.outcome
    {
      var documentId := DocIdOf(id);
      var removed := searchClient.connection.Remove(ProductsPrefix + language, documentId);
      if !removed {
        return Fail(EngineFailure(ProductsPrefix + language));
      }
      removed := searchClient.connection.Remove(KeywordsPrefix + language, documentId);
      if !removed {
        return Fail(EngineFailure(KeywordsPrefix + language));
      }
      o := Pass;
    }

    /** `searchProducts(request)`: validate, build the products query and the
        aggregation, search the products index of the request's language,
        require status 200, then collect the hits and the buckets. */
    method SearchProducts(request: Option<SearchRequest>) returns (r: Result<SearchResponse, Error>)
      requires Valid()
      modifies process.cluster
      ensures process.cluster.store == old(process.cluster.store)
      ensures request.None? ==>
        r == Failure(Invalid("request")) && process.cluster.log == old(process.cluster.log)
      ensures request.Some? && request.value.language.None? ==>
        r == Failure(Invalid("language")) && process.cluster.log == old(process.cluster.log)
      ensures request.Some? && request.value.language.Some? && request.value.store.None? ==>
        r == Failure(Invalid("store")) && process.cluster.log == old(process.cluster.log)
      ensures Searchable(request) && searchClient == null ==>
        r == Failure(NullDereference("searchClient")) && process.cluster.log == old(process.cluster.log)
      ensures Searchable(request) && searchClient != null ==>
        var cluster := process.cluster;
        && |cluster.log| == |old(cluster.log)| + 1
        && cluster.log[..|old(cluster.log)|] == old(cluster.log)
        && var sent := cluster.log[|old(cluster.log)|];
           && ProductsSearch(sent, request.value)
           && var reply := cluster.answer(sent.index, sent.body);
              && (cluster.refuses(sent) ==> r == Failure(EngineFailure(sent.index)))
              && (!cluster.refuses(sent) && reply.status != 200 ==> r == Failure(SearchFailed(reply.status)))
              && (!cluster.refuses(sent) && reply.status == 200 ==> r.Success? && ResponseFor(r.value, reply))
    {
      if request.None? {
        return Failure(Invalid("request"));
      }
      var req := request.value;
      if req.language.None? {
        return Failure(Invalid("language"));
      }
      if req.store.None? {
        return Failure(Invalid("store"));
      }
      var q := BuildProductQuery(req.searchString, req.store.value, req.filters);
      var agg := BuildAggregation(req.aggregations);
      var index := ProductsPrefix + req.language.value;
      var body := SearchBody(Some(q), agg);
      if searchClient == null {
        return Failure(NullDereference("searchClient"));
      }
      var ok, reply := searchClient.connection.Search(index, body);
      if !ok {
        return Failure(EngineFailure(index));
      }
      if reply.status != 200 {
        return Failure(SearchFailed(reply.status));
      }
      var items := CollectItems(reply.hits);
      var aggs := CollectAggregations(BucketsOf(reply));
      r := Success(SearchResponse(reply.totalHits, items, aggs));
    }

    /** `searchKeywords(request)`: validate, search the keywords index of the
        request's language with an empty body, require status 200, and answer
        null whatever the hits. */
    method SearchKeywords(request: Option<SearchRequest>) returns (r: Result<Option<SearchResponse>, Error>)
      requires Valid()
      modifies process.cluster
      ensures process.cluster.store == old(process.cluster.store)
      ensures request.None? ==>
        r == Failure(Invalid("request")) && process.cluster.log == old(process.cluster.log)
      ensures request.Some? && request.value.language.None? ==>
        r == Failure(Invalid("language")) && process.cluster.log == old(process.cluster.log)
      ensures request.Some? && request.value.language.Some? && request.value.store.None? ==>
        r == Failure(Invalid("store")) && process.cluster.log == old(process.cluster.log)
      ensures Searchable(request) && searchClient == null ==>
        r == Failure(NullDereference("searchClient")) && process.cluster.log == old(process.cluster.log)
      ensures Searchable(request) && searchClient != null ==>
        var cluster := process.cluster;
        var sent := KeywordsSearch(request.value);
        var reply := cluster.answer(sent.index, sent.body);
        && cluster.log == old(cluster.log) + [sent]
        && (cluster.refuses(sent) ==> r == Failure(EngineFailure(sent.index)))
        && (!cluster.refuses(sent) && reply.status != 200 ==> r == Failure(SearchFailed(reply.status)))
        && (!cluster.refuses(sent) && reply.status == 200 ==> r == Success(None))
    {
      if request.None? {
        return Failure(Invalid("request"));
      }
      var req := request.value;
      if req.language.None? {
        return Failure(Invalid("language"));
      }
      if req.store.None? {
        return Failure(Invalid("store"));
      }
      // The keywords query is built as the source builds it, and is then
      // never attached to the search request.
      var query := KeywordQuery(req.searchString, req.store.value);
      var index := KeywordsPrefix + req.language.value;
      if searchClient == null {
        return Failure(NullDereference("searchClient"));
      }
      var ok, reply := searchClient.connection.Search(index, SearchBody(None, None));
      if !ok {
        return Failure(EngineFailure(index));
      }
      if reply.status != 200 {
        return Failure(SearchFailed(reply.status));
      }
      r := Success(None);
    }
  }
}
