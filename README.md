# shopizer-opensearch-starter: a verified model of the OpenSearch gateway

The starter connects a Shopizer catalogue to an OpenSearch cluster. Two Java
classes hold its logic, and this Dafny project models both.

- **`SearchClient`** is the connection singleton. Its constructor provisions
  one `products_<language>` index and one `keywords_<language>` index per
  configured language. It lower-cases each language and creates an index only
  when it is missing. All products indices come before any keywords index.
  When no language is configured, the list defaults to `en`.
- **`SearchModuleImpl`** is the gateway. It offers `configure`,
  `index(item)`, `index(list)`, `delete(languages, id)`, `searchProducts`
  and `searchKeywords`.

The cluster is the class `Engine.Cluster`. It holds a mutable document store
(index name to id to document) and a log of every request sent. Three
behaviours of the engine are constants of the cluster, given as inputs:

- `refuses` says which requests the engine throws on;
- `answer` gives its reply to a search;
- `acknowledges` gives its acknowledgement of an index creation.

Every state-changing operation is a method on a class. Each method is proved
equal to a pure effect function of the old store. An effect records the new
store, the requests sent and the outcome. Those effect functions carry the
lemmas. Loops that stop at the first exception (the `forEach` loops of the
constructor, of `index(list)` and of `delete`) are the left fold
`Engine.Chain`.

The files, in dependency order:

- `wrappers.dfy`: `Option`, `Result` and `Outcome`.
- `text.dfy`: Java's `toLowerCase` on ASCII and `String.valueOf(Long)`.
- `catalog.dfy`: the request and item records and the error kinds.
- `engine.dfy`: queries, documents, requests, the store, effects and the
  cluster class.
- `provisioning.dfy`: `SearchClient` and the singleton holder `Registry`.
- `documents.dfy`: the index and delete effects.
- `queries.dfy`: the query and aggregation builders.
- `responses.dfy`: mapping a reply to a `SearchResponse`.
- `gateway.dfy`: the `SearchModule` class.

Exceptions become `Error` values:

- a failed `Validate` check is `Invalid`;
- the explicit "not initialized" exception is `NotConfigured`;
- a `NullPointerException` is `NullDereference`;
- a missing settings or mapping string is `MissingSchema`;
- an exception from the engine is `EngineFailure`;
- a non-200 search is `SearchFailed`.

The `RuntimeException` that wraps an error inside a `forEach` is not modelled;
the inner error passes through unchanged.

Some properties hold of the code as written, quirks included:

- `index` uses the item's language verbatim, while `delete` and provisioning
  lower-case it. On a real OpenSearch cluster, which refuses index names
  with upper-case letters, `index` therefore fails for a language such as
  `EN`, while provisioning and `delete` use `products_en` and `keywords_en`
  (`Documents.UpperCaseIndexFails`). Only on an engine that accepted the
  upper-case names would a document indexed under `EN` survive
  `delete(["EN"], id)` (`Documents.CaseMismatchKeepsDocument`).
- Several requested aggregations collapse to the last one
  (`Queries.AggregationKeepsOnlyLast`).
- `searchKeywords` builds its query but never attaches it to the request. It
  returns null on a 200 status (`Gateway.KeywordsSearch`,
  `Gateway.KeywordsSearchIgnoresText`). This model follows that code, not a
  `searchKeywords` that searches by text and returns matches.

## Model

| member | source | states |
|---|---|---|
| JavaText.Lower | shopizer-search-opensearch-spring-boot-autoconfigure/src/main/java/com/shopizer/search/autoconfigure/SearchClient.java:188 | ASCII lower-casing keeps the length and lower-cases each character in place |
| JavaText.LowerIsIdempotent | shopizer-search-opensearch-spring-boot-autoconfigure/src/main/java/com/shopizer/search/autoconfigure/SearchModuleImpl.java:168 | lower-cased text has no upper-case letter left, so lower-casing twice equals once |
| JavaText.LongString | shopizer-search-opensearch-spring-boot-autoconfigure/src/main/java/com/shopizer/search/autoconfigure/SearchModuleImpl.java:89 | `String.valueOf(long)`: a minus sign exactly for negative ids, then the decimal digits of the magnitude |
| JavaText.DigitsRoundTrip | shopizer-search-opensearch-spring-boot-autoconfigure/src/main/java/com/shopizer/search/autoconfigure/SearchModuleImpl.java:89 | reading back the decimal digits of `n` gives `n` |
| JavaText.LongStringIsInjective | shopizer-search-opensearch-spring-boot-autoconfigure/src/main/java/com/shopizer/search/autoconfigure/SearchModuleImpl.java:89 | two ids with the same decimal string are equal |
| JavaText.DocIdIsInjective | shopizer-search-opensearch-spring-boot-autoconfigure/src/main/java/com/shopizer/search/autoconfigure/SearchModuleImpl.java:103 | the document id `String.valueOf(item.getId())` ("null" for a missing id) determines the id |
| Engine.AfterWrite | shopizer-search-opensearch-spring-boot-autoconfigure/src/main/java/com/shopizer/search/autoconfigure/SearchModuleImpl.java:93 | a write creates the index if needed, stores the document under its id and changes no other document |
| Engine.AfterDelete | shopizer-search-opensearch-spring-boot-autoconfigure/src/main/java/com/shopizer/search/autoconfigure/SearchModuleImpl.java:187 | a delete leaves no document under the id and changes no other document or index |
| Engine.ChainAppend | shopizer-search-opensearch-spring-boot-autoconfigure/src/main/java/com/shopizer/search/autoconfigure/SearchModuleImpl.java:145-151 | a fail-fast `forEach` over `xs + ys` is the loop over `xs`, then, if that passed, the loop over `ys` from its store |
| Engine.ChainStopsAtFailure | shopizer-search-opensearch-spring-boot-autoconfigure/src/main/java/com/shopizer/search/autoconfigure/SearchModuleImpl.java:145-151 | the first element whose step fails ends the loop: the outcome is the prefix's effect followed by the failing step, and nothing after it is sent |
| Engine.Cluster.Exists | shopizer-search-opensearch-spring-boot-autoconfigure/src/main/java/com/shopizer/search/autoconfigure/SearchClient.java:192-193 | the existence probe is logged, changes nothing, and reports whether the index exists |
| Engine.Cluster.Create | shopizer-search-opensearch-spring-boot-autoconfigure/src/main/java/com/shopizer/search/autoconfigure/SearchClient.java:208 | the create is logged; it succeeds exactly when not refused and the index is missing, and then adds an empty index |
| Engine.Cluster.Put | shopizer-search-opensearch-spring-boot-autoconfigure/src/main/java/com/shopizer/search/autoconfigure/SearchModuleImpl.java:93 | the write is logged; when not refused the store becomes `AfterWrite` of the old store |
| Engine.Cluster.Remove | shopizer-search-opensearch-spring-boot-autoconfigure/src/main/java/com/shopizer/search/autoconfigure/SearchModuleImpl.java:187 | the delete is logged; when not refused the store becomes `AfterDelete` of the old store |
| Engine.Cluster.Search | shopizer-search-opensearch-spring-boot-autoconfigure/src/main/java/com/shopizer/search/autoconfigure/SearchModuleImpl.java:268 | the search is logged, changes no document, and returns the engine's answer |
| Provisioning.IndexLanguages | shopizer-search-opensearch-spring-boot-autoconfigure/src/main/java/com/shopizer/search/autoconfigure/SearchClient.java:135-143 | an empty language list becomes exactly `["en"]`; any other list is kept, in order |
| Provisioning.FamilySteps | shopizer-search-opensearch-spring-boot-autoconfigure/src/main/java/com/shopizer/search/autoconfigure/SearchClient.java:154-167 | one step per language in order, with that language's mapping and settings looked up in the configuration's maps |
| Provisioning.RunKeepsExisting | shopizer-search-opensearch-spring-boot-autoconfigure/src/main/java/com/shopizer/search/autoconfigure/SearchClient.java:193-196 | provisioning never alters an existing index; every index it adds is one of its targets and starts empty |
| Provisioning.CreateKeepsExisting | shopizer-search-opensearch-spring-boot-autoconfigure/src/main/java/com/shopizer/search/autoconfigure/SearchClient.java:186-210 | one `createIndex` keeps every index it finds and adds at most its own target, empty |
| Provisioning.RunSendsStepRequests | shopizer-search-opensearch-spring-boot-autoconfigure/src/main/java/com/shopizer/search/autoconfigure/SearchClient.java:186-208 | every request sent is the existence probe or the creation of one step, with that step's own settings and mapping |
| Provisioning.RunCreatesOnlyMissing | shopizer-search-opensearch-spring-boot-autoconfigure/src/main/java/com/shopizer/search/autoconfigure/SearchClient.java:192-208 | a create is sent only for an index missing at the start, never twice for the same index, and on success each created index exists |
| Provisioning.RunCovers | shopizer-search-opensearch-spring-boot-autoconfigure/src/main/java/com/shopizer/search/autoconfigure/SearchClient.java:154-167 | when provisioning passes, every target index exists |
| Provisioning.RunIsIdempotent | shopizer-search-opensearch-spring-boot-autoconfigure/src/main/java/com/shopizer/search/autoconfigure/SearchClient.java:193-196 | when every target already exists the store is unchanged and no create is sent |
| Provisioning.ProvisionStepShape | shopizer-search-opensearch-spring-boot-autoconfigure/src/main/java/com/shopizer/search/autoconfigure/SearchClient.java:154-167 | every step is the products step or the keywords step of one index language, with `productMappings[l]` or `keywordsMappings[l]` and `settings[l]` |
| Provisioning.ProvisionRequests | shopizer-search-opensearch-spring-boot-autoconfigure/src/main/java/com/shopizer/search/autoconfigure/SearchClient.java:154-208 | every request sent targets `products_` or `keywords_` plus a lower-cased index language, and a create carries that language's settings and mapping |
| Provisioning.ProvisionCovers | shopizer-search-opensearch-spring-boot-autoconfigure/src/main/java/com/shopizer/search/autoconfigure/SearchClient.java:135-167 | after a passing provisioning both indices of every lower-cased language exist; existing indices are untouched; every new index is empty and one of those targets |
| Provisioning.ProvisionIsIdempotent | shopizer-search-opensearch-spring-boot-autoconfigure/src/main/java/com/shopizer/search/autoconfigure/SearchClient.java:193-196 | on a store that already holds every target the store is unchanged and no create is sent |
| Provisioning.ProvisionTwiceCreatesNothing | shopizer-search-opensearch-spring-boot-autoconfigure/src/main/java/com/shopizer/search/autoconfigure/SearchClient.java:154-196 | running provisioning again after it passed changes nothing and sends no create |
| Provisioning.PrefixesExclude | shopizer-search-opensearch-spring-boot-autoconfigure/src/main/java/com/shopizer/search/autoconfigure/SearchClient.java:40-41 | no index name starts with both `products_` and `keywords_` |
| Provisioning.FamiliesDiffer | shopizer-search-opensearch-spring-boot-autoconfigure/src/main/java/com/shopizer/search/autoconfigure/SearchClient.java:40-41 | a products index name never equals a keywords index name |
| Provisioning.RunStaysInFamily | shopizer-search-opensearch-spring-boot-autoconfigure/src/main/java/com/shopizer/search/autoconfigure/SearchClient.java:154-160 | a loop over steps of one prefix sends only requests addressed to indices with that prefix |
| Provisioning.ProductsBeforeKeywords | shopizer-search-opensearch-spring-boot-autoconfigure/src/main/java/com/shopizer/search/autoconfigure/SearchClient.java:154-167 | no products request is sent after a keywords request |
| Provisioning.ProvisionStopsAtFailure | shopizer-search-opensearch-spring-boot-autoconfigure/src/main/java/com/shopizer/search/autoconfigure/SearchClient.java:154-167 | the first step that fails aborts provisioning: no later step is attempted |
| Provisioning.ProvisionSplits | shopizer-search-opensearch-spring-boot-autoconfigure/src/main/java/com/shopizer/search/autoconfigure/SearchClient.java:154-167 | provisioning is the products loop followed, only if that passed, by the keywords loop |
| Provisioning.SearchClient.Create | shopizer-search-opensearch-spring-boot-autoconfigure/src/main/java/com/shopizer/search/autoconfigure/SearchClient.java:46-167 | a null configuration is rejected with nothing sent; otherwise the store and the log follow the provisioning effect, and success yields a fresh client on this cluster |
| Provisioning.SearchClient.Provision | shopizer-search-opensearch-spring-boot-autoconfigure/src/main/java/com/shopizer/search/autoconfigure/SearchClient.java:135-167 | the two `forEach` loops: the cluster's store and log end as the provisioning effect states, and the outcome is its outcome |
| Provisioning.SearchClient.CreateFamily | shopizer-search-opensearch-spring-boot-autoconfigure/src/main/java/com/shopizer/search/autoconfigure/SearchClient.java:154-160 | one `forEach` loop over the languages: store, log and outcome equal the fail-fast run of the family's steps |
| Provisioning.SearchClient.CreateIndex | shopizer-search-opensearch-spring-boot-autoconfigure/src/main/java/com/shopizer/search/autoconfigure/SearchClient.java:186-213 | probe `prefix + lower(language)`; an existing index ends the call; otherwise one create with the given settings and mapping; a negative acknowledgement does not change the outcome |
| Provisioning.Registry.GetInstance | shopizer-search-opensearch-spring-boot-autoconfigure/src/main/java/com/shopizer/search/autoconfigure/SearchClient.java:172-178 | the first successful call builds the client; every later call returns that same client whatever configuration it is given and touches nothing; a failed build leaves no client |
| Documents.KeywordDoc | shopizer-search-opensearch-spring-boot-autoconfigure/src/main/java/com/shopizer/search/autoconfigure/SearchModuleImpl.java:105-110 | the keyword document has exactly the keys name, store, category and brand, copied from the item |
| Documents.KeywordDocIsProjection | shopizer-search-opensearch-spring-boot-autoconfigure/src/main/java/com/shopizer/search/autoconfigure/SearchModuleImpl.java:105-110 | two items give the same keyword document exactly when they agree on name, store, category and brand |
| Documents.Writes | shopizer-search-opensearch-spring-boot-autoconfigure/src/main/java/com/shopizer/search/autoconfigure/SearchModuleImpl.java:88-110 | the product write to `products_` + language and the keyword write to `keywords_` + language, both under the item's id, the language used verbatim |
| Documents.Send | shopizer-search-opensearch-spring-boot-autoconfigure/src/main/java/com/shopizer/search/autoconfigure/SearchModuleImpl.java:93 | one request is sent; it fails, with the index it addressed and no change, exactly when the engine refuses it; only its own id in its own index can change |
| Documents.IndexEffect | shopizer-search-opensearch-spring-boot-autoconfigure/src/main/java/com/shopizer/search/autoconfigure/SearchModuleImpl.java:77-84 | a null item, then a null language, then a missing client, each fail before anything is sent |
| Documents.IndexWritesBoth | shopizer-search-opensearch-spring-boot-autoconfigure/src/main/java/com/shopizer/search/autoconfigure/SearchModuleImpl.java:87-114 | the product write goes first and the keyword write only if it succeeded; each write that succeeded stores its document; no other document changes |
| Documents.IndexAllEffect | shopizer-search-opensearch-spring-boot-autoconfigure/src/main/java/com/shopizer/search/autoconfigure/SearchModuleImpl.java:145 | a null list is dereferenced before anything is sent |
| Documents.WritesOf | shopizer-search-opensearch-spring-boot-autoconfigure/src/main/java/com/shopizer/search/autoconfigure/SearchModuleImpl.java:144-153 | two writes per accepted item |
| Documents.WritesOfAt | shopizer-search-opensearch-spring-boot-autoconfigure/src/main/java/com/shopizer/search/autoconfigure/SearchModuleImpl.java:144-153 | the writes of item `i` sit at positions `2i` and `2i + 1` |
| Documents.IndexAllSendsInOrder | shopizer-search-opensearch-spring-boot-autoconfigure/src/main/java/com/shopizer/search/autoconfigure/SearchModuleImpl.java:144-153 | a passing list had only valid items, and exactly their writes were sent, item by item in list order |
| Documents.IndexAllStopsAtFailure | shopizer-search-opensearch-spring-boot-autoconfigure/src/main/java/com/shopizer/search/autoconfigure/SearchModuleImpl.java:145-151 | the first item that fails aborts the list; the earlier items' writes stay |
| Documents.IndexAllKeepsOthers | shopizer-search-opensearch-spring-boot-autoconfigure/src/main/java/com/shopizer/search/autoconfigure/SearchModuleImpl.java:144-153 | indexing a list never touches a document whose id is not one of the items' ids |
| Documents.DeleteDocumentFacts | shopizer-search-opensearch-spring-boot-autoconfigure/src/main/java/com/shopizer/search/autoconfigure/SearchModuleImpl.java:179-192 | the products delete comes first and the keywords delete only if it succeeded; on success both are gone; nothing else changes and nothing reappears |
| Documents.DeleteEffect | shopizer-search-opensearch-spring-boot-autoconfigure/src/main/java/com/shopizer/search/autoconfigure/SearchModuleImpl.java:159-164 | a missing client fails first, then a null or empty language list, with nothing sent |
| Documents.DeleteRemovesEverywhere | shopizer-search-opensearch-spring-boot-autoconfigure/src/main/java/com/shopizer/search/autoconfigure/SearchModuleImpl.java:166-172 | deleting never touches another id; when it passes, every language was non-null and the id is gone from both indices of each lower-cased language |
| Documents.DeleteSendsInOrder | shopizer-search-opensearch-spring-boot-autoconfigure/src/main/java/com/shopizer/search/autoconfigure/SearchModuleImpl.java:166-190 | a passing delete sends exactly two deletes per language, in language order, products before keywords, to the lower-cased indices |
| Documents.DeleteStopsAtFailure | shopizer-search-opensearch-spring-boot-autoconfigure/src/main/java/com/shopizer/search/autoconfigure/SearchModuleImpl.java:166-172 | the first language that fails aborts the remaining languages |
| Documents.IndexThenDeleteRemoves | shopizer-search-opensearch-spring-boot-autoconfigure/src/main/java/com/shopizer/search/autoconfigure/SearchModuleImpl.java:166-190 | for a lower-case language, indexing an item and then deleting its id in that language removes both documents |
| Documents.DeleteLanguageFrame | shopizer-search-opensearch-spring-boot-autoconfigure/src/main/java/com/shopizer/search/autoconfigure/SearchModuleImpl.java:168-190 | deleting one language only addresses, and only changes, the two indices of its lower-cased form |
| Documents.DeleteOneLanguage | shopizer-search-opensearch-spring-boot-autoconfigure/src/main/java/com/shopizer/search/autoconfigure/SearchModuleImpl.java:166-172 | deleting with a one-language list is the delete of that language |
| Documents.CaseMismatchKeepsDocument | shopizer-search-opensearch-spring-boot-autoconfigure/src/main/java/com/shopizer/search/autoconfigure/SearchModuleImpl.java:102-168 | on an engine that accepted upper-case index names, an item indexed under a language with upper-case letters would survive a delete in that same language: the delete addresses only the lower-cased indices |
| Documents.UpperCaseLanguage | shopizer-search-opensearch-spring-boot-autoconfigure/src/main/java/com/shopizer/search/autoconfigure/SearchModuleImpl.java:168 | witness, a single example: the language "EN" is such a language, it lower-cases to "en" |
| Queries.FilterQuery | shopizer-search-opensearch-spring-boot-autoconfigure/src/main/java/com/shopizer/search/autoconfigure/SearchModuleImpl.java:312-325 | a variant filter is the term nested under `variants`; any other filter is the bare term |
| Queries.FilterQueryIsInjective | shopizer-search-opensearch-spring-boot-autoconfigure/src/main/java/com/shopizer/search/autoconfigure/SearchModuleImpl.java:312-325 | the filter query determines the filter |
| Queries.BuildProductQuery | shopizer-search-opensearch-spring-boot-autoconfigure/src/main/java/com/shopizer/search/autoconfigure/SearchModuleImpl.java:234-243 | `must` is one multi-match over name, description, brand and category; the first filter is the store term; then one filter per request filter, in order |
| Queries.ProductQueryDeterminesRequest | shopizer-search-opensearch-spring-boot-autoconfigure/src/main/java/com/shopizer/search/autoconfigure/SearchModuleImpl.java:234-243 | the products query determines the search string, the store and the filters, in order |
| Queries.RequestedAggregation | shopizer-search-opensearch-spring-boot-autoconfigure/src/main/java/com/shopizer/search/autoconfigure/SearchModuleImpl.java:245-253 | no aggregation exactly when none is requested; otherwise one terms aggregation named `aggregations` over the last requested name |
| Queries.BuildAggregation | shopizer-search-opensearch-spring-boot-autoconfigure/src/main/java/com/shopizer/search/autoconfigure/SearchModuleImpl.java:245-253 | the aggregation loop yields exactly the requested aggregation |
| Queries.AggregationKeepsOnlyLast | shopizer-search-opensearch-spring-boot-autoconfigure/src/main/java/com/shopizer/search/autoconfigure/SearchModuleImpl.java:250-252 | every requested name but the last is dropped |
| Responses.CollectItems | shopizer-search-opensearch-spring-boot-autoconfigure/src/main/java/com/shopizer/search/autoconfigure/SearchModuleImpl.java:283-293 | one item per hit, in hit order, each from the hit's source |
| Responses.CollectAggregations | shopizer-search-opensearch-spring-boot-autoconfigure/src/main/java/com/shopizer/search/autoconfigure/SearchModuleImpl.java:301-306 | one (key, document count) pair per bucket, in bucket order |
| Responses.ResponseDeterminesReply | shopizer-search-opensearch-spring-boot-autoconfigure/src/main/java/com/shopizer/search/autoconfigure/SearchModuleImpl.java:281-306 | a response determines the total hits, the hits' sources and the buckets it was built from |
| Responses.BucketsAsWritten | shopizer-search-opensearch-spring-boot-autoconfigure/src/main/java/com/shopizer/search/autoconfigure/SearchModuleImpl.java:295-301 | as written, reading the buckets fails exactly when the reply has no aggregations section or no `aggregations` entry |
| Responses.SearchWithoutAggregationFails | shopizer-search-opensearch-spring-boot-autoconfigure/src/main/java/com/shopizer/search/autoconfigure/SearchModuleImpl.java:295-301 | as written, every search without a requested aggregation fails at the bucket loop |
| Responses.PlainSearchFails | shopizer-search-opensearch-spring-boot-autoconfigure/src/main/java/com/shopizer/search/autoconfigure/SearchModuleImpl.java:295-301 | witness, a single example: a concrete search with no aggregation, answered with one hit, fails as written |
| Responses.BucketsOf | shopizer-search-opensearch-spring-boot-autoconfigure/src/main/java/com/shopizer/search/autoconfigure/SearchModuleImpl.java:295-306 | corrected: the requested aggregation's buckets when present, otherwise none |
| Responses.BucketsOfIsTotal | shopizer-search-opensearch-spring-boot-autoconfigure/src/main/java/com/shopizer/search/autoconfigure/SearchModuleImpl.java:248-306 | for a reply to the products body, the corrected reading agrees with the source's whenever that succeeds, and yields no buckets when no aggregation was requested |
| Gateway.KeywordsSearch | shopizer-search-opensearch-spring-boot-autoconfigure/src/main/java/com/shopizer/search/autoconfigure/SearchModuleImpl.java:207-211 | the keywords search goes to `keywords_` + language with an empty body: the query is never attached |
| Gateway.ProductsSearchDeterminesRequest | shopizer-search-opensearch-spring-boot-autoconfigure/src/main/java/com/shopizer/search/autoconfigure/SearchModuleImpl.java:234-264 | the products search sent determines the request's language, text, store and filters |
| Gateway.KeywordsSearchIgnoresText | shopizer-search-opensearch-spring-boot-autoconfigure/src/main/java/com/shopizer/search/autoconfigure/SearchModuleImpl.java:201-211 | two keywords searches are the same request exactly when their languages agree: text and store never reach the engine |
| Gateway.SearchModule.Configure | shopizer-search-opensearch-spring-boot-autoconfigure/src/main/java/com/shopizer/search/autoconfigure/SearchModuleImpl.java:57-62 | the field takes the singleton client; a client that already exists, or a null configuration, leaves the singleton as it was; a failed build leaves the field as it was and the singleton empty, so later calls keep returning the first client built |
| Gateway.SearchModule.Index | shopizer-search-opensearch-spring-boot-autoconfigure/src/main/java/com/shopizer/search/autoconfigure/SearchModuleImpl.java:74-116 | the store, the log and the outcome follow the index effect |
| Gateway.SearchModule.IndexAll | shopizer-search-opensearch-spring-boot-autoconfigure/src/main/java/com/shopizer/search/autoconfigure/SearchModuleImpl.java:144-153 | the loop over the list: store, log and outcome follow the list's effect |
| Gateway.SearchModule.Delete | shopizer-search-opensearch-spring-boot-autoconfigure/src/main/java/com/shopizer/search/autoconfigure/SearchModuleImpl.java:157-177 | store, log and outcome follow the delete effect |
| Gateway.SearchModule.DeleteEach | shopizer-search-opensearch-spring-boot-autoconfigure/src/main/java/com/shopizer/search/autoconfigure/SearchModuleImpl.java:166-172 | the loop over the languages: store, log and outcome follow the fail-fast run of the per-language deletes |
| Gateway.SearchModule.DeleteLanguage | shopizer-search-opensearch-spring-boot-autoconfigure/src/main/java/com/shopizer/search/autoconfigure/SearchModuleImpl.java:168 | a null language is dereferenced; any other is lower-cased and deleted |
| Gateway.SearchModule.DeleteDocument | shopizer-search-opensearch-spring-boot-autoconfigure/src/main/java/com/shopizer/search/autoconfigure/SearchModuleImpl.java:179-192 | store, log and outcome follow the two-delete effect |
| Gateway.SearchModule.SearchProducts | shopizer-search-opensearch-spring-boot-autoconfigure/src/main/java/com/shopizer/search/autoconfigure/SearchModuleImpl.java:227-310 | request, language and store are validated in that order; then exactly one products search is sent with the products query and the requested aggregation; a refused search or a status other than 200 fails; otherwise the response is built from the reply, its buckets read with the corrected `BucketsOf`; no document changes |
| Gateway.SearchModule.SearchKeywords | shopizer-search-opensearch-spring-boot-autoconfigure/src/main/java/com/shopizer/search/autoconfigure/SearchModuleImpl.java:196-223 | the same validation; exactly one keywords search with an empty body; a refused search or a status other than 200 fails; otherwise the answer is null |
| Engine.Chain | shopizer-search-opensearch-spring-boot-autoconfigure/src/main/java/com/shopizer/search/autoconfigure/SearchModuleImpl.java:145-151 | the fail-fast `forEach`: an empty loop sends nothing and passes |
| Engine.ChainPasses | shopizer-search-opensearch-spring-boot-autoconfigure/src/main/java/com/shopizer/search/autoconfigure/SearchModuleImpl.java:145-151 | a loop whose body never throws never throws |
| Engine.ChainFirst | shopizer-search-opensearch-spring-boot-autoconfigure/src/main/java/com/shopizer/search/autoconfigure/SearchClient.java:154-160 | the first element runs first, from the initial store; the rest runs only if it passed |
| Provisioning.CreateEffect | shopizer-search-opensearch-spring-boot-autoconfigure/src/main/java/com/shopizer/search/autoconfigure/SearchClient.java:186-213 | `createIndex` always starts with the existence probe of `prefix + lower(language)`; when it passes, that index exists |
| Provisioning.CreateSendsOneCreate | shopizer-search-opensearch-spring-boot-autoconfigure/src/main/java/com/shopizer/search/autoconfigure/SearchClient.java:192-208 | one `createIndex` sends at most one create, as its second request, for its own target and only when that is missing; it removes no index |
| Provisioning.ProvisionSteps | shopizer-search-opensearch-spring-boot-autoconfigure/src/main/java/com/shopizer/search/autoconfigure/SearchClient.java:154-167 | both loops: first one products step per index language in order, then one keywords step per language in order, with `productMappings[l]` or `keywordsMappings[l]` and `settings[l]` |
| Provisioning.ProvisionEffect | shopizer-search-opensearch-spring-boot-autoconfigure/src/main/java/com/shopizer/search/autoconfigure/SearchClient.java:154-160 | provisioning always sends something, and its first request probes the products index of the first index language, lower-cased |
| Provisioning.FamiliesInOrder | shopizer-search-opensearch-spring-boot-autoconfigure/src/main/java/com/shopizer/search/autoconfigure/SearchClient.java:154-167 | products requests followed by keywords requests never put a products request after a keywords request |
| Documents.DeleteDocumentEffect | shopizer-search-opensearch-spring-boot-autoconfigure/src/main/java/com/shopizer/search/autoconfigure/SearchModuleImpl.java:179-192 | `deleteDocument` sends one or two deletes, the products delete first; a failure names the index of the last request sent |
| Documents.DeleteLanguageEffect | shopizer-search-opensearch-spring-boot-autoconfigure/src/main/java/com/shopizer/search/autoconfigure/SearchModuleImpl.java:168 | a null entry fails before anything is sent; any other entry starts with the products delete of its lower-cased form |
| Documents.UpperCaseIndexFails | shopizer-search-opensearch-spring-boot-autoconfigure/src/main/java/com/shopizer/search/autoconfigure/SearchModuleImpl.java:88-93 | on an engine that refuses upper-case index names, `index` for a language with an upper-case letter fails at the product write and changes nothing |
| JavaText.LowerFixesSuffix | shopizer-search-opensearch-spring-boot-autoconfigure/src/main/java/com/shopizer/search/autoconfigure/SearchClient.java:188 | a name that lower-casing leaves alone has a tail that lower-casing leaves alone |
| Queries.KeywordQuery | shopizer-search-opensearch-spring-boot-autoconfigure/src/main/java/com/shopizer/search/autoconfigure/SearchModuleImpl.java:201-205 | one multi-match over name, brand and category, and the store filter; it is never a products query, since the field lists differ |

## Left out

- HTTP and TLS setup, from the hosts list through the truststore (shopizer-search-opensearch-spring-boot-autoconfigure/src/main/java/com/shopizer/search/autoconfigure/SearchClient.java:57-130), is left out: it is network I/O. The connection is the `Cluster` object passed in.
- The dead branch that closes a previous client (shopizer-search-opensearch-spring-boot-autoconfigure/src/main/java/com/shopizer/search/autoconfigure/SearchClient.java:51-54) is left out: the field is always null at that point.
- `JavaText.Lower` lower-cases ASCII letters only. Java's `toLowerCase` is Unicode and locale dependent.
- The engine's matching, ranking and nested-query semantics are left out. Search replies are the input `answer`, and failing requests are the input `refuses`.
- Whether the engine throws on a delete from a missing index is part of the input `refuses`. When it does not throw, the delete changes nothing.
- A write to a missing index with a valid, lower-case name creates that index on the fly, as the engine's default does. The model does not build OpenSearch's naming rules into the store. A write that a real engine refuses, for example to a name with an upper-case letter, is one for which the input `refuses` holds (`Documents.RejectsUpperCaseNames`).
- The product document is `ProductSource(item)`, the whole item. The reflection-based `parameters` map depends on `IndexItem`'s declared fields, which are not part of this model.
- Jackson deserialisation of a hit is left out: a `SearchItem` wraps the hit's stored source as it is.
- The ignored `SearchHits` read in `searchKeywords` is left out.
- Missing total-hit counts are left out.
- A null search string or null filter values are left out. The request record's `searchString` and filter fields are not optional, so no client-library argument check is modelled for them.
- Null filter and aggregation lists count as empty, because `CollectionUtils.isEmpty` treats the two alike. A null configuration map counts as an empty map.
- A null entry in the configured language list is left out: the list holds strings. In the source, such an entry makes `language.toLowerCase()` throw in `createIndex` (SearchClient.java:188) before anything is sent for that language.
- A null entry in a request's aggregation list is left out: the list holds strings. In the source, `aggregation.field(null)` throws (SearchModuleImpl.java:251) before the search is sent.
- Gateway.SearchModule.SearchProducts: the method reads the buckets with the corrected `Responses.BucketsOf`, not with `Responses.BucketsAsWritten`. On a 200 reply without an aggregations section it therefore succeeds with no aggregation counts, where the source throws a `NullPointerException` (SearchModuleImpl.java:295-298). The source's behaviour is `Responses.BucketsAsWritten`, see "## Findings".
- Console printing, `getUniqueCode` and `getConnection` are left out: they decide nothing.
- Spring wiring is left out.
- A `getDocument` operation is not part of this model, because the source has none.
- Provisioning.SearchClient.CreateIndex: a negative acknowledgement of a create is ignored, as the source only prints it. The `acknowledges` input therefore never reaches an outcome.

## Findings

| source | as written | input that shows it | evidently intended | confidence | as-written member | corrected member |
|---|---|---|---|---|---|---|
| shopizer-search-opensearch-spring-boot-autoconfigure/src/main/java/com/shopizer/search/autoconfigure/SearchModuleImpl.java:295-301 | `searchProducts` dereferences `getAggregations()` and `get("aggregations")` without a null check | a products search with an empty aggregation list, answered with status 200 and no aggregations section: a `NullPointerException` after the hits were read | no buckets, so the response has no aggregation counts | not executed | Responses.BucketsAsWritten (with Responses.SearchWithoutAggregationFails, Responses.PlainSearchFails) | Responses.BucketsOf (with Responses.BucketsOfIsTotal) |
