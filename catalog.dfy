/** The caller-owned values the gateway reads: catalogue items, search
    requests, the configuration snapshot, and the errors the gateway raises. */
module Catalog {
  import opened Wrappers
  import opened JavaText

  /** A catalogue item to index. Every reference-typed attribute may be null. */
  datatype IndexItem = IndexItem(
    id: Option<Long>,
    language: Option<string>,
    name: Option<string>,
    description: Option<string>,
    brand: Option<string>,
    category: Option<string>,
    store: Option<string>,
    inventory: seq<map<string, string>>,
    variants: seq<map<string, string>>)

  /** One extra term filter; `isVariant` puts it under the nested "variants"
      sub-documents. */
  datatype SearchFilter = SearchFilter(field: string, value: string, isVariant: bool)

  /** A search request. A null filter or aggregation list behaves exactly as an
      empty one, so both are plain sequences. */
  datatype SearchRequest = SearchRequest(
    searchString: string,
    store: Option<string>,
    language: Option<string>,
    filters: seq<SearchFilter>,
    aggregations: seq<string>)

  /** The part of the configuration snapshot that index provisioning consumes:
      the languages and the per-language schema payloads (opaque JSON text).
      A null language list behaves exactly as an empty one. */
  datatype SearchConfiguration = SearchConfiguration(
    languages: seq<string>,
    productMappings: map<string, string>,
    keywordsMappings: map<string, string>,
    settings: map<string, string>)

  /** What the gateway's operations throw. */
  datatype Error =
    | Invalid(what: string)           // a Validate.notNull / notEmpty check failed
    | NotConfigured                   // the explicit "client has not been initialized" exception
    | NullDereference(what: string)   // a NullPointerException on an unguarded null
    | MissingSchema(index: string)    // no settings or mapping for the language of a missing index
    | EngineFailure(index: string)    // the engine threw on a request addressed to this index
    | SearchFailed(status: int)       // a search answered with a status other than 200
}
