/** The query values the two searches build: a bool query whose `must` clause
    is a multi-field match and whose filters scope the search to a store and
    to the request's term filters, and at most one terms aggregation. */
module Queries {
  import opened Wrappers
  import opened Catalog
  import opened Engine

  const ProductFields: seq<string> := ["name", "description", "brand", "category"]
  const KeywordFields: seq<string> := ["name", "brand", "category"]
  const DefaultAggregation := "aggregations"
  const VariantsPath := "variants"

  /** The filter `buildFilter` adds for `f`: the bare term, or the term nested
      under the variants sub-documents. */
  function FilterQuery(f: SearchFilter): (q: Query)
    ensures f.isVariant ==> q == Nested(VariantsPath, Term(f.field, f.value))
    ensures !f.isVariant ==> q == Term(f.field, f.value)
  {
    var t := Term(f.field, f.value);
    if f.isVariant then Nested(VariantsPath, t) else t
  }

  /** A filter query determines the filter it came from. */
  lemma FilterQueryIsInjective(f: SearchFilter, g: SearchFilter)
    ensures FilterQuery(f) == FilterQuery(g) ==> f == g
  {
  }

  /** `q` is the products query for `text` in `store` with `filters`. */
  predicate IsProductQuery(q: Query, text: string, store: string, filters: seq<SearchFilter>)
  {
    && q.Bool?
    && q.must == [MultiMatch(text, ProductFields)]
    && |q.filters| == |filters| + 1
    && q.filters[0] == Term("store", store)
    && forall i :: 0 <= i < |filters| ==> q.filters[i + 1] == FilterQuery(filters[i])
  }

  /** The products query builder: the match clause, the store filter, then
      `buildFilter` for each request filter in order. */
  method BuildProductQuery(text: string, store: string, filters: seq<SearchFilter>) returns (q: Query)
    ensures IsProductQuery(q, text, store, filters)
  {
    var must := [MultiMatch(text, ProductFields)];
    var fs := [Term("store", store)];
    var i := 0;
    while i < |filters|
      invariant 0 <= i <= |filters|
      invariant |fs| == i + 1 && fs[0] == Term("store", store)
      invariant forall j :: 0 <= j < i ==> fs[j + 1] == FilterQuery(filters[j])
    {
      fs := fs + [FilterQuery(filters[i])];
      i := i + 1;
    }
    q := Bool(must, fs);
  }

  /** Two requests build the same products query exactly when they agree on
      the search string, the store and the filters, in order. */
  lemma ProductQueryDeterminesRequest(q: Query, text: string, store: string, filters: seq<SearchFilter>,
                                      text': string, store': string, filters': seq<SearchFilter>)
    requires IsProductQuery(q, text, store, filters) && IsProductQuery(q, text', store', filters')
    ensures text == text' && store == store' && filters == filters'
  {
    assert q.must[0] == MultiMatch(text, ProductFields) == MultiMatch(text', ProductFields);
    assert |filters| == |filters'|;
    forall i | 0 <= i < |filters|
      ensures filters[i] == filters'[i]
    {
      FilterQueryIsInjective(filters[i], filters'[i]);
    }
  }

  /** The aggregation the request's names produce: none for an empty list,
      otherwise one terms aggregation named "aggregations" over the last name. */
  function RequestedAggregation(names: seq<string>): (agg: Option<TermsAgg>)
    ensures names == [] <==> agg.None?
    ensures agg.Some? ==> agg.value.name == DefaultAggregation && agg.value.field == Some(names[|names| - 1])
  {
    if names == [] then None else Some(TermsAgg(DefaultAggregation, Some(names[|names| - 1])))
  }

  /** The aggregation loop: one builder, whose field each requested name
      overwrites in turn. */
  method BuildAggregation(names: seq<string>) returns (agg: Option<TermsAgg>)
    ensures agg == RequestedAggregation(names)
  {
    agg := None;
    if names != [] {
      var builder := TermsAgg(DefaultAggregation, None);
      var i := 0;
      while i < |names|
        invariant 0 <= i <= |names|
        invariant builder.name == DefaultAggregation
        invariant i == 0 ==> builder.field.None?
        invariant i > 0 ==> builder.field == Some(names[i - 1])
      {
        builder := builder.(field := Some(names[i]));
        i := i + 1;
      }
      agg := Some(builder);
    }
  }

  /** Requesting several aggregations collapses to the last one: every name
      but the last is dropped. */
  lemma AggregationKeepsOnlyLast(earlier: seq<string>, last: string)
    ensures RequestedAggregation(earlier + [last]) == RequestedAggregation([last])
  {
  }

  /** The keywords query: a match over name, brand and category, scoped to the
      store. `searchKeywords` builds it and never sends it. */
  function KeywordQuery(text: string, store: string): (q: Query)
    ensures q.Bool? && q.must == [MultiMatch(text, KeywordFields)] && q.filters == [Term("store", store)]
    ensures forall text', store', filters :: !IsProductQuery(q, text', store', filters)
  {
    Bool([MultiMatch(text, KeywordFields)], [Term("store", store)])
  }
}
