/** Document writes and deletes: `index(item)` writes a product document and a
    keyword document; `index(list)` and `delete(languages, id)` are fail-fast
    loops over those. */
module Documents {
  import opened Wrappers
  import opened JavaText
  import opened Catalog
  import opened Engine
  import opened Provisioning

  // ----- The two documents of one item -----

  /** The keyword document: the four fields `name`, `store`, `category` and
      `brand` of the item, each possibly null. */
  function KeywordDoc(item: IndexItem): (d: Doc)
    ensures d.Fields?
    ensures d.fields.Keys == {"name", "store", "category", "brand"}
    ensures d.fields["name"] == item.name && d.fields["store"] == item.store
    ensures d.fields["category"] == item.category && d.fields["brand"] == item.brand
  {
    Fields(map["name" := item.name, "store" := item.store, "category" := item.category, "brand" := item.brand])
  }

  /** The keyword document is a projection: description, inventory, variants,
      language and id play no part in it. */
  lemma KeywordDocIsProjection(a: IndexItem, b: IndexItem)
    ensures KeywordDoc(a) == KeywordDoc(b) <==>
      a.name == b.name && a.store == b.store && a.category == b.category && a.brand == b.brand
  {
    if KeywordDoc(a) == KeywordDoc(b) {
      assert KeywordDoc(a).fields["name"] == KeywordDoc(b).fields["name"];
      assert KeywordDoc(a).fields["store"] == KeywordDoc(b).fields["store"];
      assert KeywordDoc(a).fields["category"] == KeywordDoc(b).fields["category"];
      assert KeywordDoc(a).fields["brand"] == KeywordDoc(b).fields["brand"];
    }
  }

  /** The product write and the keyword write of an item with a language,
      in that order; the language is used as given. */
  function Writes(item: IndexItem): (r: seq<Request>)
    requires item.language.Some?
    ensures |r| == 2
    ensures r[0] == DocIndex(ProductsPrefix + item.language.value, DocIdOf(item.id), ProductSource(item))
    ensures r[1] == DocIndex(KeywordsPrefix + item.language.value, DocIdOf(item.id), KeywordDoc(item))
  {
    var id := DocIdOf(item.id);
    [DocIndex(ProductsPrefix + item.language.value, id, ProductSource(item)),
     DocIndex(KeywordsPrefix + item.language.value, id, KeywordDoc(item))]
  }

  /** Sends `r`; a refused request fails with the index it addressed. */
  function Send(s: Store, refuses: Request -> bool, r: Request): (e: Effect)
    requires r.DocIndex? || r.DocDelete?
    ensures e.sent == [r]
    ensures e.outcome.Fail? <==> refuses(r)
    ensures e.outcome.Fail? ==> e.outcome.error == EngineFailure(r.index) && e.store == s
    ensures forall n, k :: n != r.index || k != r.id ==> Lookup(e.store, n, k) == Lookup(s, n, k)
  {
    if refuses(r) then Effect(s, [r], Fail(EngineFailure(r.index)))
    else if r.DocIndex? then Effect(AfterWrite(s, r.index, r.id, r.source), [r], Pass)
    else Effect(AfterDelete(s, r.index, r.id), [r], Pass)
  }

  /** `index(item)`: validate the item and its language, require a
      configured client, then write the product document and, when that
      succeeded, the keyword document. */
  function IndexEffect(s: Store, refuses: Request -> bool, configured: bool, item: Option<IndexItem>): (e: Effect)
    ensures item.None? ==> e == Effect(s, [], Fail(Invalid("item")))
    ensures item.Some? && item.value.language.None? ==> e == Effect(s, [], Fail(Invalid("language")))
    ensures item.Some? && item.value.language.Some? && !configured ==> e == Effect(s, [], Fail(NotConfigured))
  {
    if item.None? then Effect(s, [], Fail(Invalid("item")))
    else if item.value.language.None? then Effect(s, [], Fail(Invalid("language")))
    else if !configured then Effect(s, [], Fail(NotConfigured))
    else
      var w := Writes(item.value);
      var product := Send(s, refuses, w[0]);
      if product.outcome.Fail? then product else Then(product, Send(product.store, refuses, w[1]))
  }

  /** A valid item on a configured client: the product write is sent first and
      the keyword write only when the product write succeeded; each write that
      succeeded stores its document under the item's id, and no other
      document changes. */
  lemma IndexWritesBoth(s: Store, refuses: Request -> bool, item: IndexItem)
    requires item.language.Some?
    ensures var e := IndexEffect(s, refuses, true, Some(item));
            var w := Writes(item);
            && (refuses(w[0]) ==> e == Effect(s, [w[0]], Fail(EngineFailure(w[0].index))))
            && (!refuses(w[0]) && refuses(w[1]) ==> e.sent == w && e.outcome == Fail(EngineFailure(w[1].index)))
            && (!refuses(w[0]) && !refuses(w[1]) ==> e.sent == w && e.outcome.Pass?)
            && (!refuses(w[0]) ==> Lookup(e.store, w[0].index, w[0].id) == Some(w[0].source))
            && (e.outcome.Pass? ==> Lookup(e.store, w[1].index, w[1].id) == Some(w[1].source))
            && forall n, k :: (n != w[0].index && n != w[1].index) || k != w[0].id ==>
                 Lookup(e.store, n, k) == Lookup(s, n, k)
  {
    FamiliesDiffer(item.language.value, item.language.value);
  }

  function Indexer(refuses: Request -> bool, configured: bool): (Store, Option<IndexItem>) -> Effect
  {
    (s: Store, item: Option<IndexItem>) => IndexEffect(s, refuses, configured, item)
  }

  lemma IndexerApplies(refuses: Request -> bool, configured: bool, s: Store, item: Option<IndexItem>)
    ensures Indexer(refuses, configured)(s, item) == IndexEffect(s, refuses, configured, item)
  {
  }

  /** An item that indexed without failure was a valid item, and both its
      writes were sent. */
  lemma IndexPassSendsWrites(s: Store, refuses: Request -> bool, configured: bool, item: Option<IndexItem>)
    requires IndexEffect(s, refuses, configured, item).outcome.Pass?
    ensures item.Some? && item.value.language.Some? && configured
    ensures IndexEffect(s, refuses, configured, item).sent == Writes(item.value)
  {
  }

  /** `index(list)`: each item in order, stopping at the first failure; a null
      list is dereferenced before anything happens. */
  function IndexAllEffect(s: Store, refuses: Request -> bool, configured: bool,
                          items: Option<seq<Option<IndexItem>>>): (e: Effect)
    ensures items.None? ==> e == Effect(s, [], Fail(NullDereference("items")))
  {
    if items.None? then Effect(s, [], Fail(NullDereference("items")))
    else Chain(s, items.value, Indexer(refuses, configured))
  }

  // ----- Deletes -----

  /** `deleteDocument(language, id)`: delete the id from the products index
      and then, when that succeeded, from the keywords index of `language`. */
  function DeleteDocumentEffect(s: Store, refuses: Request -> bool, id: Option<Long>, language: string): (e: Effect)
    ensures 0 < |e.sent| <= 2 && e.sent[0] == DocDelete(ProductsPrefix + language, DocIdOf(id))
    ensures e.outcome.Fail? ==> e.outcome.error == EngineFailure(e.sent[|e.sent| - 1].index)
  {
    var product := Send(s, refuses, DocDelete(ProductsPrefix + language, DocIdOf(id)));
    if product.outcome.Fail? then product
    else Then(product, Send(product.store, refuses, DocDelete(KeywordsPrefix + language, DocIdOf(id))))
  }

  /** `deleteDocument` sends the products delete and, unless that one was
      refused, the keywords delete; on success the id is gone from both
      indices; no other document changes. */
  lemma DeleteDocumentFacts(s: Store, refuses: Request -> bool, id: Option<Long>, language: string)
    ensures var e := DeleteDocumentEffect(s, refuses, id, language);
            var p := DocDelete(ProductsPrefix + language, DocIdOf(id));
            var k := DocDelete(KeywordsPrefix + language, DocIdOf(id));
            && (refuses(p) ==> e == Effect(s, [p], Fail(EngineFailure(p.index))))
            && (!refuses(p) ==> e.sent == [p, k] && (e.outcome.Fail? <==> refuses(k)))
            && (e.outcome.Pass? ==> Lookup(e.store, p.index, p.id).None? && Lookup(e.store, k.index, k.id).None?)
            && (forall n, i :: (n != p.index && n != k.index) || i != DocIdOf(id) ==>
                  Lookup(e.store, n, i) == Lookup(s, n, i))
            && forall n, i :: Lookup(s, n, i).None? ==> Lookup(e.store, n, i).None?
  {
    FamiliesDiffer(language, language);
  }

  /** One language of `delete`: `toLowerCase` on the entry, which dereferences
      a null entry, then `deleteDocument`. */
  function DeleteLanguageEffect(s: Store, refuses: Request -> bool, id: Option<Long>, l: Option<string>): (e: Effect)
    ensures l.None? ==> e == Effect(s, [], Fail(NullDereference("language")))
    ensures l.Some? ==> e.sent != [] && e.sent[0] == DocDelete(ProductsPrefix + Lower(l.value), DocIdOf(id))
  {
    if l.None? then Effect(s, [], Fail(NullDereference("language")))
    else DeleteDocumentEffect(s, refuses, id, Lower(l.value))
  }

  function Deleter(refuses: Request -> bool, id: Option<Long>): (Store, Option<string>) -> Effect
  {
    (s: Store, l: Option<string>) => DeleteLanguageEffect(s, refuses, id, l)
  }

  lemma DeleterApplies(refuses: Request -> bool, id: Option<Long>, s: Store, l: Option<string>)
    ensures Deleter(refuses, id)(s, l) == DeleteLanguageEffect(s, refuses, id, l)
  {
  }

  /** `delete(languages, id)`: require a configured client, then a non-null,
      non-empty language list, then delete per language in order, stopping at
      the first failure. */
  function DeleteEffect(s: Store, refuses: Request -> bool, configured: bool,
                        languages: Option<seq<Option<string>>>, id: Option<Long>): (e: Effect)
    ensures !configured ==> e == Effect(s, [], Fail(NotConfigured))
    ensures configured && (languages.None? || languages.value == []) ==> e == Effect(s, [], Fail(Invalid("languages")))
  {
    if !configured then Effect(s, [], Fail(NotConfigured))
    else if languages.None? || languages.value == [] then Effect(s, [], Fail(Invalid("languages")))
    else Chain(s, languages.value, Deleter(refuses, id))
  }

  // ----- Properties of the loops -----

  /** A list entry that `index` accepts: present, with a language. */
  predicate Indexable(item: Option<IndexItem>)
  {
    item.Some? && item.value.language.Some?
  }

  lemma IndexableSnoc(init: seq<Option<IndexItem>>, last: Option<IndexItem>)
    requires forall i :: 0 <= i < |init| ==> Indexable(init[i])
    requires Indexable(last)
    ensures forall i :: 0 <= i < |init + [last]| ==> Indexable((init + [last])[i])
  {
  }

  /** The writes of a list of accepted items: each item's two writes, item by
      item in list order. */
  function WritesOf(items: seq<Option<IndexItem>>): (r: seq<Request>)
    requires forall i :: 0 <= i < |items| ==> Indexable(items[i])
    ensures |r| == 2 * |items|
    decreases |items|
  {
    if items == [] then []
    else
      var init, last := items[..|items| - 1], items[|items| - 1];
      assert Indexable(last) && forall i :: 0 <= i < |init| ==> init[i] == items[i];
      WritesOf(init) + Writes(last.value)
  }

  /** The writes of item `i` sit at positions `2i` and `2i + 1`. */
  lemma {:induction false} WritesOfAt(items: seq<Option<IndexItem>>, i: nat)
    requires forall j :: 0 <= j < |items| ==> Indexable(items[j])
    requires i < |items|
    ensures WritesOf(items)[2 * i] == Writes(items[i].value)[0]
    ensures WritesOf(items)[2 * i + 1] == Writes(items[i].value)[1]
    decreases |items|
  {
    var init := items[..|items| - 1];
    if i < |init| {
      WritesOfAt(init, i);
      assert items[i] == init[i];
    }
  }

  /** A successful `index(list)` accepted every item and sent exactly the
      writes of the items, in list order. */
  lemma {:induction false} IndexAllSendsInOrder(s: Store, refuses: Request -> bool, configured: bool,
                                                items: seq<Option<IndexItem>>)
    ensures var e := IndexAllEffect(s, refuses, configured, Some(items));
            e.outcome.Pass? ==>
              && (forall i :: 0 <= i < |items| ==> Indexable(items[i]))
              && e.sent == WritesOf(items)
    decreases |items|
  {
    if items != [] {
      var init, last := items[..|items| - 1], items[|items| - 1];
      assert items == init + [last];
      IndexAllSendsInOrder(s, refuses, configured, init);
      var p := Chain(s, init, Indexer(refuses, configured));
      var e := IndexAllEffect(s, refuses, configured, Some(items));
      if e.outcome.Pass? {
        var c := IndexEffect(p.store, refuses, configured, last);
        assert e == Then(p, c);
        IndexPassSendsWrites(p.store, refuses, configured, last);
        IndexableSnoc(init, last);
      }
    }
  }

  /** An item that fails aborts the list: the writes of the items before it
      stay, the failing item's own effect is kept, and nothing is sent for
      the items after it. */
  lemma IndexAllStopsAtFailure(s: Store, refuses: Request -> bool, configured: bool,
                               items: seq<Option<IndexItem>>, k: nat)
    requires k < |items|
    requires Chain(s, items[..k], Indexer(refuses, configured)).outcome.Pass?
    requires IndexEffect(Chain(s, items[..k], Indexer(refuses, configured)).store, refuses, configured, items[k]).outcome.Fail?
    ensures var p := Chain(s, items[..k], Indexer(refuses, configured));
            IndexAllEffect(s, refuses, configured, Some(items)) ==
              Then(p, IndexEffect(p.store, refuses, configured, items[k]))
  {
    ChainStopsAtFailure(s, items, k, Indexer(refuses, configured));
  }

  /** Indexing never touches a document whose id is not the id of one of the
      items. */
  lemma {:induction false} IndexAllKeepsOthers(s: Store, refuses: Request -> bool, configured: bool,
                                               items: seq<Option<IndexItem>>, n: string, k: string)
    requires forall i :: 0 <= i < |items| && items[i].Some? ==> DocIdOf(items[i].value.id) != k
    ensures Lookup(IndexAllEffect(s, refuses, configured, Some(items)).store, n, k) == Lookup(s, n, k)
    decreases |items|
  {
    if items != [] {
      var init, last := items[..|items| - 1], items[|items| - 1];
      IndexAllKeepsOthers(s, refuses, configured, init, n, k);
      var p := Chain(s, init, Indexer(refuses, configured));
      if p.outcome.Pass? && configured && last.Some? && last.value.language.Some? {
        IndexWritesBoth(p.store, refuses, last.value);
      }
    }
  }

  /** A successful delete removed the id from both indices of every language,
      lower-cased, and left every other document as it was. */
  lemma {:induction false} DeleteRemovesEverywhere(s: Store, refuses: Request -> bool,
                                                   languages: seq<Option<string>>, id: Option<Long>)
    ensures var e := Chain(s, languages, Deleter(refuses, id));
            && (forall n, k :: k != DocIdOf(id) ==> Lookup(e.store, n, k) == Lookup(s, n, k))
            && (e.outcome.Pass? ==> forall i :: 0 <= i < |languages| ==>
                  && languages[i].Some?
                  && Lookup(e.store, ProductsPrefix + Lower(languages[i].value), DocIdOf(id)).None?
                  && Lookup(e.store, KeywordsPrefix + Lower(languages[i].value), DocIdOf(id)).None?)
    decreases |languages|
  {
    if languages != [] {
      var init, last := languages[..|languages| - 1], languages[|languages| - 1];
      DeleteRemovesEverywhere(s, refuses, init, id);
      var p := Chain(s, init, Deleter(refuses, id));
      var e := Chain(s, languages, Deleter(refuses, id));
      if p.outcome.Pass? {
        var c := DeleteLanguageEffect(p.store, refuses, id, last);
        if last.Some? {
          DeleteDocumentFacts(p.store, refuses, id, Lower(last.value));
        }
        assert e == Then(p, c);
        if e.outcome.Pass? {
          forall i | 0 <= i < |languages|
            ensures && languages[i].Some?
                    && Lookup(e.store, ProductsPrefix + Lower(languages[i].value), DocIdOf(id)).None?
                    && Lookup(e.store, KeywordsPrefix + Lower(languages[i].value), DocIdOf(id)).None?
          {
            if i < |init| {
              assert languages[i] == init[i];
              var l := languages[i].value;
              assert Lookup(p.store, ProductsPrefix + Lower(l), DocIdOf(id)).None?;
              assert Lookup(p.store, KeywordsPrefix + Lower(l), DocIdOf(id)).None?;
            }
          }
        }
      }
    }
  }

  /** A successful delete sent, per language in order, the products delete and
      then the keywords delete. */
  lemma {:induction false} DeleteSendsInOrder(s: Store, refuses: Request -> bool,
                                              languages: seq<Option<string>>, id: Option<Long>)
    ensures var e := Chain(s, languages, Deleter(refuses, id));
            e.outcome.Pass? ==>
              && |e.sent| == 2 * |languages|
              && forall i :: 0 <= i < |languages| ==>
                   && languages[i].Some?
                   && e.sent[2 * i] == DocDelete(ProductsPrefix + Lower(languages[i].value), DocIdOf(id))
                   && e.sent[2 * i + 1] == DocDelete(KeywordsPrefix + Lower(languages[i].value), DocIdOf(id))
    decreases |languages|
  {
    if languages != [] {
      var init, last := languages[..|languages| - 1], languages[|languages| - 1];
      DeleteSendsInOrder(s, refuses, init, id);
      var p := Chain(s, init, Deleter(refuses, id));
      var e := Chain(s, languages, Deleter(refuses, id));
      if e.outcome.Pass? {
        var c := DeleteLanguageEffect(p.store, refuses, id, last);
        assert e == Then(p, c);
        DeleteDocumentFacts(p.store, refuses, id, Lower(last.value));
        assert e.sent == p.sent + c.sent;
        forall i | 0 <= i < |languages|
          ensures && languages[i].Some?
                  && e.sent[2 * i] == DocDelete(ProductsPrefix + Lower(languages[i].value), DocIdOf(id))
                  && e.sent[2 * i + 1] == DocDelete(KeywordsPrefix + Lower(languages[i].value), DocIdOf(id))
        {
          if i < |init| {
            assert languages[i] == init[i];
            assert e.sent[2 * i] == p.sent[2 * i] && e.sent[2 * i + 1] == p.sent[2 * i + 1];
          } else {
            assert e.sent[2 * i] == c.sent[0] && e.sent[2 * i + 1] == c.sent[1];
          }
        }
      }
    }
  }

  lemma DeleteStopsAtFailure(s: Store, refuses: Request -> bool, languages: seq<Option<string>>,
                             id: Option<Long>, k: nat)
    requires k < |languages|
    requires Chain(s, languages[..k], Deleter(refuses, id)).outcome.Pass?
    requires DeleteLanguageEffect(Chain(s, languages[..k], Deleter(refuses, id)).store, refuses, id, languages[k]).outcome.Fail?
    ensures var p := Chain(s, languages[..k], Deleter(refuses, id));
            DeleteEffect(s, refuses, true, Some(languages), id) ==
              Then(p, DeleteLanguageEffect(p.store, refuses, id, languages[k]))
  {
    ChainStopsAtFailure(s, languages, k, Deleter(refuses, id));
  }

  // ----- Index, then delete -----

  /** For a language already in lower case, deleting an item that was just
      indexed removes both of its documents. */
  lemma IndexThenDeleteRemoves(s: Store, refuses: Request -> bool, item: IndexItem)
    requires item.language.Some? && Lower(item.language.value) == item.language.value
    requires IndexEffect(s, refuses, true, Some(item)).outcome.Pass?
    requires DeleteEffect(IndexEffect(s, refuses, true, Some(item)).store, refuses, true,
                          Some([item.language]), item.id).outcome.Pass?
    ensures var e := DeleteEffect(IndexEffect(s, refuses, true, Some(item)).store, refuses, true,
                                  Some([item.language]), item.id);
            && Lookup(e.store, ProductsPrefix + item.language.value, DocIdOf(item.id)).None?
            && Lookup(e.store, KeywordsPrefix + item.language.value, DocIdOf(item.id)).None?
  {
    var s1 := IndexEffect(s, refuses, true, Some(item)).store;
    DeleteRemovesEverywhere(s1, refuses, [item.language], item.id);
    assert [item.language][0] == item.language;
  }

  /** Deleting for one language addresses only that language's two indices. */
  lemma DeleteLanguageFrame(s: Store, refuses: Request -> bool, id: Option<Long>, l: string)
    ensures var e := DeleteLanguageEffect(s, refuses, id, Some(l));
            && (forall i :: 0 <= i < |e.sent| ==>
                  e.sent[i].index == ProductsPrefix + Lower(l) || e.sent[i].index == KeywordsPrefix + Lower(l))
            && forall n, k :: n != ProductsPrefix + Lower(l) && n != KeywordsPrefix + Lower(l) ==>
                 Lookup(e.store, n, k) == Lookup(s, n, k)
  {
    DeleteDocumentFacts(s, refuses, id, Lower(l));
  }

  /** A delete for a single language is that language's `deleteDocument`. */
  lemma DeleteOneLanguage(s: Store, refuses: Request -> bool, l: string, id: Option<Long>)
    ensures DeleteEffect(s, refuses, true, Some([Some(l)]), id) == DeleteLanguageEffect(s, refuses, id, Some(l))
  {
    var xs := [Some(l)];
    assert xs[..0] == [];
    ChainExtends(s, xs, 0, Deleter(refuses, id));
    DeleterApplies(refuses, id, s, Some(l));
    var d := DeleteLanguageEffect(s, refuses, id, Some(l));
    assert [] + d.sent == d.sent;
    assert xs[..1] == xs;
  }

  /** `index` keeps the language's case and `delete` lower-cases it. On an
      engine that accepted the upper-case index names, an item indexed under a
      language with an upper-case letter, such as "EN", would survive a delete
      for that same language: the delete addresses `products_en` and
      `keywords_en`, the documents live in `products_EN` and `keywords_EN`. */
  lemma CaseMismatchKeepsDocument(s: Store, refuses: Request -> bool, item: IndexItem)
    requires item.language.Some? && Lower(item.language.value) != item.language.value
    requires IndexEffect(s, refuses, true, Some(item)).outcome.Pass?
    ensures var l := item.language.value;
            var s1 := IndexEffect(s, refuses, true, Some(item)).store;
            var e := DeleteEffect(s1, refuses, true, Some([Some(l)]), item.id);
            && (forall i :: 0 <= i < |e.sent| ==>
                  e.sent[i].index == ProductsPrefix + Lower(l) || e.sent[i].index == KeywordsPrefix + Lower(l))
            && Lookup(e.store, ProductsPrefix + l, DocIdOf(item.id)) == Some(ProductSource(item))
            && Lookup(e.store, KeywordsPrefix + l, DocIdOf(item.id)) == Some(KeywordDoc(item))
  {
    var l := item.language.value;
    var s1 := IndexEffect(s, refuses, true, Some(item)).store;
    IndexWritesBoth(s, refuses, item);
    DeleteOneLanguage(s1, refuses, l, item.id);
    DeleteLanguageFrame(s1, refuses, item.id, l);
    FamiliesDiffer(l, Lower(l));
    FamiliesDiffer(Lower(l), l);
    assert ProductsPrefix + l != ProductsPrefix + Lower(l) by {
      assert (ProductsPrefix + l)[|ProductsPrefix|..] == l;
      assert (ProductsPrefix + Lower(l))[|ProductsPrefix|..] == Lower(l);
    }
    assert KeywordsPrefix + l != KeywordsPrefix + Lower(l) by {
      assert (KeywordsPrefix + l)[|KeywordsPrefix|..] == l;
      assert (KeywordsPrefix + Lower(l))[|KeywordsPrefix|..] == Lower(l);
    }
  }

  /** An engine that refuses every request addressed to an index name with an
      upper-case letter, as OpenSearch does. */
  ghost predicate RejectsUpperCaseNames(refuses: Request -> bool)
  {
    forall r: Request :: Lower(r.index) != r.index ==> refuses(r)
  }

  /** On such an engine `index` fails for a language with an upper-case
      letter: the first write, to `products_` plus the language as given, is
      refused, and nothing changes. Provisioning and `delete` only address the
      lower-cased indices. */
  lemma UpperCaseIndexFails(s: Store, refuses: Request -> bool, item: IndexItem)
    requires item.language.Some? && Lower(item.language.value) != item.language.value
    requires RejectsUpperCaseNames(refuses)
    ensures var w := Writes(item);
            IndexEffect(s, refuses, true, Some(item)) ==
              Effect(s, [w[0]], Fail(EngineFailure(ProductsPrefix + item.language.value)))
  {
    var w := Writes(item);
    if Lower(w[0].index) == w[0].index {
      LowerFixesSuffix(ProductsPrefix, item.language.value);
      assert false;
    }
  }

  /** A witness that the premise above can hold: "EN" is such a language. */
  lemma UpperCaseLanguage()
    ensures Lower("EN") == "en" && "en" != "EN"
  {
  }
}
