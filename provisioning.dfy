/** The connection singleton and per-language index provisioning: for every
    configured language, a products index and a keywords index are created
    when absent, all products indices before any keywords index. */
module Provisioning {
  import opened Wrappers
  import opened JavaText
  import opened Catalog
  import opened Engine

  const ProductsPrefix := "products_"
  const KeywordsPrefix := "keywords_"
  const DefaultLanguage := "en"

  /** The languages provisioned: the configured ones, in order, or the single
      default language when none is configured. */
  function IndexLanguages(languages: seq<string>): (r: seq<string>)
    ensures |r| > 0
    ensures languages == [] ==> r == [DefaultLanguage]
    ensures languages != [] ==> r == languages
  {
    if languages == [] then [DefaultLanguage] else languages
  }

  // ----- One index creation -----

  /** One `createIndex` call: the index family's prefix, the language as
      configured, and that language's schema payloads (null when missing). */
  datatype Step = Step(prefix: string, language: string, mapping: Option<string>, settings: Option<string>)

  /** The index a step targets: the prefix and the lower-cased language. */
  function IndexName(st: Step): string
  {
    st.prefix + Lower(st.language)
  }

  /** What one `createIndex` does: probe for the index; if it is absent, send
      one creation with the step's settings and mapping. A missing payload
      fails before anything is created. */
  function CreateEffect(s: Store, refuses: Request -> bool, st: Step): (e: Effect)
    ensures |e.sent| > 0 && e.sent[0] == IndexExists(IndexName(st))
    ensures e.outcome.Pass? ==> IndexName(st) in e.store
  {
    var name := IndexName(st);
    var probe := IndexExists(name);
    if refuses(probe) then Effect(s, [probe], Fail(EngineFailure(name)))
    else if name in s then Effect(s, [probe], Pass)
    else if st.settings.None? || st.mapping.None? then Effect(s, [probe], Fail(MissingSchema(name)))
    else
      var create := IndexCreate(name, st.settings.value, st.mapping.value);
      if refuses(create) then Effect(s, [probe, create], Fail(EngineFailure(name)))
      else Effect(AfterCreate(s, name), [probe, create], Pass)
  }

  function Creator(refuses: Request -> bool): (Store, Step) -> Effect
  {
    (s: Store, st: Step) => CreateEffect(s, refuses, st)
  }

  lemma CreatorApplies(refuses: Request -> bool, s: Store, st: Step)
    ensures Creator(refuses)(s, st) == CreateEffect(s, refuses, st)
  {
  }

  /** A fail-fast sequence of `createIndex` calls. */
  function Run(s: Store, refuses: Request -> bool, steps: seq<Step>): Effect
  {
    Chain(s, steps, Creator(refuses))
  }

  // ----- The provisioning plan -----

  /** The steps of one `forEach` loop: one step per language, in order, with
      that language's mapping from `mappings` and its settings. */
  function FamilySteps(prefix: string, mappings: map<string, string>, settings: map<string, string>,
                       langs: seq<string>): (r: seq<Step>)
    ensures |r| == |langs|
    ensures forall i :: 0 <= i < |langs| ==>
      r[i] == Step(prefix, langs[i], Get(mappings, langs[i]), Get(settings, langs[i]))
  {
    seq(|langs|, i requires 0 <= i < |langs| =>
      Step(prefix, langs[i], Get(mappings, langs[i]), Get(settings, langs[i])))
  }

  function ProductSteps(config: SearchConfiguration, langs: seq<string>): seq<Step>
  {
    FamilySteps(ProductsPrefix, config.productMappings, config.settings, langs)
  }

  function KeywordSteps(config: SearchConfiguration, langs: seq<string>): seq<Step>
  {
    FamilySteps(KeywordsPrefix, config.keywordsMappings, config.settings, langs)
  }

  /** Both loops of the constructor: every products step, then every keywords step. */
  function ProvisionSteps(config: SearchConfiguration): (r: seq<Step>)
    ensures var langs := IndexLanguages(config.languages);
            && |r| == 2 * |langs|
            && forall i :: 0 <= i < |langs| ==>
                 && r[i] == Step(ProductsPrefix, langs[i], Get(config.productMappings, langs[i]), Get(config.settings, langs[i]))
                 && r[|langs| + i] == Step(KeywordsPrefix, langs[i], Get(config.keywordsMappings, langs[i]),
                                           Get(config.settings, langs[i]))
  {
    var langs := IndexLanguages(config.languages);
    ProductSteps(config, langs) + KeywordSteps(config, langs)
  }

  /** The effect of provisioning with `config` on the store `s`. */
  function ProvisionEffect(s: Store, refuses: Request -> bool, config: SearchConfiguration): (e: Effect)
    ensures e.sent != [] && e.sent[0] == IndexExists(ProductsPrefix + Lower(IndexLanguages(config.languages)[0]))
  {
    var steps := ProvisionSteps(config);
    ChainFirst(s, steps, Creator(refuses));
    CreatorApplies(refuses, s, steps[0]);
    Run(s, refuses, steps)
  }

  function Names(steps: seq<Step>): set<string>
  {
    set st | st in steps :: IndexName(st)
  }

  /** `r` is one of the two requests that `st` may send. */
  predicate FromStep(r: Request, st: Step)
  {
    || r == IndexExists(IndexName(st))
    || (st.settings.Some? && st.mapping.Some? && r == IndexCreate(IndexName(st), st.settings.value, st.mapping.value))
  }

  predicate HasPrefix(name: string, prefix: string)
  {
    |prefix| <= |name| && name[..|prefix|] == prefix
  }

  // ----- Properties of a sequence of creations -----

  lemma RunUnfolds(s: Store, refuses: Request -> bool, steps: seq<Step>)
    requires steps != []
    ensures var p := Run(s, refuses, steps[..|steps| - 1]);
            Run(s, refuses, steps) ==
              if p.outcome.Fail? then p else Then(p, CreateEffect(p.store, refuses, steps[|steps| - 1]))
  {
  }

  /** Provisioning never touches an index that already exists, and every index
      it adds is one of its targets and starts empty. */
  lemma {:induction false} RunKeepsExisting(s: Store, refuses: Request -> bool, steps: seq<Step>)
    ensures var e := Run(s, refuses, steps);
            && (forall n :: n in s ==> n in e.store && e.store[n] == s[n])
            && (forall n :: n in e.store && n !in s ==> n in Names(steps) && e.store[n] == map[])
    decreases |steps|
  {
    if steps != [] {
      var init, last := steps[..|steps| - 1], steps[|steps| - 1];
      RunKeepsExisting(s, refuses, init);
      RunUnfolds(s, refuses, steps);
      var p := Run(s, refuses, init);
      if p.outcome.Pass? {
        CreateKeepsExisting(p.store, refuses, last);
      }
      assert forall st :: st in init ==> st in steps;
      assert last in steps;
    }
  }

  /** One step keeps every index it finds and adds at most its own, empty. */
  lemma CreateKeepsExisting(s: Store, refuses: Request -> bool, st: Step)
    ensures var e := CreateEffect(s, refuses, st);
            && (forall n :: n in s ==> n in e.store && e.store[n] == s[n])
            && (forall n :: n in e.store && n !in s ==> n == IndexName(st) && e.store[n] == map[])
  {
  }

  /** Every request sent is the existence probe or the creation of one of the
      steps, with that step's own settings and mapping. */
  lemma {:induction false} RunSendsStepRequests(s: Store, refuses: Request -> bool, steps: seq<Step>)
    ensures var e := Run(s, refuses, steps);
            forall i :: 0 <= i < |e.sent| ==> exists k :: 0 <= k < |steps| && FromStep(e.sent[i], steps[k])
    decreases |steps|
  {
    if steps != [] {
      var init, last := steps[..|steps| - 1], steps[|steps| - 1];
      RunSendsStepRequests(s, refuses, init);
      RunUnfolds(s, refuses, steps);
      var p := Run(s, refuses, init);
      if p.outcome.Pass? {
        var c := CreateEffect(p.store, refuses, last);
        var e := Then(p, c);
        forall i | 0 <= i < |e.sent|
          ensures exists k :: 0 <= k < |steps| && FromStep(e.sent[i], steps[k])
        {
          if i < |p.sent| {
            var k :| 0 <= k < |init| && FromStep(p.sent[i], init[k]);
            assert init[k] == steps[k];
          } else {
            assert e.sent[i] == c.sent[i - |p.sent|];
            assert FromStep(e.sent[i], steps[|steps| - 1]);
          }
        }
      }
    }
  }

  /** An index is created only when it was missing, and never twice. */
  lemma {:induction false} RunCreatesOnlyMissing(s: Store, refuses: Request -> bool, steps: seq<Step>)
    ensures var e := Run(s, refuses, steps);
            && (forall i :: 0 <= i < |e.sent| && e.sent[i].IndexCreate? ==> e.sent[i].index !in s)
            && (forall i, j :: 0 <= i < j < |e.sent| && e.sent[i].IndexCreate? && e.sent[j].IndexCreate? ==>
                  e.sent[i].index != e.sent[j].index)
            && (e.outcome.Pass? ==>
                  forall i :: 0 <= i < |e.sent| && e.sent[i].IndexCreate? ==> e.sent[i].index in e.store)
    decreases |steps|
  {
    if steps != [] {
      var init, last := steps[..|steps| - 1], steps[|steps| - 1];
      RunCreatesOnlyMissing(s, refuses, init);
      RunKeepsExisting(s, refuses, init);
      RunUnfolds(s, refuses, steps);
      var p := Run(s, refuses, init);
      if p.outcome.Pass? {
        var c := CreateEffect(p.store, refuses, last);
        var e := Then(p, c);
        CreateSendsOneCreate(p.store, refuses, last);
        assert forall k :: 0 <= k < |c.sent| ==> e.sent[|p.sent| + k] == c.sent[k];
        assert forall k :: 0 <= k < |p.sent| ==> e.sent[k] == p.sent[k];
      }
    }
  }

  /** One `createIndex` sends at most one create, second, for its own missing
      target, and removes no index. */
  lemma CreateSendsOneCreate(s: Store, refuses: Request -> bool, st: Step)
    ensures var c := CreateEffect(s, refuses, st);
            && (forall k :: 0 <= k < |c.sent| && c.sent[k].IndexCreate? ==>
                  k == 1 && c.sent[k].index == IndexName(st) && IndexName(st) !in s)
            && s.Keys <= c.store.Keys
  {
  }

  /** Once a run has succeeded, every target index exists. */
  lemma {:induction false} RunCovers(s: Store, refuses: Request -> bool, steps: seq<Step>)
    ensures var e := Run(s, refuses, steps);
            e.outcome.Pass? ==> forall st :: st in steps ==> IndexName(st) in e.store
    decreases |steps|
  {
    if steps != [] {
      var init, last := steps[..|steps| - 1], steps[|steps| - 1];
      RunCovers(s, refuses, init);
      RunUnfolds(s, refuses, steps);
      var p := Run(s, refuses, init);
      if p.outcome.Pass? {
        var c := CreateEffect(p.store, refuses, last);
        assert p.store.Keys <= c.store.Keys;
        assert forall st :: st in steps ==> st in init || st == last;
      }
    }
  }

  /** When every target already exists, a run creates nothing and leaves the
      store as it was. */
  lemma RunIsIdempotent(s: Store, refuses: Request -> bool, steps: seq<Step>)
    requires forall st :: st in steps ==> IndexName(st) in s
    ensures var e := Run(s, refuses, steps);
            e.store == s && forall i :: 0 <= i < |e.sent| ==> !e.sent[i].IndexCreate?
  {
    var e := Run(s, refuses, steps);
    RunKeepsExisting(s, refuses, steps);
    RunSendsStepRequests(s, refuses, steps);
    RunCreatesOnlyMissing(s, refuses, steps);
    forall i | 0 <= i < |e.sent|
      ensures !e.sent[i].IndexCreate?
    {
      var k :| 0 <= k < |steps| && FromStep(e.sent[i], steps[k]);
      assert steps[k] in steps && e.sent[i].index == IndexName(steps[k]);
    }
    assert e.store.Keys == s.Keys;
  }

  // ----- Properties of the provisioning plan -----

  lemma ProvisionStepShape(config: SearchConfiguration, st: Step)
    requires st in ProvisionSteps(config)
    ensures exists l :: (l in IndexLanguages(config.languages) &&
      (|| st == Step(ProductsPrefix, l, Get(config.productMappings, l), Get(config.settings, l))
       || st == Step(KeywordsPrefix, l, Get(config.keywordsMappings, l), Get(config.settings, l))))
  {
    var langs := IndexLanguages(config.languages);
    var steps := ProvisionSteps(config);
    var i :| 0 <= i < |steps| && steps[i] == st;
    if i < |langs| {
      assert langs[i] in langs;
    } else {
      assert langs[i - |langs|] in langs;
    }
  }

  /** The request `r` belongs to provisioning language `l`: a probe of one of
      its two indices, or a creation of one of them with `l`'s own payloads. */
  predicate ProvisionRequestFor(r: Request, config: SearchConfiguration, l: string)
  {
    || r == IndexExists(ProductsPrefix + Lower(l))
    || r == IndexExists(KeywordsPrefix + Lower(l))
    || (&& l in config.settings && l in config.productMappings
        && r == IndexCreate(ProductsPrefix + Lower(l), config.settings[l], config.productMappings[l]))
    || (&& l in config.settings && l in config.keywordsMappings
        && r == IndexCreate(KeywordsPrefix + Lower(l), config.settings[l], config.keywordsMappings[l]))
  }

  predicate ProvisionRequest(r: Request, config: SearchConfiguration)
  {
    exists l :: l in IndexLanguages(config.languages) && ProvisionRequestFor(r, config, l)
  }

  /** Provisioning sends, for languages of the plan only, existence probes and
      creations of `products_<lower(l)>` with `settings[l]` and
      `productMappings[l]`, or of `keywords_<lower(l)>` with `settings[l]` and
      `keywordsMappings[l]`; the payload lookups use the language as configured. */
  lemma ProvisionRequests(s: Store, refuses: Request -> bool, config: SearchConfiguration)
    ensures var e := ProvisionEffect(s, refuses, config);
            forall i :: 0 <= i < |e.sent| ==> ProvisionRequest(e.sent[i], config)
  {
    var steps := ProvisionSteps(config);
    var e := ProvisionEffect(s, refuses, config);
    RunSendsStepRequests(s, refuses, steps);
    forall i | 0 <= i < |e.sent|
      ensures ProvisionRequest(e.sent[i], config)
    {
      var k :| 0 <= k < |steps| && FromStep(e.sent[i], steps[k]);
      StepRequestBelongs(config, k, e.sent[i]);
    }
  }

  lemma StepRequestBelongs(config: SearchConfiguration, k: nat, r: Request)
    requires k < |ProvisionSteps(config)| && FromStep(r, ProvisionSteps(config)[k])
    ensures ProvisionRequest(r, config)
  {
    var langs := IndexLanguages(config.languages);
    var steps := ProvisionSteps(config);
    if k < |langs| {
      assert steps[k] == Step(ProductsPrefix, langs[k], Get(config.productMappings, langs[k]), Get(config.settings, langs[k]));
      assert ProvisionRequestFor(r, config, langs[k]);
    } else {
      var l := langs[k - |langs|];
      assert steps[k] == Step(KeywordsPrefix, l, Get(config.keywordsMappings, l), Get(config.settings, l));
      assert ProvisionRequestFor(r, config, l);
    }
  }

  /** A successful provisioning leaves `products_<lower(l)>` and
      `keywords_<lower(l)>` in place for every language of the plan; the
      indices it adds are exactly of that form and empty, and existing indices
      are untouched. */
  lemma ProvisionCovers(s: Store, refuses: Request -> bool, config: SearchConfiguration)
    ensures var e := ProvisionEffect(s, refuses, config);
            && (e.outcome.Pass? ==> forall l :: l in IndexLanguages(config.languages) ==>
                  ProductsPrefix + Lower(l) in e.store && KeywordsPrefix + Lower(l) in e.store)
            && (forall n :: n in s ==> n in e.store && e.store[n] == s[n])
            && (forall n :: n in e.store && n !in s ==>
                  && e.store[n] == map[]
                  && exists l :: l in IndexLanguages(config.languages) &&
                       (n == ProductsPrefix + Lower(l) || n == KeywordsPrefix + Lower(l)))
  {
    var langs := IndexLanguages(config.languages);
    var steps := ProvisionSteps(config);
    var e := ProvisionEffect(s, refuses, config);
    RunCovers(s, refuses, steps);
    RunKeepsExisting(s, refuses, steps);
    if e.outcome.Pass? {
      forall l | l in langs
        ensures ProductsPrefix + Lower(l) in e.store && KeywordsPrefix + Lower(l) in e.store
      {
        var i :| 0 <= i < |langs| && langs[i] == l;
        assert steps[i] in steps && IndexName(steps[i]) == ProductsPrefix + Lower(l);
        assert steps[|langs| + i] in steps && IndexName(steps[|langs| + i]) == KeywordsPrefix + Lower(l);
      }
    }
    forall n | n in e.store && n !in s
      ensures exists l :: l in langs && (n == ProductsPrefix + Lower(l) || n == KeywordsPrefix + Lower(l))
    {
      var st :| st in steps && IndexName(st) == n;
      ProvisionStepShape(config, st);
    }
  }

  /** Provisioning on a store where every target index exists creates nothing
      and changes nothing. */
  lemma ProvisionIsIdempotent(s: Store, refuses: Request -> bool, config: SearchConfiguration)
    requires forall l :: l in IndexLanguages(config.languages) ==>
      ProductsPrefix + Lower(l) in s && KeywordsPrefix + Lower(l) in s
    ensures var e := ProvisionEffect(s, refuses, config);
            e.store == s && forall i :: 0 <= i < |e.sent| ==> !e.sent[i].IndexCreate?
  {
    forall st | st in ProvisionSteps(config)
      ensures IndexName(st) in s
    {
      ProvisionStepShape(config, st);
    }
    RunIsIdempotent(s, refuses, ProvisionSteps(config));
  }

  /** Provisioning again after a successful provisioning creates nothing. */
  lemma ProvisionTwiceCreatesNothing(s: Store, refuses: Request -> bool, config: SearchConfiguration)
    requires ProvisionEffect(s, refuses, config).outcome.Pass?
    ensures var e1 := ProvisionEffect(s, refuses, config);
            var e2 := ProvisionEffect(e1.store, refuses, config);
            e2.store == e1.store && forall i :: 0 <= i < |e2.sent| ==> !e2.sent[i].IndexCreate?
  {
    ProvisionCovers(s, refuses, config);
    ProvisionIsIdempotent(ProvisionEffect(s, refuses, config).store, refuses, config);
  }

  lemma PrefixesExclude(n: string)
    ensures !(HasPrefix(n, ProductsPrefix) && HasPrefix(n, KeywordsPrefix))
  {
    if HasPrefix(n, ProductsPrefix) {
      assert n[0] == 'p';
    }
  }

  /** A products index and a keywords index never share a name. */
  lemma FamiliesDiffer(a: string, b: string)
    ensures ProductsPrefix + a != KeywordsPrefix + b
  {
    assert (ProductsPrefix + a)[0] != (KeywordsPrefix + b)[0];
  }

  /** A run over steps of one index family only addresses that family. */
  lemma RunStaysInFamily(s: Store, refuses: Request -> bool, steps: seq<Step>, prefix: string)
    requires forall k :: 0 <= k < |steps| ==> steps[k].prefix == prefix
    ensures var e := Run(s, refuses, steps);
            forall i :: 0 <= i < |e.sent| ==> HasPrefix(e.sent[i].index, prefix)
  {
    var e := Run(s, refuses, steps);
    RunSendsStepRequests(s, refuses, steps);
    forall i | 0 <= i < |e.sent|
      ensures HasPrefix(e.sent[i].index, prefix)
    {
      var k :| 0 <= k < |steps| && FromStep(e.sent[i], steps[k]);
      assert e.sent[i].index == prefix + Lower(steps[k].language);
    }
  }

  /** Every request about a products index is sent before every request about
      a keywords index. */
  lemma ProductsBeforeKeywords(s: Store, refuses: Request -> bool, config: SearchConfiguration)
    ensures var e := ProvisionEffect(s, refuses, config);
            forall i, j :: 0 <= i < j < |e.sent| && HasPrefix(e.sent[i].index, KeywordsPrefix) ==>
              !HasPrefix(e.sent[j].index, ProductsPrefix)
  {
    var langs := IndexLanguages(config.languages);
    var ps, ks := ProductSteps(config, langs), KeywordSteps(config, langs);
    var e := ProvisionEffect(s, refuses, config);
    var p := Run(s, refuses, ps);
    ChainAppend(s, ps, ks, Creator(refuses));
    RunStaysInFamily(s, refuses, ps, ProductsPrefix);
    if p.outcome.Pass? {
      var q := Run(p.store, refuses, ks);
      RunStaysInFamily(p.store, refuses, ks, KeywordsPrefix);
      assert e.sent == p.sent + q.sent;
      FamiliesInOrder(p.sent, q.sent);
    } else {
      assert e.sent == p.sent + [];
      FamiliesInOrder(p.sent, []);
    }
  }

  /** Products requests followed by keywords requests: no products request
      comes after a keywords request. */
  lemma FamiliesInOrder(a: seq<Request>, b: seq<Request>)
    requires forall i :: 0 <= i < |a| ==> HasPrefix(a[i].index, ProductsPrefix)
    requires forall i :: 0 <= i < |b| ==> HasPrefix(b[i].index, KeywordsPrefix)
    ensures forall i, j :: 0 <= i < j < |a + b| && HasPrefix((a + b)[i].index, KeywordsPrefix) ==>
              !HasPrefix((a + b)[j].index, ProductsPrefix)
  {
    var e := a + b;
    forall i, j | 0 <= i < j < |e| && HasPrefix(e[i].index, KeywordsPrefix)
      ensures !HasPrefix(e[j].index, ProductsPrefix)
    {
      if i < |a| {
        PrefixesExclude(a[i].index);
      }
      PrefixesExclude(b[j - |a|].index);
    }
  }

  /** A failing creation ends provisioning: what the earlier steps did stays,
      and no request is sent for any later step. */
  lemma ProvisionStopsAtFailure(s: Store, refuses: Request -> bool, config: SearchConfiguration, k: nat)
    requires k < |ProvisionSteps(config)|
    requires Run(s, refuses, ProvisionSteps(config)[..k]).outcome.Pass?
    requires CreateEffect(Run(s, refuses, ProvisionSteps(config)[..k]).store, refuses, ProvisionSteps(config)[k]).outcome.Fail?
    ensures var steps := ProvisionSteps(config);
            var p := Run(s, refuses, steps[..k]);
            ProvisionEffect(s, refuses, config) == Then(p, CreateEffect(p.store, refuses, steps[k]))
  {
    ChainStopsAtFailure(s, ProvisionSteps(config), k, Creator(refuses));
  }

  /** Provisioning is the products loop, followed by the keywords loop when
      the products loop succeeded. */
  lemma ProvisionSplits(s: Store, refuses: Request -> bool, config: SearchConfiguration)
    ensures var langs := IndexLanguages(config.languages);
            var p := Run(s, refuses, ProductSteps(config, langs));
            ProvisionEffect(s, refuses, config) ==
              if p.outcome.Fail? then p else Then(p, Run(p.store, refuses, KeywordSteps(config, langs)))
  {
    var langs := IndexLanguages(config.languages);
    ChainAppend(s, ProductSteps(config, langs), KeywordSteps(config, langs), Creator(refuses));
  }

  // ----- The client -----

  /** One connection to the engine, built once; building it provisions the
      indices. */
  class SearchClient {
    const connection: Cluster

    constructor (connection: Cluster)
      ensures this.connection == connection
    {
      this.connection := connection;
    }

    /** The private constructor: reject a null configuration, connect, then
        provision. A failure leaves the created indices in place and yields
        no client. */
    static method Create(config: Option<SearchConfiguration>, cluster: Cluster) returns (r: Result<SearchClient, Error>)
      modifies cluster
      ensures config.None? ==> r == Failure(Invalid("configuration")) && unchanged(cluster)
      ensures config.Some? ==>
        var e := ProvisionEffect(old(cluster.store), cluster.refuses, config.value);
        && cluster.store == e.store && cluster.log == old(cluster.log) + e.sent
        && (e.outcome.Pass? ==> r.Success? && fresh(r.value) && r.value.connection == cluster)
        && (e.outcome.Fail? ==> r == Failure(e.outcome.error))
    {
      if config.None? {
        return Failure(Invalid("configuration"));
      }
      var c := new SearchClient(cluster);
      var o := c.Provision(config.value);
      if o.Fail? {
        return Failure(o.error);
      }
      r := Success(c);
    }

    /** The two `forEach` loops of the constructor: all products indices,
        then all keywords indices. */
    method Provision(config: SearchConfiguration) returns (o: Outcome<Error>)
      modifies connection
      ensures var e := ProvisionEffect(old(connection.store), connection.refuses, config);
              connection.store == e.store && connection.log == old(connection.log) + e.sent && o == e.outcome
    {
      var langs := IndexLanguages(config.languages);
      ProvisionSplits(connection.store, connection.refuses, config);
      o := CreateFamily(ProductsPrefix, config.productMappings, config.settings, langs);
      if o.Fail? {
        return;
      }
      o := CreateFamily(KeywordsPrefix, config.keywordsMappings, config.settings, langs);
    }

    /** One `forEach` loop: `createIndex` for each language in order; the
        first exception propagates. */
    method CreateFamily(prefix: string, mappings: map<string, string>, settings: map<string, string>,
                        langs: seq<string>) returns (o: Outcome<Error>)
      modifies connection
      ensures var e := Run(old(connection.store), connection.refuses, FamilySteps(prefix, mappings, settings, langs));
              connection.store == e.store && connection.log == old(connection.log) + e.sent && o == e.outcome
    {
      ghost var s0, log0 := connection.store, connection.log;
      ghost var refuses := connection.refuses;
      ghost var steps := FamilySteps(prefix, mappings, settings, langs);
      ghost var done := Effect(s0, [], Pass);
      assert steps[..0] == [];
      var i := 0;
      while i < |langs|
        invariant 0 <= i <= |langs|
        invariant done == Run(s0, refuses, steps[..i]) && done.outcome.Pass?
        invariant connection.store == done.store && connection.log == log0 + done.sent
      {
        var l := langs[i];
        ghost var next := CreateEffect(done.store, refuses, steps[i]);
        CreatorApplies(refuses, done.store, steps[i]);
        o := CreateIndex(prefix, Get(mappings, l), Get(settings, l), l);
        ChainStep(s0, steps, i, Creator(refuses), next);
        LogGrows(connection.log, log0, done, next);
        done := Then(done, next);
        if o.Fail? {
          return;
        }
        i := i + 1;
      }
      assert steps[..i] == steps;
      o := Pass;
    }

    /** `createIndex`: probe, then create with the settings and mapping when
        absent. A negative acknowledgement is only reported, never an error. */
    method CreateIndex(prefix: string, mapping: Option<string>, settings: Option<string>, language: string)
      returns (o: Outcome<Error>)
      modifies connection
      ensures var e := CreateEffect(old(connection.store), connection.refuses, Step(prefix, language, mapping, settings));
              connection.store == e.store && connection.log == old(connection.log) + e.sent && o == e.outcome
    {
      var name := prefix + Lower(language);
      var probed, present := connection.Exists(name);
      if !probed {
        return Fail(EngineFailure(name));
      }
      if present {
        return Pass;
      }
      if settings.None? || mapping.None? {
        return Fail(MissingSchema(name));
      }
      var created, acknowledged := connection.Create(name, settings.value, mapping.value);
      if !created {
        return Fail(EngineFailure(name));
      }
      o := Pass;
    }
  }

  /** The process-wide state behind `getInstance`: the static client field,
      and the engine every connection reaches. */
  class Registry {
    const cluster: Cluster
    var client: SearchClient?

    ghost predicate Valid()
      reads this
    {
      client != null ==> client.connection == cluster
    }

    constructor (cluster: Cluster)
      ensures Valid() && this.cluster == cluster && client == null
    {
      this.cluster := cluster;
      client := null;
    }

    /** Builds the client on the first successful call; every later call
        returns that same client whatever configuration it is given, even a
        null one, and touches nothing. A failed build leaves the field null,
        so the next call builds again. */
    method GetInstance(config: Option<SearchConfiguration>) returns (r: Result<SearchClient, Error>)
      requires Valid()
      modifies this`client, cluster
      ensures Valid()
      ensures old(client) != null ==>
        r.Success? && r.value == old(client) && client == old(client) && unchanged(cluster)
      ensures old(client) == null && config.None? ==>
        r == Failure(Invalid("configuration")) && client == null && unchanged(cluster)
      ensures old(client) == null && config.Some? ==>
        var e := ProvisionEffect(old(cluster.store), cluster.refuses, config.value);
        && cluster.store == e.store && cluster.log == old(cluster.log) + e.sent
        && (e.outcome.Pass? ==> r.Success? && client == r.value && fresh(r.value))
        && (e.outcome.Fail? ==> r == Failure(e.outcome.error) && client == null)
    {
      if client == null {
        r := SearchClient.Create(config, cluster);
        if r.Success? {
          client := r.value;
        }
      } else {
        r := Success(client);
      }
    }
  }
}
