/** The external search engine, seen only through the requests the gateway
    sends it: an abstract document store (index name -> document id ->
    document), a log of every request sent, and fixed answers for what the
    gateway cannot see (which requests fail, whether a creation is
    acknowledged, what a search returns). */
module Engine {
  import opened Wrappers
  import opened Catalog

  // ----- Values exchanged with the engine -----

  /** The query DSL subset the gateway builds. */
  datatype Query =
    | MultiMatch(text: string, fields: seq<string>)
    | Term(field: string, value: string)
    | Nested(path: string, query: Query)          // score mode "none"
    | Bool(must: seq<Query>, filters: seq<Query>)

  /** A terms aggregation; the builder starts without a field. */
  datatype TermsAgg = TermsAgg(name: string, field: Option<string>)

  /** The source of a search request: no query means the engine's match-all. */
  datatype SearchBody = SearchBody(query: Option<Query>, aggregation: Option<TermsAgg>)

  /** A stored document: a product source (the item flattened field by field)
      or an explicit field map. */
  datatype Doc =
    | ProductSource(item: IndexItem)
    | Fields(fields: map<string, Option<string>>)

  datatype Hit = Hit(id: string, source: Doc)
  datatype Bucket = Bucket(key: string, docCount: int)

  /** What a search returns: a status, the total hit count, the hits in rank
      order, and the aggregation results by name (absent when the response
      carries no aggregations section). */
  datatype SearchReply = SearchReply(
    status: int,
    totalHits: int,
    hits: seq<Hit>,
    aggregations: Option<map<string, seq<Bucket>>>)

  /** Every request the gateway can send; each is addressed to one index. */
  datatype Request =
    | IndexExists(index: string)
    | IndexCreate(index: string, settings: string, mapping: string)
    | DocIndex(index: string, id: string, source: Doc)
    | DocDelete(index: string, id: string)
    | SearchIn(index: string, body: SearchBody)

  // ----- The document store and its updates -----

  type Store = map<string, map<string, Doc>>

  function Lookup(s: Store, index: string, id: string): (r: Option<Doc>)
    ensures r.Some? <==> index in s && id in s[index]
  {
    if index in s && id in s[index] then Some(s[index][id]) else None
  }

  /** A new, empty index. */
  function AfterCreate(s: Store, index: string): Store
  {
    s[index := map[]]
  }

  /** A document write; an index that does not exist yet is created on the fly. */
  function AfterWrite(s: Store, index: string, id: string, doc: Doc): (r: Store)
    ensures r.Keys == s.Keys + {index}
    ensures Lookup(r, index, id) == Some(doc)
    ensures forall n, k :: (n != index || k != id) ==> Lookup(r, n, k) == Lookup(s, n, k)
  {
    s[index := (if index in s then s[index] else map[])[id := doc]]
  }

  /** A document delete; deleting an absent document changes nothing. */
  function AfterDelete(s: Store, index: string, id: string): (r: Store)
    ensures r.Keys == s.Keys
    ensures Lookup(r, index, id).None?
    ensures forall n, k :: (n != index || k != id) ==> Lookup(r, n, k) == Lookup(s, n, k)
  {
    if index in s then s[index := s[index] - {id}] else s
  }

  // ----- Effects of a sequence of requests -----

  /** What one gateway operation did to the engine: the store after it, the
      requests it sent in order, and how it ended. */
  datatype Effect = Effect(store: Store, sent: seq<Request>, outcome: Outcome<Error>)

  /** `prev` followed by `next`, where `next` started from `prev`'s store. */
  function Then(prev: Effect, next: Effect): Effect
  {
    Effect(next.store, prev.sent + next.sent, next.outcome)
  }

  /** A fail-fast loop (`forEach` whose body rethrows): apply `step` to each
      element in order, starting each from the previous store, and stop at the
      first failure. */
  function Chain<T>(s: Store, xs: seq<T>, step: (Store, T) -> Effect): (r: Effect)
    ensures xs == [] ==> r == Effect(s, [], Pass)
    decreases |xs|
  {
    if xs == [] then Effect(s, [], Pass)
    else
      var prev := Chain(s, xs[..|xs| - 1], step);
      if prev.outcome.Fail? then prev else Then(prev, step(prev.store, xs[|xs| - 1]))
  }

  /** A chain over `xs + ys` runs `xs` first; the elements of `ys` are reached
      only when every element of `xs` succeeded. After a failure nothing more
      is sent and the store stays as the failing element left it. */
  lemma {:induction false} ChainAppend<T>(s: Store, xs: seq<T>, ys: seq<T>, step: (Store, T) -> Effect)
    ensures var p := Chain(s, xs, step);
            Chain(s, xs + ys, step) == if p.outcome.Fail? then p else Then(p, Chain(p.store, ys, step))
    decreases |ys|
  {
    var p := Chain(s, xs, step);
    if ys == [] {
      assert xs + ys == xs;
      assert p.outcome.Pass? ==> p.sent + [] == p.sent;
    } else {
      var init, last := ys[..|ys| - 1], ys[|ys| - 1];
      assert (xs + ys)[..|xs + ys| - 1] == xs + init;
      ChainAppend(s, xs, init, step);
      if p.outcome.Pass? {
        var c := Chain(p.store, init, step);
        if c.outcome.Pass? {
          var n := step(c.store, last);
          assert (p.sent + c.sent) + n.sent == p.sent + (c.sent + n.sent);
        }
      }
    }
  }

  /** A loop whose body never throws never throws. */
  lemma {:induction false} ChainPasses<T>(s: Store, xs: seq<T>, step: (Store, T) -> Effect)
    requires forall st: Store, x: T :: x in xs ==> step(st, x).outcome.Pass?
    ensures Chain(s, xs, step).outcome.Pass?
    decreases |xs|
  {
    if xs != [] {
      assert forall x :: x in xs[..|xs| - 1] ==> x in xs;
      ChainPasses(s, xs[..|xs| - 1], step);
    }
  }

  /** The first element runs first, from the initial store. */
  lemma ChainFirst<T>(s: Store, xs: seq<T>, step: (Store, T) -> Effect)
    requires xs != []
    ensures var f := step(s, xs[0]);
            Chain(s, xs, step) == if f.outcome.Fail? then f else Then(f, Chain(f.store, xs[1..], step))
  {
    assert xs == xs[..1] + xs[1..];
    assert xs[..1][..0] == [];
    ChainAppend(s, xs[..1], xs[1..], step);
    assert [] + step(s, xs[0]).sent == step(s, xs[0]).sent;
  }

  /** Failing at element `k` keeps everything the elements before it did and
      what element `k` itself sent, and sends nothing for the elements after it. */
  lemma ChainStopsAtFailure<T>(s: Store, xs: seq<T>, k: nat, step: (Store, T) -> Effect)
    requires k < |xs|
    requires Chain(s, xs[..k], step).outcome.Pass?
    requires step(Chain(s, xs[..k], step).store, xs[k]).outcome.Fail?
    ensures Chain(s, xs, step) == Then(Chain(s, xs[..k], step), step(Chain(s, xs[..k], step).store, xs[k]))
  {
    assert xs[..k + 1][..k] == xs[..k];
    assert xs == xs[..k + 1] + xs[k + 1..];
    ChainAppend(s, xs[..k + 1], xs[k + 1..], step);
  }

  /** One more element: a chain whose prefix succeeded goes on with the next
      element. */
  lemma ChainExtends<T>(s: Store, xs: seq<T>, k: nat, step: (Store, T) -> Effect)
    requires k < |xs|
    requires Chain(s, xs[..k], step).outcome.Pass?
    ensures var p := Chain(s, xs[..k], step);
            Chain(s, xs[..k + 1], step) == Then(p, step(p.store, xs[k]))
  {
    assert xs[..k + 1][..k] == xs[..k];
  }

  /** The bookkeeping of one iteration of a fail-fast loop: `next` is what the
      element at `k` did, the chain so far grows by it, and when it failed the
      whole chain ends there. */
  lemma ChainStep<T>(s: Store, xs: seq<T>, k: nat, step: (Store, T) -> Effect, next: Effect)
    requires k < |xs|
    requires Chain(s, xs[..k], step).outcome.Pass?
    requires next == step(Chain(s, xs[..k], step).store, xs[k])
    ensures Chain(s, xs[..k + 1], step) == Then(Chain(s, xs[..k], step), next)
    ensures next.outcome.Fail? ==> Chain(s, xs, step) == Chain(s, xs[..k + 1], step)
  {
    ChainExtends(s, xs, k, step);
    if next.outcome.Fail? {
      ChainPrefixFails(s, xs, k + 1, step);
    }
  }

  /** The log after one more operation: what was sent so far, then what the
      operation sent. */
  lemma LogGrows(log: seq<Request>, log0: seq<Request>, done: Effect, next: Effect)
    requires log == (log0 + done.sent) + next.sent
    ensures log == log0 + Then(done, next).sent
  {
  }

  /** Once a prefix has failed, the rest of the chain adds nothing. */
  lemma ChainPrefixFails<T>(s: Store, xs: seq<T>, k: nat, step: (Store, T) -> Effect)
    requires k <= |xs|
    requires Chain(s, xs[..k], step).outcome.Fail?
    ensures Chain(s, xs, step) == Chain(s, xs[..k], step)
  {
    assert xs == xs[..k] + xs[k..];
    ChainAppend(s, xs[..k], xs[k..], step);
  }

  // ----- The engine as seen through the client -----

  class Cluster {
    /** The indices that exist, with their documents. */
    var store: Store
    /** Every request sent, in order, including the ones the engine refused. */
    var log: seq<Request>
    /** The requests on which the engine throws (network errors, rejected requests). */
    const refuses: Request -> bool
    /** The index creations the engine acknowledges. */
    const acknowledges: string -> bool
    /** The engine's answer to a search; matching and ranking are its own. */
    const answer: (string, SearchBody) -> SearchReply

    constructor (store: Store, refuses: Request -> bool, acknowledges: string -> bool,
                 answer: (string, SearchBody) -> SearchReply)
      ensures this.store == store && log == []
      ensures this.refuses == refuses && this.acknowledges == acknowledges && this.answer == answer
    {
      this.store := store;
      this.log := [];
      this.refuses := refuses;
      this.acknowledges := acknowledges;
      this.answer := answer;
    }

    /** indices().exists */
    method Exists(index: string) returns (ok: bool, present: bool)
      modifies this
      ensures log == old(log) + [IndexExists(index)] && store == old(store)
      ensures ok == !refuses(IndexExists(index))
      ensures present == (index in store)
    {
      log := log + [IndexExists(index)];
      ok := !refuses(IndexExists(index));
      present := index in store;
    }

    /** indices().create: fails on an index that already exists. */
    method Create(index: string, settings: string, mapping: string) returns (ok: bool, acknowledged: bool)
      modifies this
      ensures log == old(log) + [IndexCreate(index, settings, mapping)]
      ensures ok == (!refuses(IndexCreate(index, settings, mapping)) && index !in old(store))
      ensures store == if ok then AfterCreate(old(store), index) else old(store)
      ensures acknowledged == (ok && acknowledges(index))
    {
      var r := IndexCreate(index, settings, mapping);
      log := log + [r];
      ok := !refuses(r) && index !in store;
      if ok {
        store := AfterCreate(store, index);
      }
      acknowledged := ok && acknowledges(index);
    }

    /** index: write `source` under `id`. */
    method Put(index: string, id: string, source: Doc) returns (ok: bool)
      modifies this
      ensures log == old(log) + [DocIndex(index, id, source)]
      ensures ok == !refuses(DocIndex(index, id, source))
      ensures store == if ok then AfterWrite(old(store), index, id, source) else old(store)
    {
      log := log + [DocIndex(index, id, source)];
      ok := !refuses(DocIndex(index, id, source));
      if ok {
        store := AfterWrite(store, index, id, source);
      }
    }

    /** delete: remove `id` from `index`. */
    method Remove(index: string, id: string) returns (ok: bool)
      modifies this
      ensures log == old(log) + [DocDelete(index, id)]
      ensures ok == !refuses(DocDelete(index, id))
      ensures store == if ok then AfterDelete(old(store), index, id) else old(store)
    {
      log := log + [DocDelete(index, id)];
      ok := !refuses(DocDelete(index, id));
      if ok {
        store := AfterDelete(store, index, id);
      }
    }

    /** search */
    method Search(index: string, body: SearchBody) returns (ok: bool, reply: SearchReply)
      modifies this
      ensures log == old(log) + [SearchIn(index, body)] && store == old(store)
      ensures ok == !refuses(SearchIn(index, body))
      ensures reply == answer(index, body)
    {
      log := log + [SearchIn(index, body)];
      ok := !refuses(SearchIn(index, body));
      reply := answer(index, body);
    }
  }
}
