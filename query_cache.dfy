/** The short-URL query keys of frontend/js/hooks/api/useShortUrls.ts and what
    each successful mutation does to the shared query cache. The cache is a map
    from keys to entries; invalidation and removal select entries whose key has
    the given key as a prefix, as TanStack Query's `invalidateQueries` and
    `removeQueries` do for array keys. Refetching is left to the library. */
module QueryCache {
  import opened Wrappers
  import opened Text
  import opened Json
  import ApiRequest
  import Cookies

  /** One element of a query key array. */
  datatype KeyPart = Name(name: string) | Id(id: int) | Filters(filters: Option<Json>)

  type Key = seq<KeyPart>

  predicate IsPrefix(p: Key, k: Key) {
    |p| <= |k| && k[..|p|] == p
  }

  predicate IsStrictPrefix(p: Key, k: Key) {
    IsPrefix(p, k) && |p| < |k|
  }

  // ---------------------------------------------------------------- the keys

  /** `shortUrlKeys.all`. */
  const All: Key := [Name("shortUrls")]

  /** `shortUrlKeys.lists()`: `all` extended by 'list'. */
  function Lists(): (k: Key)
    ensures IsStrictPrefix(All, k) && |k| == 2 && k[1] == Name("list")
  {
    All + [Name("list")]
  }

  /** `shortUrlKeys.list(filters)`. */
  function List(filters: Option<Json>): (k: Key)
    ensures IsStrictPrefix(Lists(), k) && |k| == 3 && k[2] == Filters(filters)
  {
    Lists() + [Filters(filters)]
  }

  /** `shortUrlKeys.details()`. */
  function Details(): (k: Key)
    ensures IsStrictPrefix(All, k) && |k| == 2 && k[1] == Name("detail")
  {
    All + [Name("detail")]
  }

  /** `shortUrlKeys.detail(id)`. */
  function Detail(id: int): (k: Key)
    ensures IsStrictPrefix(Details(), k) && |k| == 3 && k[2] == Id(id)
  {
    Details() + [Id(id)]
  }

  /** `shortUrlKeys.stats(id)`: directly under `all`, beside 'list' and 'detail'. */
  function Stats(id: int): (k: Key)
    ensures IsStrictPrefix(All, k) && |k| == 3 && k[1] == Name("stats") && k[2] == Id(id)
  {
    All + [Name("stats"), Id(id)]
  }

  /** The key `useShortUrls` stores the list under: `lists()` itself. */
  const ListQueryKey: Key := Lists()

  lemma DetailInjective(a: int, b: int)
    ensures Detail(a) == Detail(b) <==> a == b
  {
    if Detail(a) == Detail(b) {
      assert Detail(a)[2] == Detail(b)[2];
    }
  }

  lemma StatsInjective(a: int, b: int)
    ensures Stats(a) == Stats(b) <==> a == b
  {
    if Stats(a) == Stats(b) {
      assert Stats(a)[2] == Stats(b)[2];
    }
  }

  /** Detail keys are never under `lists()`, and stats keys are under neither
      `lists()` nor `details()`. */
  lemma KeysDisjoint(id: int, other: int)
    ensures !IsPrefix(Lists(), Detail(id))
    ensures !IsPrefix(Lists(), Stats(id)) && !IsPrefix(Details(), Stats(id))
    ensures !IsPrefix(Detail(other), Stats(id))
    ensures IsPrefix(Detail(other), Detail(id)) <==> other == id
    ensures !IsPrefix(Detail(other), List(None))
  {
    assert Detail(id)[1] == Name("detail");
    assert Stats(id)[1] == Name("stats");
    assert Detail(other)[1] == Name("detail");
    assert List(None)[1] == Name("list");
    assert Lists()[1] == Name("list");
    assert Details()[1] == Name("detail");
    if IsPrefix(Detail(other), Detail(id)) {
      assert Detail(id)[..3] == Detail(id);
      DetailInjective(other, id);
    }
  }

  // ------------------------------------------------------------- the cache

  /** A cached query: its data and whether it has been invalidated. */
  datatype Entry = Entry(data: Json, stale: bool)

  type Cache = map<Key, Entry>

  /** `invalidateQueries({queryKey: prefix})`: every entry under `prefix` becomes
      stale; no entry is added, dropped or given other data. */
  function Invalidated(cache: Cache, prefix: Key): (c: Cache)
    ensures c.Keys == cache.Keys
    ensures forall k :: k in c ==> c[k].data == cache[k].data
    ensures forall k :: k in c && IsPrefix(prefix, k) ==> c[k].stale
    ensures forall k :: k in c && !IsPrefix(prefix, k) ==> c[k] == cache[k]
  {
    map k | k in cache :: if IsPrefix(prefix, k) then cache[k].(stale := true) else cache[k]
  }

  /** `removeQueries({queryKey: prefix})`: exactly the entries under `prefix` go. */
  function Removed(cache: Cache, prefix: Key): (c: Cache)
    ensures forall k :: k in c <==> k in cache && !IsPrefix(prefix, k)
    ensures forall k :: k in c ==> c[k] == cache[k]
  {
    map k | k in cache && !IsPrefix(prefix, k) :: cache[k]
  }

  /** `setQueryData(key, data)`: the entry holds `data` and is fresh. */
  function WithData(cache: Cache, key: Key, data: Json): (c: Cache)
    ensures c.Keys == cache.Keys + {key}
    ensures c[key] == Entry(data, false)
    ensures forall k :: k in cache && k != key ==> c[k] == cache[k]
  {
    cache[key := Entry(data, false)]
  }

  /** `onSuccess` of `useCreateShortUrl`. */
  function AfterCreate(cache: Cache): Cache {
    Invalidated(cache, Lists())
  }

  /** `onSuccess` of `useUpdateShortUrl(id)` with the updated record `d`. */
  function AfterUpdate(cache: Cache, id: int, d: Json): Cache {
    Invalidated(WithData(cache, Detail(id), d), Lists())
  }

  /** `onSuccess` of `useDeleteShortUrl` for `id`. */
  function AfterDelete(cache: Cache, id: int): Cache {
    Invalidated(Removed(cache, Detail(id)), Lists())
  }

  /** No cached key extends `key`; the hooks build no key longer than three parts,
      so this holds for every detail key. */
  predicate NothingBelow(cache: Cache, key: Key) {
    forall k :: k in cache ==> !IsStrictPrefix(key, k)
  }

  // ---------------------------------------------------- effects, proved

  /** Invalidating twice is invalidating once. */
  lemma InvalidateIdempotent(cache: Cache, prefix: Key)
    ensures Invalidated(Invalidated(cache, prefix), prefix) == Invalidated(cache, prefix)
  {
  }

  /** A create marks stale exactly the entries under `lists()` (besides those
      already stale) and changes nothing else, so detail and stats entries stay. */
  lemma CreateEffects(cache: Cache)
    ensures AfterCreate(cache).Keys == cache.Keys
    ensures forall k :: k in cache ==>
      AfterCreate(cache)[k].stale == (cache[k].stale || IsPrefix(Lists(), k))
      && AfterCreate(cache)[k].data == cache[k].data
    ensures forall id :: Detail(id) in cache ==> AfterCreate(cache)[Detail(id)] == cache[Detail(id)]
    ensures forall id :: Stats(id) in cache ==> AfterCreate(cache)[Stats(id)] == cache[Stats(id)]
  {
    forall id | Detail(id) in cache || Stats(id) in cache
      ensures !IsPrefix(Lists(), Detail(id)) && !IsPrefix(Lists(), Stats(id))
    {
      KeysDisjoint(id, id);
    }
  }

  /** The list query `useShortUrls` reads is always invalidated by a mutation. */
  lemma ListQueryInvalidated(cache: Cache, id: int, d: Json)
    requires ListQueryKey in cache
    ensures AfterCreate(cache)[ListQueryKey].stale
    ensures AfterUpdate(cache, id, d)[ListQueryKey].stale
    ensures AfterDelete(cache, id)[ListQueryKey].stale
  {
    assert IsPrefix(Lists(), ListQueryKey);
    KeysDisjoint(id, id);
    assert ListQueryKey == Lists();
    assert !IsPrefix(Detail(id), Lists()) by {
      assert |Detail(id)| > |Lists()|;
    }
  }

  /** An update stores `d` under `detail(id)`, marks the lists stale, and leaves
      other ids' details and every stats entry as they were. */
  lemma UpdateEffects(cache: Cache, id: int, d: Json)
    ensures AfterUpdate(cache, id, d).Keys == cache.Keys + {Detail(id)}
    ensures AfterUpdate(cache, id, d)[Detail(id)] == Entry(d, false)
    ensures forall k :: k in cache && IsPrefix(Lists(), k) ==> AfterUpdate(cache, id, d)[k].stale
    ensures forall other :: other != id && Detail(other) in cache ==>
      AfterUpdate(cache, id, d)[Detail(other)] == cache[Detail(other)]
    ensures forall s :: Stats(s) in cache ==> AfterUpdate(cache, id, d)[Stats(s)] == cache[Stats(s)]
  {
    KeysDisjoint(id, id);
    forall other | other != id && Detail(other) in cache
      ensures AfterUpdate(cache, id, d)[Detail(other)] == cache[Detail(other)]
    {
      DetailInjective(other, id);
      KeysDisjoint(other, other);
    }
    forall s | Stats(s) in cache
      ensures AfterUpdate(cache, id, d)[Stats(s)] == cache[Stats(s)]
    {
      KeysDisjoint(s, id);
      assert Stats(s) != Detail(id) by {
        assert Stats(s)[1] != Detail(id)[1];
      }
    }
  }

  /** A delete removes `detail(id)` and nothing else: other details and the
      stats entry of the same id stay, and the lists are marked stale. */
  lemma DeleteEffects(cache: Cache, id: int)
    requires NothingBelow(cache, Detail(id))
    ensures AfterDelete(cache, id).Keys == cache.Keys - {Detail(id)}
    ensures forall other :: other != id && Detail(other) in cache ==>
      AfterDelete(cache, id)[Detail(other)] == cache[Detail(other)]
    ensures forall s :: Stats(s) in cache ==> AfterDelete(cache, id)[Stats(s)] == cache[Stats(s)]
    ensures forall k :: k in cache && IsPrefix(Lists(), k) ==> AfterDelete(cache, id)[k].stale
  {
    var removed := Removed(cache, Detail(id));
    assert IsPrefix(Detail(id), Detail(id));
    forall k | k in cache && IsPrefix(Detail(id), k) ensures k == Detail(id) {
      assert !IsStrictPrefix(Detail(id), k);
      assert k == k[..|Detail(id)|];
    }
    forall other | other != id && Detail(other) in cache
      ensures AfterDelete(cache, id)[Detail(other)] == cache[Detail(other)]
    {
      KeysDisjoint(id, other);
      KeysDisjoint(other, other);
    }
    forall s | Stats(s) in cache
      ensures AfterDelete(cache, id)[Stats(s)] == cache[Stats(s)]
    {
      KeysDisjoint(s, id);
    }
  }

  // --------------------------------------------------------- the requests

  /** A request a hook makes: the URL and the options handed to `apiRequest`. */
  datatype Call = Call(url: string, options: ApiRequest.RequestInit)

  function ItemUrl(id: int): string {
    "/api/short-urls/" + IntToString(id) + "/"
  }

  /** The `queryFn` of `useShortUrls`, `useShortUrl(id)` and `useShortUrlStats(id)`: plain GETs. */
  function ListCall(): Call {
    Call("/api/short-urls/", ApiRequest.RequestInit(None, [], None, None))
  }

  function DetailCall(id: int): Call {
    Call(ItemUrl(id), ApiRequest.RequestInit(None, [], None, None))
  }

  function StatsCall(id: int): Call {
    Call(ItemUrl(id) + "stats/", ApiRequest.RequestInit(None, [], None, None))
  }

  /** The `mutationFn`s of the create, update and delete hooks. */
  function CreateCall(data: Json): Call {
    Call("/api/short-urls/shorten/", ApiRequest.RequestInit(Some("POST"), [], Some(data), None))
  }

  function UpdateCall(id: int, data: Json): Call {
    Call(ItemUrl(id), ApiRequest.RequestInit(Some("PATCH"), [], Some(data), None))
  }

  function DeleteCall(id: int): Call {
    Call(ItemUrl(id), ApiRequest.RequestInit(Some("DELETE"), [], None, None))
  }

  /** Every mutation carries the CSRF token exactly when the cookie holds one;
      no query ever does. */
  lemma CsrfOnMutationsOnly(cookie: string, id: int, data: Json)
    ensures var token := Cookies.GetCookie(cookie, ApiRequest.CsrfCookieName);
      && (ApiRequest.CsrfHeader in ApiRequest.RequestHeaders(CreateCall(data).options, cookie) <==> token.Some?)
      && (ApiRequest.CsrfHeader in ApiRequest.RequestHeaders(UpdateCall(id, data).options, cookie) <==> token.Some?)
      && (ApiRequest.CsrfHeader in ApiRequest.RequestHeaders(DeleteCall(id).options, cookie) <==> token.Some?)
    ensures ApiRequest.CsrfHeader !in ApiRequest.RequestHeaders(ListCall().options, cookie)
    ensures ApiRequest.CsrfHeader !in ApiRequest.RequestHeaders(DetailCall(id).options, cookie)
    ensures ApiRequest.CsrfHeader !in ApiRequest.RequestHeaders(StatsCall(id).options, cookie)
  {
    assert ApiRequest.IsStateChanging(Some("POST"));
    assert ApiRequest.IsStateChanging(Some("PATCH"));
    assert ApiRequest.IsStateChanging(Some("DELETE"));
  }

  // ------------------------------------------------------- the query client

  /** The shared `QueryClient`, reduced to its cache. */
  class QueryClient {
    var entries: Cache

    constructor ()
      ensures entries == map[]
    {
      entries := map[];
    }

    method InvalidateQueries(prefix: Key)
      modifies this
      ensures entries == Invalidated(old(entries), prefix)
    {
      entries := Invalidated(entries, prefix);
    }

    method SetQueryData(key: Key, data: Json)
      modifies this
      ensures entries == WithData(old(entries), key, data)
    {
      entries := WithData(entries, key, data);
    }

    method RemoveQueries(prefix: Key)
      modifies this
      ensures entries == Removed(old(entries), prefix)
    {
      entries := Removed(entries, prefix);
    }
  }

  /** `useCreateShortUrl().mutateAsync(data)`, given what `fetch` answers: the
      cache changes only when the request succeeds. */
  method CreateShortUrl(client: QueryClient, data: Json, cookie: string, answer: ApiRequest.Fetched)
    returns (sent: ApiRequest.FetchInit, result: Result<Json, string>)
    modifies client
    ensures sent == ApiRequest.FetchInit(Some("POST"), ApiRequest.RequestHeaders(CreateCall(data).options, cookie), Some(data), "include")
    ensures result == ApiRequest.Outcome(answer)
    ensures result.Success? ==> client.entries == AfterCreate(old(client.entries))
    ensures result.Failure? ==> client.entries == old(client.entries)
  {
    sent, result := ApiRequest.Request(CreateCall(data).options, cookie, answer);
    if result.Success? {
      client.InvalidateQueries(Lists());
    }
  }

  /** `useUpdateShortUrl(id).mutateAsync(data)`. */
  method UpdateShortUrl(client: QueryClient, id: int, data: Json, cookie: string, answer: ApiRequest.Fetched)
    returns (sent: ApiRequest.FetchInit, result: Result<Json, string>)
    modifies client
    ensures sent == ApiRequest.FetchInit(Some("PATCH"), ApiRequest.RequestHeaders(UpdateCall(id, data).options, cookie), Some(data), "include")
    ensures result == ApiRequest.Outcome(answer)
    ensures result.Success? ==> client.entries == AfterUpdate(old(client.entries), id, result.value)
    ensures result.Failure? ==> client.entries == old(client.entries)
  {
    sent, result := ApiRequest.Request(UpdateCall(id, data).options, cookie, answer);
    if result.Success? {
      client.SetQueryData(Detail(id), result.value);
      client.InvalidateQueries(Lists());
    }
  }

  /** `useDeleteShortUrl().mutateAsync(id)`. As written, the 204 answer of a
      successful delete has an empty body that `response.json()` cannot parse,
      so the mutation rejects and the cache keeps the deleted row. */
  method DeleteShortUrl(client: QueryClient, id: int, cookie: string, answer: ApiRequest.Fetched)
    returns (sent: ApiRequest.FetchInit, result: Result<Json, string>)
    modifies client
    ensures sent == ApiRequest.FetchInit(Some("DELETE"), ApiRequest.RequestHeaders(DeleteCall(id).options, cookie), None, "include")
    ensures result == ApiRequest.Outcome(answer)
    ensures result.Success? ==> client.entries == AfterDelete(old(client.entries), id)
    ensures result.Failure? ==> client.entries == old(client.entries)
    ensures answer.Received? && answer.response.Ok() && answer.response.body.Unparseable? ==>
      result == Failure(answer.response.body.syntaxError) && client.entries == old(client.entries)
  {
    sent, result := ApiRequest.Request(DeleteCall(id).options, cookie, answer);
    if result.Success? {
      client.RemoveQueries(Detail(id));
      client.InvalidateQueries(Lists());
    }
  }

  /** The delete mutation over the corrected `apiRequest`: an empty 2xx answer
      resolves, and the deleted row leaves the cache. */
  method DeleteShortUrlIntended(client: QueryClient, id: int, cookie: string, answer: ApiRequest.Fetched)
    returns (sent: ApiRequest.FetchInit, result: Result<Json, string>)
    modifies client
    ensures sent == ApiRequest.FetchInit(Some("DELETE"), ApiRequest.RequestHeaders(DeleteCall(id).options, cookie), None, "include")
    ensures result == ApiRequest.IntendedOutcome(answer)
    ensures result.Success? ==> client.entries == AfterDelete(old(client.entries), id)
    ensures result.Failure? ==> client.entries == old(client.entries)
    ensures answer.Received? && answer.response.Ok() && answer.response.text == "" ==>
      result == Success(JNull) && client.entries == AfterDelete(old(client.entries), id)
  {
    sent, result := ApiRequest.RequestIntended(DeleteCall(id).options, cookie, answer);
    if result.Success? {
      client.RemoveQueries(Detail(id));
      client.InvalidateQueries(Lists());
    }
  }
}
