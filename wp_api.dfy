/** The `WPApi` client of assets/wordpress/p-wp-api.js: one instance per
    endpoint, holding an item store (slug to item), a query cache (cache key to
    slug list) and a freshness flag.  A query is split into a preparing step
    that either answers from the store or yields the request to send, and a
    step that takes the transport's answer, given as an input. */
module WpApi {
  import opened Options
  import opened AssocList
  import opened WpApiFilters

  /** A post as the API returns it.  `id` is the text of its `ID`; every other
      property is in `fields`. */
  datatype Item = Item(slug: string, route: string, id: string, fields: map<string, string>)

  type Headers = map<string, string>

  /** `config.transform`: called with an item and the response headers. */
  type Transform = (Item, Headers) -> Item

  /** `config`: the three filter scopes and the optional transform. */
  datatype Config = Config(filters: FilterConfig, transform: Option<Transform>)

  /** The failed `$http` response; it reaches the caller unchanged. */
  datatype HttpError = HttpError(status: int, code: string, message: string)

  /** What the transport answers a GET with: the body and the headers, or a failure. */
  datatype Http<T> = Ok(data: T, headers: Headers) | Fail(error: HttpError)

  /** How the promise returned by a query settles. */
  datatype Reply<T> = Resolved(value: T) | Rejected(error: HttpError)

  /** The side effects of a query seen from outside: the providers it called,
      in order, and the URL it fetched (None: no request was sent). */
  datatype Trace = Trace(invoked: seq<ProviderId>, request: Option<string>)

  /** What `invalidate()` throws: it assigns to an undeclared `valid`, which
      strict-mode class code refuses. */
  datatype JsError = ReferenceError(name: string)

  /** The preparing step of `getItems`: answer from cache, or fetch `url` and
      file the answer under `key`. */
  datatype ListPlan = FromCache(result: seq<Item>) | FromNetwork(url: string, key: string)

  /** The preparing step of `getItem`: the stored item, or fetch `url`. */
  datatype ItemPlan = ItemFromCache(item: Item) | ItemFromNetwork(url: string)

  function Reverse<T>(s: seq<T>): (r: seq<T>)
    ensures |r| == |s|
    ensures forall i :: 0 <= i < |s| ==> r[i] == s[|s| - 1 - i]
  {
    seq(|s|, i requires 0 <= i < |s| => s[|s| - 1 - i])
  }

  /** `unshift` on a sequence built so far reverses the order of arrival. */
  lemma ReverseSnoc<T>(s: seq<T>, x: T)
    ensures Reverse(s + [x]) == [x] + Reverse(s)
  {
  }

  lemma ReverseReverse<T>(s: seq<T>)
    ensures Reverse(Reverse(s)) == s
  {
  }

  /** The item after the optional transform. */
  function Transformed(item: Item, transform: Option<Transform>, headers: Headers): Item
  {
    match transform
    case None => item
    case Some(t) => t(item, headers)
  }

  /** What a list response entry is stored and returned as: its route suffixed
      with `/` and its ID, then transformed. */
  function Prepared(item: Item, transform: Option<Transform>, headers: Headers): Item
  {
    Transformed(item.(route := item.route + "/" + item.id), transform, headers)
  }

  function PreparedAll(data: seq<Item>, transform: Option<Transform>, headers: Headers): (r: seq<Item>)
    ensures |r| == |data|
    ensures forall i :: 0 <= i < |data| ==> r[i] == Prepared(data[i], transform, headers)
  {
    seq(|data|, i requires 0 <= i < |data| => Prepared(data[i], transform, headers))
  }

  /** The slugs of a response, read before the transform runs. */
  function Slugs(data: seq<Item>): (r: seq<string>)
    ensures |r| == |data|
    ensures forall i :: 0 <= i < |data| ==> r[i] == data[i].slug
  {
    seq(|data|, i requires 0 <= i < |data| => data[i].slug)
  }

  /** The item store after writing a list response entry by entry. */
  function StoreAll(items: map<string, Item>, data: seq<Item>, transform: Option<Transform>,
                    headers: Headers): (r: map<string, Item>)
    ensures forall s :: s in r <==> s in items || s in Slugs(data)
  {
    if data == [] then items
    else
      var last := data[|data| - 1];
      assert forall s :: s in Slugs(data) <==> s in Slugs(data[..|data| - 1]) || s == last.slug by {
        assert Slugs(data) == Slugs(data[..|data| - 1]) + [last.slug];
      }
      StoreAll(items, data[..|data| - 1], transform, headers)[last.slug := Prepared(last, transform, headers)]
  }

  /** One more response entry written into the store, and its slug and
      prepared item appended to the running lists. */
  lemma ResponseStep(items: map<string, Item>, data: seq<Item>, transform: Option<Transform>,
                     headers: Headers, i: nat)
    requires i < |data|
    ensures StoreAll(items, data[..i + 1], transform, headers) ==
            StoreAll(items, data[..i], transform, headers)[data[i].slug := Prepared(data[i], transform, headers)]
    ensures Reverse(Slugs(data[..i + 1])) == [data[i].slug] + Reverse(Slugs(data[..i]))
    ensures Reverse(PreparedAll(data[..i + 1], transform, headers)) ==
            [Prepared(data[i], transform, headers)] + Reverse(PreparedAll(data[..i], transform, headers))
  {
    assert data[..i + 1][..i] == data[..i];
    assert Slugs(data[..i + 1]) == Slugs(data[..i]) + [data[i].slug];
    assert PreparedAll(data[..i + 1], transform, headers) ==
           PreparedAll(data[..i], transform, headers) + [Prepared(data[i], transform, headers)];
    ReverseSnoc(Slugs(data[..i]), data[i].slug);
    ReverseSnoc(PreparedAll(data[..i], transform, headers), Prepared(data[i], transform, headers));
  }

  /** Every slug of every cached list has a stored item. */
  ghost predicate CachedSlugsStored(cache: map<string, seq<string>>, items: map<string, Item>)
  {
    forall key, s :: key in cache && s in cache[key] ==> s in items
  }

  /** Writing a response and caching its slugs under `key` keeps every cached
      slug stored. */
  lemma StoreKeepsCachedSlugs(cache: map<string, seq<string>>, items: map<string, Item>, key: string,
                              data: seq<Item>, transform: Option<Transform>, headers: Headers)
    requires CachedSlugsStored(cache, items)
    ensures CachedSlugsStored(cache[key := Reverse(Slugs(data))], StoreAll(items, data, transform, headers))
  {
    ResponseSlugsStored(items, data, transform, headers);
  }

  /** A cached slug list read back: each slug looked up in the store, visiting
      the list from its end. */
  function CachedList(items: map<string, Item>, slugs: seq<string>): (r: seq<Item>)
    requires forall s :: s in slugs ==> s in items
    ensures |r| == |slugs|
  {
    seq(|slugs|, i requires 0 <= i < |slugs| => items[slugs[|slugs| - 1 - i]])
  }

  /** In the store after a list response, the slug of entry `j` holds entry
      `j` prepared when no later entry has the same slug: the last duplicate
      wins. */
  lemma {:induction false} StoreAllLast(items: map<string, Item>, data: seq<Item>, transform: Option<Transform>,
                                        headers: Headers, j: nat)
    requires j < |data|
    requires forall k :: j < k < |data| ==> data[k].slug != data[j].slug
    ensures StoreAll(items, data, transform, headers)[data[j].slug] == Prepared(data[j], transform, headers)
  {
    if j < |data| - 1 {
      var front := data[..|data| - 1];
      StoreAllLast(items, front, transform, headers, j);
    }
  }

  /** A slug absent from a list response keeps its stored item. */
  lemma {:induction false} StoreAllOther(items: map<string, Item>, data: seq<Item>, transform: Option<Transform>,
                                         headers: Headers, s: string)
    requires s in items
    requires forall k :: 0 <= k < |data| ==> data[k].slug != s
    ensures StoreAll(items, data, transform, headers)[s] == items[s]
  {
    if data != [] {
      StoreAllOther(items, data[..|data| - 1], transform, headers, s);
    }
  }

  /** With no later duplicate, entry `j`'s slug is stored and holds entry
      `j` prepared. */
  lemma StoredAt(items: map<string, Item>, data: seq<Item>, transform: Option<Transform>,
                 headers: Headers, j: nat)
    requires j < |data|
    requires forall k :: j < k < |data| ==> data[k].slug != data[j].slug
    ensures data[j].slug in StoreAll(items, data, transform, headers)
    ensures StoreAll(items, data, transform, headers)[data[j].slug] == Prepared(data[j], transform, headers)
  {
    assert Slugs(data)[j] == data[j].slug;
    StoreAllLast(items, data, transform, headers, j);
  }

  lemma ReverseMembership<T>(s: seq<T>, x: T)
    ensures x in Reverse(s) <==> x in s
  {
    if x in s {
      var i :| 0 <= i < |s| && s[i] == x;
      assert Reverse(s)[|s| - 1 - i] == x;
    }
  }

  /** Every slug of the cached list written for a response is stored. */
  lemma ResponseSlugsStored(items: map<string, Item>, data: seq<Item>, transform: Option<Transform>,
                            headers: Headers)
    ensures forall s :: s in Reverse(Slugs(data)) ==> s in StoreAll(items, data, transform, headers)
  {
    forall s | s in Reverse(Slugs(data)) ensures s in StoreAll(items, data, transform, headers) {
      ReverseMembership(Slugs(data), s);
    }
  }

  /** Position `j` of the cache read after a response is entry `j` prepared,
      when no later entry repeats its slug. */
  lemma ReadBackAt(items: map<string, Item>, data: seq<Item>, transform: Option<Transform>,
                   headers: Headers, j: nat)
    requires j < |data|
    requires forall k :: j < k < |data| ==> data[k].slug != data[j].slug
    requires forall s :: s in Reverse(Slugs(data)) ==> s in StoreAll(items, data, transform, headers)
    ensures CachedList(StoreAll(items, data, transform, headers), Reverse(Slugs(data)))[j] ==
            Prepared(data[j], transform, headers)
  {
    var rev := Reverse(Slugs(data));
    assert rev[|rev| - 1 - j] == Slugs(data)[j] == data[j].slug;
    StoredAt(items, data, transform, headers, j);
  }

  /** A successful list fetch followed by a cache read of the same key gives
      the response back in response order, when the response has no duplicate
      slugs. */
  lemma FetchThenReadInResponseOrder(items: map<string, Item>, data: seq<Item>, transform: Option<Transform>,
                                     headers: Headers)
    requires forall i, j :: 0 <= i < j < |data| ==> data[i].slug != data[j].slug
    ensures forall s :: s in Reverse(Slugs(data)) ==> s in StoreAll(items, data, transform, headers)
    ensures CachedList(StoreAll(items, data, transform, headers), Reverse(Slugs(data))) ==
            PreparedAll(data, transform, headers)
  {
    ResponseSlugsStored(items, data, transform, headers);
    var cached := CachedList(StoreAll(items, data, transform, headers), Reverse(Slugs(data)));
    var prepared := PreparedAll(data, transform, headers);
    forall j | 0 <= j < |data| ensures cached[j] == prepared[j] {
      ReadBackAt(items, data, transform, headers, j);
    }
  }

  /** The network path and the cache path of `getItems` disagree on order:
      the fetch resolves with the response reversed, a later cache read with
      the response in order.  Any response with distinct slugs whose first and
      last prepared items differ shows it. */
  lemma NetworkAndCacheOrderDiffer(items: map<string, Item>, data: seq<Item>, transform: Option<Transform>,
                                   headers: Headers)
    requires forall i, j :: 0 <= i < j < |data| ==> data[i].slug != data[j].slug
    requires |data| >= 2
    requires Prepared(data[0], transform, headers) != Prepared(data[|data| - 1], transform, headers)
    ensures forall s :: s in Reverse(Slugs(data)) ==> s in StoreAll(items, data, transform, headers)
    ensures Reverse(PreparedAll(data, transform, headers)) !=
            CachedList(StoreAll(items, data, transform, headers), Reverse(Slugs(data)))
  {
    FetchThenReadInResponseOrder(items, data, transform, headers);
    assert Reverse(PreparedAll(data, transform, headers))[0] != PreparedAll(data, transform, headers)[0];
  }

  /** The `for (let i in filters)` loop appending `&name=value` per parameter. */
  method AppendQuery(prefix: string, p: Params) returns (u: string)
    ensures u == prefix + QueryString(p)
  {
    u := prefix;
    var i := 0;
    while i < |p|
      invariant 0 <= i <= |p|
      invariant u + QueryString(p[i..]) == prefix + QueryString(p)
    {
      assert p[i..][1..] == p[i + 1..];
      u := u + "&" + p[i].0 + "=" + p[i].1;
      i := i + 1;
    }
    assert p[i..] == [];
  }

  /** The provider's `url`, shared by every instance and set by `setBaseUrl`. */
  class WPApiProvider {
    var url: Option<string>

    constructor ()
      ensures url == None
    {
      url := None;
    }

    /** `setBaseUrl(_url)`: the stored base URL always ends in `/`. */
    method SetBaseUrl(u: string)
      modifies this
      ensures url == Some(NormalizeBaseUrl(u))
      ensures |url.value| > 0 && url.value[|url.value| - 1] == '/'
    {
      url := Some(NormalizeBaseUrl(u));
    }
  }

  class WPApi {
    const provider: WPApiProvider
    const config: Config
    const endpoint: string
    var items: map<string, Item>
    var cache: map<string, seq<string>>
    var valid: bool

    /** The instance invariant: the endpoint starts with `/`, every slug of a
        cached list is in the store, and `valid` is true, because no statement
        of the class ever sets it to anything else. */
    ghost predicate Valid()
      reads this
    {
      && valid
      && |endpoint| > 0 && endpoint[0] == '/'
      && CachedSlugsStored(cache, items)
    }

    constructor (provider: WPApiProvider, endpoint: string, config: Config)
      ensures Valid()
      ensures this.provider == provider && this.config == config
      ensures this.endpoint == NormalizeEndpoint(endpoint)
      ensures items == map[] && cache == map[] && valid
    {
      this.provider := provider;
      this.config := config;
      this.endpoint := NormalizeEndpoint(endpoint);
      items := map[];
      cache := map[];
      valid := true;
    }

    /** The cache read of `getItems`: `res.unshift(this.items[slug])` for each
        cached slug, so the list is visited from its end. */
    method ReadCached(key: string) returns (res: seq<Item>)
      requires Valid()
      requires key in cache
      ensures |res| == |cache[key]|
      ensures forall i :: 0 <= i < |res| ==> res[i] == items[cache[key][|res| - 1 - i]]
      ensures res == CachedList(items, cache[key])
    {
      var slugs := cache[key];
      res := [];
      for i := 0 to |slugs|
        invariant res == CachedList(items, slugs[..i])
      {
        assert slugs[..i + 1][..i] == slugs[..i];
        res := [items[slugs[i]]] + res;
      }
      assert slugs[..|slugs|] == slugs;
    }

    /** `getItems` up to the request: merge, evaluate the providers, derive
        the key, then answer from cache when `valid` holds, `flush` is false
        and the key is cached; otherwise build the request URL. */
    method PrepareItems(flush: bool, filters: Filters, params: Params, eval: ProviderId -> string)
      returns (plan: ListPlan, invoked: seq<ProviderId>)
      requires Valid()
      ensures invoked == Invoked(MergedFilters(config.filters.defaults, config.filters.items, filters))
      ensures var p := Compose(config.filters.defaults, config.filters.items, filters, params, eval);
              var key := CacheKey(p);
              if valid && !flush && key in cache
              then plan == FromCache(CachedList(items, cache[key]))
              else plan == FromNetwork(ListUrl(provider.url, endpoint, p), key)
    {
      var merged := MergedFilters(config.filters.defaults, config.filters.items, filters);
      invoked := Invoked(merged);
      var p := Extend(ParseFilters(merged, eval), params);
      var key := CacheKey(p);
      if valid && !flush && key in cache {
        var res := ReadCached(key);
        plan := FromCache(res);
      } else {
        var u := AppendQuery(BaseText(provider.url) + "index.php?json_route=" + endpoint, p);
        plan := FromNetwork(u, key);
      }
    }

    /** One response entry of `getItems`: its route suffixed with `/` and its
        ID, then the transform applied when one is configured. */
    method PrepareEntry(entry: Item, headers: Headers) returns (item: Item)
      ensures item == Prepared(entry, config.transform, headers)
    {
      item := entry;
      item := item.(route := item.route + "/" + item.id);
      if config.transform.Some? {
        item := config.transform.value(item, headers);
      }
    }

    /** The success handler of `getItems`: store every entry prepared, replace
        the key's slug list with the response's slugs reversed, set `valid`,
        and resolve with the prepared entries reversed. */
    method OnItemsSuccess(key: string, data: seq<Item>, headers: Headers) returns (res: seq<Item>)
      requires Valid()
      modifies this
      ensures Valid()
      ensures items == StoreAll(old(items), data, config.transform, headers)
      ensures cache == old(cache)[key := Reverse(Slugs(data))]
      ensures valid
      ensures res == Reverse(PreparedAll(data, config.transform, headers))
    {
      res := [];
      cache := cache[key := []];
      assert data[..0] == [] && Slugs(data[..0]) == [] && PreparedAll(data[..0], config.transform, headers) == [];
      for i := 0 to |data|
        invariant items == StoreAll(old(items), data[..i], config.transform, headers)
        invariant cache == old(cache)[key := Reverse(Slugs(data[..i]))]
        invariant res == Reverse(PreparedAll(data[..i], config.transform, headers))
      {
        var slug := data[i].slug;
        var item := PrepareEntry(data[i], headers);
        ResponseStep(old(items), data, config.transform, headers, i);
        items := items[slug := item];
        cache := cache[key := [slug] + cache[key]];
        res := [item] + res;
      }
      assert data[..|data|] == data;
      StoreKeepsCachedSlugs(old(cache), old(items), key, data, config.transform, headers);
      valid := true;
    }

    /** `getItems(flush, filters, params)`, with the transport's answer given
        as `http` (used only when a request is sent). */
    method GetItems(flush: bool, filters: Filters, params: Params, eval: ProviderId -> string,
                    http: Http<seq<Item>>)
      returns (reply: Reply<seq<Item>>, trace: Trace)
      requires Valid()
      modifies this
      ensures Valid()
      ensures trace.invoked == Invoked(MergedFilters(config.filters.defaults, config.filters.items, filters))
      ensures var p := Compose(config.filters.defaults, config.filters.items, filters, params, eval);
              var key := CacheKey(p);
              if old(valid) && !flush && key in old(cache) then
                && trace.request == None
                && reply == Resolved(CachedList(old(items), old(cache)[key]))
                && items == old(items) && cache == old(cache)
              else
                && trace.request == Some(ListUrl(provider.url, endpoint, p))
                && match http
                   case Fail(e) =>
                     reply == Rejected(e) && items == old(items) && cache == old(cache) && valid == old(valid)
                   case Ok(data, h) =>
                     && reply == Resolved(Reverse(PreparedAll(data, config.transform, h)))
                     && items == StoreAll(old(items), data, config.transform, h)
                     && cache == old(cache)[key := Reverse(Slugs(data))]
                     && valid
    {
      var plan, invoked := PrepareItems(flush, filters, params, eval);
      match plan
      case FromCache(res) =>
        reply, trace := Resolved(res), Trace(invoked, None);
      case FromNetwork(u, key) =>
        trace := Trace(invoked, Some(u));
        match http
        case Fail(e) =>
          reply := Rejected(e);
        case Ok(data, h) =>
          var res := OnItemsSuccess(key, data, h);
          reply := Resolved(res);
    }

    /** `getItem` up to the request: a stored item is answered whatever the
        filters, unless `flush`; only otherwise are the filters merged (with
        the `item` scope) and the providers called. */
    method PrepareItem(slug: string, flush: bool, filters: Filters, params: Params, eval: ProviderId -> string)
      returns (plan: ItemPlan, invoked: seq<ProviderId>)
      requires Valid()
      ensures if !flush && slug in items then
                plan == ItemFromCache(items[slug]) && invoked == []
              else
                && invoked == Invoked(MergedFilters(config.filters.defaults, config.filters.item, filters))
                && plan == ItemFromNetwork(ItemUrl(provider.url, endpoint, slug,
                              Compose(config.filters.defaults, config.filters.item, filters, params, eval)))
    {
      if !flush && slug in items {
        plan, invoked := ItemFromCache(items[slug]), [];
        return;
      }
      var merged := MergedFilters(config.filters.defaults, config.filters.item, filters);
      invoked := Invoked(merged);
      var p := Extend(ParseFilters(merged, eval), params);
      var u := AppendQuery(BaseText(provider.url) + "index.php?json_route=" + endpoint + "/" + slug, p);
      plan := ItemFromNetwork(u);
    }

    /** `getItem(slug, flush, filters, params)`, with the transport's answer
        given as `http`.  Success stores the transformed item under `slug`
        (no route rewrite) and never touches the query cache or `valid`. */
    method GetItem(slug: string, flush: bool, filters: Filters, params: Params, eval: ProviderId -> string,
                   http: Http<Item>)
      returns (reply: Reply<Item>, trace: Trace)
      requires Valid()
      modifies this
      ensures Valid()
      ensures cache == old(cache) && valid == old(valid)
      ensures if !flush && slug in old(items) then
                && trace == Trace([], None)
                && reply == Resolved(old(items)[slug])
                && items == old(items)
              else
                && trace == Trace(Invoked(MergedFilters(config.filters.defaults, config.filters.item, filters)),
                                  Some(ItemUrl(provider.url, endpoint, slug,
                                    Compose(config.filters.defaults, config.filters.item, filters, params, eval))))
                && match http
                   case Fail(e) => reply == Rejected(e) && items == old(items)
                   case Ok(data, h) =>
                     && reply == Resolved(Transformed(data, config.transform, h))
                     && items == old(items)[slug := Transformed(data, config.transform, h)]
    {
      var plan, invoked := PrepareItem(slug, flush, filters, params, eval);
      match plan
      case ItemFromCache(item) =>
        reply, trace := Resolved(item), Trace(invoked, None);
      case ItemFromNetwork(u) =>
        trace := Trace(invoked, Some(u));
        match http
        case Fail(e) =>
          reply := Rejected(e);
        case Ok(data, h) =>
          var item := data;
          if config.transform.Some? {
            item := config.transform.value(item, h);
          }
          items := items[slug := item];
          reply := Resolved(item);
    }

    /** `invalidate()`: the assignment targets an undeclared `valid`, not
        `this.valid`; in strict mode it throws, and the instance is unchanged. */
    method Invalidate() returns (thrown: JsError)
      ensures thrown == ReferenceError("valid")
    {
      thrown := ReferenceError("valid");
    }
  }

  /** Invalidation does not force a refetch: after `invalidate()`, a query
      whose key is cached is still answered from cache without a request. */
  method InvalidateThenQuery(api: WPApi, filters: Filters, params: Params, eval: ProviderId -> string,
                             http: Http<seq<Item>>)
    returns (reply: Reply<seq<Item>>, trace: Trace)
    requires api.Valid()
    requires CacheKey(Compose(api.config.filters.defaults, api.config.filters.items, filters, params, eval)) in api.cache
    modifies api
    ensures trace.request == None
    ensures api.items == old(api.items) && api.cache == old(api.cache)
  {
    var _ := api.Invalidate();
    reply, trace := api.GetItems(false, filters, params, eval, http);
  }
}
