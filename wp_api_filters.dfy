/** The filter composition of the `WPApi` client (assets/wordpress/p-wp-api.js):
    merging the three filter scopes with the call-time filters, evaluating
    value providers, wrapping names as `filter[name]`, adding the unwrapped
    extra parameters, and deriving from the result the cache key and the
    request URLs.  Also the endpoint and base-URL normalisation. */
module WpApiFilters {
  import opened Options
  import opened AssocList
  import StringSort

  /** Identifies a zero-argument filter function; what it returns at request
      time is given by an evaluation function passed to each request. */
  type ProviderId = nat

  /** A configured filter value: a literal, held as the text JavaScript
      converts it to, or a value provider. */
  datatype FilterValue = Literal(text: string) | Provider(id: ProviderId)

  /** A filter object (name to value) and a wire-parameter object (name to
      text), both in enumeration order. */
  type Filters = seq<(string, FilterValue)>
  type Params = seq<(string, string)>

  /** `config.filters`: `defaults` apply to every request, `items` to list
      requests, `item` to single-item requests. */
  datatype FilterConfig = FilterConfig(defaults: Filters, items: Filters, item: Filters)

  /** The text a filter value contributes: a provider is called, a literal is
      passed through. */
  function Evaluate(v: FilterValue, eval: ProviderId -> string): string
  {
    match v
    case Literal(t) => t
    case Provider(id) => eval(id)
  }

  /** The wire name of filter `name`. */
  function Wrap(name: string): string
  {
    "filter[" + name + "]"
  }

  lemma WrapInjective(a: string, b: string)
    requires Wrap(a) == Wrap(b)
    ensures a == b
  {
    assert a == Wrap(a)[7..|Wrap(a)| - 1];
    assert b == Wrap(b)[7..|Wrap(b)| - 1];
  }

  /** The filters with every name wrapped and every value evaluated, entry for
      entry: what `parseFilters` produces. */
  function Wrapped(filters: Filters, eval: ProviderId -> string): (r: Params)
    ensures |r| == |filters|
  {
    seq(|filters|, i requires 0 <= i < |filters| => (Wrap(filters[i].0), Evaluate(filters[i].1, eval)))
  }

  /** The assignment loop of `parseFilters`, from the entries of `filters`
      into the object `ret` built so far. */
  function ParseInto(ret: Params, filters: Filters, eval: ProviderId -> string): Params
    decreases |filters|
  {
    if filters == [] then ret
    else ParseInto(Set(ret, Wrap(filters[0].0), Evaluate(filters[0].1, eval)), filters[1..], eval)
  }

  /** The loop only ever adds `filter[...]` names, and never one twice. */
  lemma {:induction false} ParseIntoShape(ret: Params, filters: Filters, eval: ProviderId -> string)
    requires DistinctKeys(ret)
    requires forall k :: k in Keys(ret) ==> "filter[" <= k
    ensures DistinctKeys(ParseInto(ret, filters, eval))
    ensures forall k :: k in Keys(ParseInto(ret, filters, eval)) ==> "filter[" <= k
    decreases |filters|
  {
    if filters != [] {
      var n, v := filters[0].0, Evaluate(filters[0].1, eval);
      SetDistinct(ret, Wrap(n), v);
      SetKeys(ret, Wrap(n), v);
      assert "filter[" <= Wrap(n);
      ParseIntoShape(Set(ret, Wrap(n), v), filters[1..], eval);
    }
  }

  /** `WPApi.parseFilters(filters)`: an object whose names are all of the
      form `filter[...]`. */
  function ParseFilters(filters: Filters, eval: ProviderId -> string): (r: Params)
    ensures DistinctKeys(r)
    ensures forall k :: k in Keys(r) ==> "filter[" <= k
  {
    ParseIntoShape([], filters, eval);
    ParseInto([], filters, eval)
  }

  /** Assigning a key not yet present appends it. */
  lemma SetAppends<V>(l: seq<(string, V)>, k: string, v: V)
    requires k !in Keys(l)
    ensures Set(l, k, v) == l + [(k, v)]
  {
    if l != [] {
      SetAppends(l[1..], k, v);
      assert Keys(l) == [l[0].0] + Keys(l[1..]);
    }
  }

  /** `parseFilters` keeps the order of its input, wraps every name and
      evaluates every value. */
  lemma {:induction false} ParseIntoWrapped(ret: Params, filters: Filters, eval: ProviderId -> string)
    requires DistinctKeys(filters)
    requires forall n :: n in Keys(filters) ==> Wrap(n) !in Keys(ret)
    ensures ParseInto(ret, filters, eval) == ret + Wrapped(filters, eval)
    decreases |filters|
  {
    if filters != [] {
      var (n, v) := filters[0];
      assert n in Keys(filters);
      SetAppends(ret, Wrap(n), Evaluate(v, eval));
      var ret' := ret + [(Wrap(n), Evaluate(v, eval))];
      assert DistinctKeys(filters[1..]) by {
        forall i, j | 0 <= i < j < |filters| - 1 ensures filters[1..][i].0 != filters[1..][j].0 {
          assert filters[i + 1].0 != filters[j + 1].0;
        }
      }
      forall m | m in Keys(filters[1..]) ensures Wrap(m) !in Keys(ret') {
        var j :| 0 <= j < |filters| - 1 && Keys(filters[1..])[j] == m;
        assert filters[j + 1].0 == m;
        assert m in Keys(filters);
        assert m != n;
        if Wrap(m) == Wrap(n) { WrapInjective(m, n); }
        assert Keys(ret') == Keys(ret) + [Wrap(n)];
      }
      ParseIntoWrapped(ret', filters[1..], eval);
      assert Wrapped(filters, eval) == [(Wrap(n), Evaluate(v, eval))] + Wrapped(filters[1..], eval);
    }
  }

  lemma ParseFiltersWrapped(filters: Filters, eval: ProviderId -> string)
    requires DistinctKeys(filters)
    ensures ParseFilters(filters, eval) == Wrapped(filters, eval)
  {
    ParseIntoWrapped([], filters, eval);
  }

  /** The wire parameter `filter[n]` carries the evaluated value of filter
      `n`; a name that is not of the form `filter[...]` of a filter is absent. */
  lemma {:induction false} WrappedLookup(filters: Filters, eval: ProviderId -> string, k: string)
    ensures Lookup(Wrapped(filters, eval), k) ==
              if exists n :: Wrap(n) == k && n in Keys(filters)
              then (var n :| Wrap(n) == k && n in Keys(filters);
                    match Lookup(filters, n)
                    case Some(v) => Some(Evaluate(v, eval))
                    case None => None)
              else None
    decreases |filters|
  {
    if filters != [] {
      var w := Wrapped(filters, eval);
      assert w[1..] == Wrapped(filters[1..], eval);
      WrappedLookup(filters[1..], eval, k);
      assert Keys(filters) == [filters[0].0] + Keys(filters[1..]);
      if exists n :: Wrap(n) == k && n in Keys(filters) {
        var n :| Wrap(n) == k && n in Keys(filters);
        forall m | Wrap(m) == k ensures m == n { WrapInjective(m, n); }
      }
    }
  }

  /** The filters of one request: `angular.extend({}, defaults, scope, filters)`. */
  function MergedFilters(defaults: Filters, scope: Filters, filters: Filters): (r: Filters)
    ensures DistinctKeys(r)
    ensures forall n :: n in Keys(r) <==> n in Keys(defaults) || n in Keys(scope) || n in Keys(filters)
  {
    ExtendKeys([], defaults);
    ExtendKeys(Extend([], defaults), scope);
    ExtendKeys(Extend(Extend([], defaults), scope), filters);
    assert forall n :: n in Keys(Extend(Extend(Extend([], defaults), scope), filters)) <==>
                         n in Keys(defaults) || n in Keys(scope) || n in Keys(filters) by {
      forall n ensures n in Keys(Extend(Extend(Extend([], defaults), scope), filters)) <==>
                         n in Keys(defaults) || n in Keys(scope) || n in Keys(filters) {
        ExtendKeySet([], defaults, n);
        ExtendKeySet(Extend([], defaults), scope, n);
        ExtendKeySet(Extend(Extend([], defaults), scope), filters, n);
      }
    }
    Extend(Extend(Extend([], defaults), scope), filters)
  }

  /** The wire parameters of one request: the merged filters parsed, then the
      extra parameters assigned over them. */
  function Compose(defaults: Filters, scope: Filters, filters: Filters, params: Params,
                   eval: ProviderId -> string): (r: Params)
    ensures DistinctKeys(r)
    ensures forall k :: k in Keys(r) <==> k in Keys(params) || k in Keys(ParseFilters(MergedFilters(defaults, scope, filters), eval))
    ensures forall k :: k in Keys(r) ==> k in Keys(params) || "filter[" <= k
  {
    var parsed := ParseFilters(MergedFilters(defaults, scope, filters), eval);
    ExtendKeys(parsed, params);
    assert forall k :: k in Keys(Extend(parsed, params)) <==> k in Keys(params) || k in Keys(parsed) by {
      forall k ensures k in Keys(Extend(parsed, params)) <==> k in Keys(params) || k in Keys(parsed) {
        ExtendKeySet(parsed, params, k);
      }
    }
    Extend(parsed, params)
  }

  /** The value filter `n` takes in a request: the call-time filter wins over
      the scope, the scope over the defaults. */
  function Winner(defaults: Filters, scope: Filters, filters: Filters, n: string): Option<FilterValue>
  {
    if n in Keys(filters) then Lookup(filters, n)
    else if n in Keys(scope) then Lookup(scope, n)
    else Lookup(defaults, n)
  }

  lemma MergedDistinct(defaults: Filters, scope: Filters, filters: Filters)
    ensures DistinctKeys(MergedFilters(defaults, scope, filters))
  {
    ExtendKeys([], defaults);
    ExtendKeys(Extend([], defaults), scope);
    ExtendKeys(Extend(Extend([], defaults), scope), filters);
  }

  lemma MergedLookup(defaults: Filters, scope: Filters, filters: Filters, n: string)
    requires DistinctKeys(defaults) && DistinctKeys(scope) && DistinctKeys(filters)
    ensures Lookup(MergedFilters(defaults, scope, filters), n) == Winner(defaults, scope, filters, n)
  {
    ExtendLookup([], defaults, n);
    ExtendLookup(Extend([], defaults), scope, n);
    ExtendLookup(Extend(Extend([], defaults), scope), filters, n);
  }

  /** Merge precedence of a request: for a wire name `filter[n]` that no extra
      parameter takes, its value is that of the winning scope's filter `n`,
      a provider replaced by its result and a literal passed through; a wire
      name that is neither an extra parameter nor a wrapped filter is absent. */
  lemma ComposeFilterValue(defaults: Filters, scope: Filters, filters: Filters, params: Params,
                           eval: ProviderId -> string, n: string)
    requires DistinctKeys(defaults) && DistinctKeys(scope) && DistinctKeys(filters) && DistinctKeys(params)
    requires Wrap(n) !in Keys(params)
    ensures Lookup(Compose(defaults, scope, filters, params, eval), Wrap(n)) ==
              match Winner(defaults, scope, filters, n)
              case Some(v) => Some(Evaluate(v, eval))
              case None => None
  {
    var merged := MergedFilters(defaults, scope, filters);
    MergedDistinct(defaults, scope, filters);
    MergedLookup(defaults, scope, filters, n);
    ExtendLookup(ParseFilters(merged, eval), params, Wrap(n));
    ParseFiltersWrapped(merged, eval);
    WrappedLookup(merged, eval, Wrap(n));
    if n in Keys(merged) {
      assert exists m :: Wrap(m) == Wrap(n) && m in Keys(merged);
      forall m | Wrap(m) == Wrap(n) ensures m == n { WrapInjective(m, n); }
    } else {
      forall m | Wrap(m) == Wrap(n) ensures m !in Keys(merged) { WrapInjective(m, n); }
    }
  }

  /** Extra parameters are sent unwrapped and win every clash. */
  lemma ComposeParamValue(defaults: Filters, scope: Filters, filters: Filters, params: Params,
                          eval: ProviderId -> string, k: string)
    requires DistinctKeys(params)
    requires k in Keys(params)
    ensures Lookup(Compose(defaults, scope, filters, params, eval), k) == Lookup(params, k)
  {
    ExtendLookup(ParseFilters(MergedFilters(defaults, scope, filters), eval), params, k);
  }

  /** Order of the wire parameters: the wrapped merged filters in merge order,
      then the extra parameters not already present; no name twice. */
  lemma ComposeKeys(defaults: Filters, scope: Filters, filters: Filters, params: Params,
                    eval: ProviderId -> string)
    ensures Keys(Compose(defaults, scope, filters, params, eval)) ==
              AppendNew(Keys(Wrapped(MergedFilters(defaults, scope, filters), eval)), Keys(params))
    ensures DistinctKeys(Compose(defaults, scope, filters, params, eval))
  {
    var merged := MergedFilters(defaults, scope, filters);
    MergedDistinct(defaults, scope, filters);
    ParseFiltersWrapped(merged, eval);
    assert DistinctKeys(Wrapped(merged, eval)) by {
      forall i, j | 0 <= i < j < |merged|
        ensures Wrapped(merged, eval)[i].0 != Wrapped(merged, eval)[j].0
      {
        if Wrap(merged[i].0) == Wrap(merged[j].0) { WrapInjective(merged[i].0, merged[j].0); }
      }
    }
    ExtendKeys(ParseFilters(merged, eval), params);
  }

  /** The providers a request calls, in merge order: each provider of the
      merged filters exactly once. */
  function Invoked(merged: Filters): (ids: seq<ProviderId>)
    ensures forall id :: id in ids <==> exists i :: 0 <= i < |merged| && merged[i].1 == Provider(id)
  {
    if merged == [] then []
    else
      assert forall i :: 0 < i < |merged| ==> merged[i] == merged[1..][i - 1];
      (if merged[0].1.Provider? then [merged[0].1.id] else []) + Invoked(merged[1..])
  }

  /** Name and value of one parameter, concatenated without a separator. */
  function Piece(e: (string, string)): string
  {
    e.0 + e.1
  }

  /** The pieces of all parameters, in parameter order. */
  function Pieces(p: Params): (r: seq<string>)
    ensures |r| == |p|
  {
    MapSeq(Piece, p)
  }

  function MapSeq<T, U>(f: T -> U, s: seq<T>): (r: seq<U>)
    ensures |r| == |s|
    ensures forall i :: 0 <= i < |s| ==> r[i] == f(s[i])
  {
    seq(|s|, i requires 0 <= i < |s| => f(s[i]))
  }

  function Concat(ss: seq<string>): string
  {
    if ss == [] then "" else ss[0] + Concat(ss[1..])
  }

  /** `WPApi.getCacheKey(filters)`: the pieces sorted, joined, and prefixed. */
  function CacheKey(p: Params): (key: string)
    ensures |key| >= 3 && key[..3] == "qf_"
  {
    "qf_" + Concat(StringSort.Sort(Pieces(p)))
  }

  /** Taking out the element at `j` takes out its image. */
  lemma MapSeqRemove<T, U>(f: T -> U, q: seq<T>, j: nat)
    requires j < |q|
    ensures multiset(MapSeq(f, q)) == multiset(MapSeq(f, q[..j] + q[j + 1..])) + multiset{f(q[j])}
  {
    var m := MapSeq(f, q);
    assert m == m[..j] + [m[j]] + m[j + 1..];
    assert MapSeq(f, q[..j] + q[j + 1..]) == m[..j] + m[j + 1..];
  }

  lemma MultisetRemoveAt<T>(q: seq<T>, j: nat)
    requires j < |q|
    ensures multiset(q[..j] + q[j + 1..]) == multiset(q) - multiset{q[j]}
  {
    assert q == q[..j] + [q[j]] + q[j + 1..];
  }

  lemma MapSeqCons<T, U>(f: T -> U, p: seq<T>)
    requires p != []
    ensures multiset(p[1..]) == multiset(p) - multiset{p[0]}
    ensures multiset(MapSeq(f, p)) == multiset{f(p[0])} + multiset(MapSeq(f, p[1..]))
  {
    assert p == [p[0]] + p[1..];
    assert MapSeq(f, p) == [f(p[0])] + MapSeq(f, p[1..]);
  }

  /** Reordering a sequence reorders its images. */
  lemma {:induction false} MapSeqPermutation<T, U>(f: T -> U, p: seq<T>, q: seq<T>)
    requires multiset(p) == multiset(q)
    ensures multiset(MapSeq(f, p)) == multiset(MapSeq(f, q))
    decreases |p|
  {
    if p == [] {
      assert |q| == |multiset(q)| == 0;
    } else {
      assert p[0] in q by { assert p[0] in multiset(q); }
      var j :| 0 <= j < |q| && q[j] == p[0];
      MultisetRemoveAt(q, j);
      MapSeqCons(f, p);
      MapSeqPermutation(f, p[1..], q[..j] + q[j + 1..]);
      MapSeqRemove(f, q, j);
    }
  }

  /** Reordering the parameters reorders their pieces. */
  lemma PiecesPermutation(p: Params, q: Params)
    requires multiset(p) == multiset(q)
    ensures multiset(Pieces(p)) == multiset(Pieces(q))
  {
    MapSeqPermutation(Piece, p, q);
  }

  /** The cache key does not depend on the order of the parameters. */
  lemma CacheKeyOrderIndependent(p: Params, q: Params)
    requires multiset(p) == multiset(q)
    ensures CacheKey(p) == CacheKey(q)
  {
    PiecesPermutation(p, q);
    StringSort.SortPermutationInvariant(Pieces(p), Pieces(q));
  }

  /** The cache key is not injective: name `a` with value `1x` and name `a1`
      with value `x` share a key. */
  lemma CacheKeyCollision()
    ensures CacheKey([("a", "1x")]) == CacheKey([("a1", "x")])
    ensures [("a", "1x")] != [("a1", "x")]
  {
    assert "a" + "1x" == "a1" + "x";
    assert Pieces([("a", "1x")]) == Pieces([("a1", "x")]);
  }

  /** `&name=value` for every parameter, in enumeration order. */
  function QueryString(p: Params): (r: string)
    ensures r == "" <==> p == []
    ensures p != [] ==> r[0] == '&'
  {
    if p == [] then "" else "&" + p[0].0 + "=" + p[0].1 + QueryString(p[1..])
  }

  /** The query of a parameter object built in two parts is the two
      queries one after the other. */
  lemma {:induction false} QueryStringConcat(p: Params, q: Params)
    ensures QueryString(p + q) == QueryString(p) + QueryString(q)
    decreases |p|
  {
    if p != [] {
      assert (p + q)[0] == p[0];
      assert (p + q)[1..] == p[1..] + q;
      QueryStringConcat(p[1..], q);
      var h := "&" + p[0].0 + "=" + p[0].1;
      assert QueryString(p + q) == h + QueryString(p[1..] + q);
      assert QueryString(p) == h + QueryString(p[1..]);
    } else {
      assert p + q == q;
    }
  }

  /** How the template literal prints the module's `url`: `undefined` until
      `setBaseUrl` has run. */
  function BaseText(url: Option<string>): string
  {
    match url
    case None => "undefined"
    case Some(u) => u
  }

  /** The list request URL. */
  function ListUrl(url: Option<string>, endpoint: string, p: Params): (r: string)
    ensures BaseText(url) + "index.php?json_route=" + endpoint <= r
    ensures p == [] <==> r == BaseText(url) + "index.php?json_route=" + endpoint
  {
    BaseText(url) + "index.php?json_route=" + endpoint + QueryString(p)
  }

  /** The single-item request URL. */
  function ItemUrl(url: Option<string>, endpoint: string, slug: string, p: Params): (r: string)
    ensures r == ListUrl(url, endpoint + "/" + slug, p)
  {
    BaseText(url) + "index.php?json_route=" + endpoint + "/" + slug + QueryString(p)
  }

  /** `endpoint.replace(/^\/?/, '/')`: an optional leading slash becomes one. */
  function NormalizeEndpoint(e: string): (r: string)
    ensures |r| > 0 && r[0] == '/'
    ensures r[1..] == if |e| > 0 && e[0] == '/' then e[1..] else e
  {
    if |e| > 0 && e[0] == '/' then e else "/" + e
  }

  lemma NormalizeEndpointIdempotent(e: string)
    ensures NormalizeEndpoint(NormalizeEndpoint(e)) == NormalizeEndpoint(e)
  {
  }

  /** `_url.replace(/\/?$/, '/')`: an optional trailing slash becomes one. */
  function NormalizeBaseUrl(u: string): (r: string)
    ensures |r| > 0 && r[|r| - 1] == '/'
    ensures r[..|r| - 1] == if |u| > 0 && u[|u| - 1] == '/' then u[..|u| - 1] else u
  {
    if |u| > 0 && u[|u| - 1] == '/' then u else u + "/"
  }

  lemma NormalizeBaseUrlIdempotent(u: string)
    ensures NormalizeBaseUrl(NormalizeBaseUrl(u)) == NormalizeBaseUrl(u)
  {
  }
}
