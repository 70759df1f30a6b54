# Alquimia for WordPress: the API client cache and the JSON endpoint plugin

This project is a Dafny model of the two sides of Alquimia's WordPress
integration:

- **`WPApi`** is the AngularJS client in `assets/wordpress/p-wp-api.js`.
  It is built once per REST endpoint and holds three pieces of state:
  - an item store, from slug to post;
  - a query cache, from a cache key to the list of slugs the query returned;
  - a freshness flag.

  Each query goes through the same steps:
  - It merges three layers of filters: the defaults, the `items` or `item`
    scope, and the caller's own. Later layers win.
  - It wraps each filter name as `filter[name]` and calls any filter given as
    a function.
  - It appends the extra parameters.
  - It computes a cache key: `qf_` followed by the sorted concatenation of
    the name+value pieces.
  - It answers either from the store or from one GET request.
- **`Q_JSON_CustomPostType`** is the PHP endpoint in
  `assets/wp-alquimia/api/class-q-json-customposttype.php`. It looks posts up
  by slug or by numeric ID. It can also let custom post statuses through the
  `post_status` query variable and the read-permission check, but only the
  statuses whose options say `show_in_json => true`.
- **`WP_Alquimia`** is the plugin base class in
  `assets/wp-alquimia/classes/class-wp-alquimia.php`. The model covers four of
  its parts:
  - deriving the endpoint class name from an API file name;
  - wiring custom statuses into each endpoint;
  - registering post types, taxonomies, taxonomy links and post statuses;
  - the OAuth redirect rewriting.

The Dafny modules:

| file | module | contents |
|---|---|---|
| `options.dfy` | `Options` | `Option` |
| `assoc_list.dfy` | `AssocList` | insertion-ordered string-keyed lists: JavaScript objects and PHP arrays |
| `string_sort.dfy` | `StringSort` | the string order and the sort used by `getCacheKey` |
| `wp_api_filters.dfy` | `WpApiFilters` | `parseFilters`, filter merging, `getCacheKey`, URL building, endpoint and base-URL normalisation |
| `wp_api.dfy` | `WpApi` | the `WPApi` and `WPApiProvider` classes |
| `php.dfy` | `Php` | the PHP 8 values and library functions the plugin relies on |
| `custom_post_type.dfy` | `CustomPostType` | `Q_JSON_CustomPostType` |
| `alquimia.dfy` | `Alquimia` | `WP_Alquimia` |

Anything that does input or output is a parameter of the model:
- the `$http` answer (`Http`);
- filter functions (`eval`);
- `config.transform`;
- the `get_post_id` lookup and the parent class's `get_post` / `edit_post` /
  `delete_post`;
- `pll_get_post`;
- `site_url`.

Each query method returns the requests it issued and the filter functions it
called (`Trace`). WordPress registration calls are returned as a log of
`Registration` values.

Two behaviours of the client follow from its code rather than from its doc
comments, and the model reproduces them as written:

- The doc comment of `invalidate()` (line 237 of `p-wp-api.js`) says it
  schedules the cache to be discarded on the next request. The code assigns
  to an undeclared `valid` rather than `this.valid`. Class bodies are
  strict-mode code, so the call throws a `ReferenceError` and the flag stays
  `true`. `WpApi.InvalidateThenQuery` proves that a cached query is still
  answered from cache after `invalidate()`.
- The two list paths return items in different orders:
  - The network path builds its result with `unshift`, so it returns the
    response reversed.
  - The cache path reverses the stored (already reversed) slug list, so it
    returns response order.

  `WpApi.FetchThenReadInResponseOrder` and `WpApi.NetworkAndCacheOrderDiffer`
  state both orders.

Until `setBaseUrl` has run, the provider's URL is unset and the request
templates print it as `undefined` (`WpApiFilters.BaseText`).

## Model

| member | source | states |
|---|---|---|
| AssocList.ExtendLookup | assets/wordpress/p-wp-api.js:114 | `angular.extend`: the value of a key is the source's when the source has it, otherwise the target's |
| AssocList.ExtendKeys | assets/wordpress/p-wp-api.js:116 | `angular.extend` keeps the target's keys in place and appends the new keys in source order; distinct keys stay distinct |
| AssocList.ExtendKeySet | assets/wordpress/p-wp-api.js:114-116 | a key is present after `extend` exactly when it was in the target or in the source |
| AssocList.SetLookup | assets/wordpress/p-wp-api.js:267-269 | after `ret[k] = v`, `k` reads `v` and every other key reads what it read before |
| AssocList.SetKeys | assets/wordpress/p-wp-api.js:267-269 | assigning a new key appends it; assigning an existing key keeps the key order |
| WpApiFilters.WrapInjective | assets/wordpress/p-wp-api.js:267-269 | two filter names with the same `filter[...]` wire name are equal |
| WpApiFilters.ParseFiltersWrapped | assets/wordpress/p-wp-api.js:262-274 | `parseFilters` maps each filter in order to `filter[name]`, carrying the literal value or the function's result |
| WpApiFilters.WrappedLookup | assets/wordpress/p-wp-api.js:262-274 | the wire name `filter[n]` holds the evaluated value of filter `n`; a name not of that form is absent |
| WpApiFilters.ParseFilters | assets/wordpress/p-wp-api.js:262-274 | `parseFilters` builds an object without repeated names, every one of the form `filter[...]` |
| WpApiFilters.MergedFilters | assets/wordpress/p-wp-api.js:114 | the merged filters have no repeated name, and a name is present exactly when some layer has it |
| WpApiFilters.MergedLookup | assets/wordpress/p-wp-api.js:114 | each merged filter takes the caller's value, else the scope's, else the default |
| WpApiFilters.MergedDistinct | assets/wordpress/p-wp-api.js:114 | the merged filter set has no repeated name |
| WpApiFilters.Compose | assets/wordpress/p-wp-api.js:114-116 | the wire parameters have no repeated name; a name is sent exactly when it is an extra parameter or a parsed filter name, so every name not given as a parameter is a `filter[...]` name |
| WpApiFilters.ComposeFilterValue | assets/wordpress/p-wp-api.js:114-116 | in the final parameter set, `filter[n]` carries the winning layer's value of `n`, evaluated, unless a parameter of that name overrides it |
| WpApiFilters.ComposeParamValue | assets/wordpress/p-wp-api.js:116 | an extra parameter always wins over a wrapped filter of the same name |
| WpApiFilters.ComposeKeys | assets/wordpress/p-wp-api.js:114-116 | the final parameter names are the wrapped filter names followed by the new parameter names, without duplicates |
| WpApiFilters.Invoked | assets/wordpress/p-wp-api.js:265-267 | a provider is called exactly when it is the value of some merged filter |
| WpApiFilters.CacheKey | assets/wordpress/p-wp-api.js:276-285 | every cache key starts with `qf_` |
| WpApiFilters.PiecesPermutation | assets/wordpress/p-wp-api.js:279-281 | reordering the parameters only reorders the `name + value` pieces |
| WpApiFilters.CacheKeyOrderIndependent | assets/wordpress/p-wp-api.js:276-285 | two parameter sets with the same entries in any order have the same cache key |
| WpApiFilters.CacheKeyCollision | assets/wordpress/p-wp-api.js:280 | the separator-free concatenation makes `a`=`1x` and `a1`=`x` share a key |
| WpApiFilters.QueryString | assets/wordpress/p-wp-api.js:135 | the query is empty exactly when there are no parameters, and otherwise starts with `&` |
| WpApiFilters.QueryStringConcat | assets/wordpress/p-wp-api.js:135 | the query of two parameter lists in sequence is their two queries in sequence |
| WpApiFilters.ListUrl | assets/wordpress/p-wp-api.js:133-135 | a list URL starts with the base URL and `index.php?json_route=` plus the endpoint, and is exactly that when there are no parameters |
| WpApiFilters.ItemUrl | assets/wordpress/p-wp-api.js:208-210 | a single-item URL is the list URL of the endpoint extended by `/slug`, with the same query |
| WpApiFilters.NormalizeEndpoint | assets/wordpress/p-wp-api.js:79 | the endpoint starts with exactly one added or kept `/`, and the rest is the input without its leading `/` |
| WpApiFilters.NormalizeEndpointIdempotent | assets/wordpress/p-wp-api.js:79 | normalising an endpoint twice changes nothing |
| WpApiFilters.NormalizeBaseUrl | assets/wordpress/p-wp-api.js:296 | the base URL ends with `/`, and the rest is the input without its trailing `/` |
| WpApiFilters.NormalizeBaseUrlIdempotent | assets/wordpress/p-wp-api.js:296 | normalising a base URL twice changes nothing |
| StringSort.Sort | assets/wordpress/p-wp-api.js:283 | `a.sort()` returns a sorted permutation of its input |
| StringSort.SortedUnique | assets/wordpress/p-wp-api.js:283 | two sorted sequences with the same elements are equal |
| StringSort.SortPermutationInvariant | assets/wordpress/p-wp-api.js:283 | sorting gives the same result for any order of the same elements |
| StringSort.BelowTotal | assets/wordpress/p-wp-api.js:283 | any two strings are comparable in the sort order |
| StringSort.BelowTransitive | assets/wordpress/p-wp-api.js:283 | the sort order is transitive |
| StringSort.BelowAntisymmetric | assets/wordpress/p-wp-api.js:283 | strings below each other are equal |
| WpApi.ReverseSnoc | assets/wordpress/p-wp-api.js:152-153 | `unshift` of each arrival builds the arrivals in reverse order |
| WpApi.ReverseReverse | assets/wordpress/p-wp-api.js:124-125 | reading a reversed list in reverse gives back the original order |
| WpApi.StoreAllLast | assets/wordpress/p-wp-api.js:142-151 | after a response, a slug's stored item is its last occurrence, route-rewritten and transformed |
| WpApi.StoreAllOther | assets/wordpress/p-wp-api.js:142-151 | a slug not in the response keeps its stored item |
| WpApi.StoreKeepsCachedSlugs | assets/wordpress/p-wp-api.js:140-153 | writing a response into the store and its slugs into the cache keeps every cached slug present in the store |
| WpApi.FetchThenReadInResponseOrder | assets/wordpress/p-wp-api.js:121-157 | for a response with distinct slugs, reading the same key from cache after the fetch gives the prepared items in response order |
| WpApi.NetworkAndCacheOrderDiffer | assets/wordpress/p-wp-api.js:121-157 | with two or more distinct items, the network answer and the later cache answer are in different orders |
| WpApi.AppendQuery | assets/wordpress/p-wp-api.js:135 | the URL loop appends `&name=value` for each parameter in order |
| WpApi.WPApiProvider.constructor | assets/wordpress/p-wp-api.js:13 | the base URL starts unset |
| WpApi.WPApiProvider.SetBaseUrl | assets/wordpress/p-wp-api.js:294-297 | `setBaseUrl` stores the normalised URL, which ends with `/` |
| WpApi.WPApi.constructor | assets/wordpress/p-wp-api.js:74-84 | a new client has an empty store and cache, is fresh, and keeps the normalised endpoint and the config |
| WpApi.WPApi.ReadCached | assets/wordpress/p-wp-api.js:122-126 | the cache loop returns the stored items of the cached slugs in reverse stored order |
| WpApi.WPApi.PrepareItems | assets/wordpress/p-wp-api.js:112-135 | a fresh, unflushed, cached key is answered from cache; otherwise the list URL is built; the providers of the merged filters are called either way |
| WpApi.WPApi.PrepareEntry | assets/wordpress/p-wp-api.js:143-149 | each response item gets `/ID` appended to its route and is then transformed |
| WpApi.WPApi.OnItemsSuccess | assets/wordpress/p-wp-api.js:137-157 | success stores every prepared item, replaces the key's slug list with the slugs in reverse, sets the flag, and answers the prepared items in reverse |
| WpApi.WPApi.GetItems | assets/wordpress/p-wp-api.js:112-163 | `getItems` on both paths: no request on a cache hit; otherwise one request, whose failure changes nothing and whose success is as in `OnItemsSuccess` |
| WpApi.WPApi.PrepareItem | assets/wordpress/p-wp-api.js:195-210 | a stored, unflushed slug is answered without calling providers; otherwise the item URL is built from the `item` scope |
| WpApi.WPApi.GetItem | assets/wordpress/p-wp-api.js:195-228 | `getItem` never touches the query cache or the flag; success stores the transformed item under the requested slug; failure changes nothing |
| WpApi.WPApi.Invalidate | assets/wordpress/p-wp-api.js:258-260 | `invalidate()` throws a `ReferenceError` for `valid` and changes no state |
| WpApi.InvalidateThenQuery | assets/wordpress/p-wp-api.js:258-260 | a cached query after `invalidate()` sends no request and changes neither store nor cache |
| Php.Index | assets/wp-alquimia/api/class-q-json-customposttype.php:177-179 | `$a[$k]` is the entry under `k` when there is one, and `null` for a missing key or a non-array |
| Php.Empty | assets/wp-alquimia/api/class-q-json-customposttype.php:177-179 | an empty value has no entry: indexing it gives `null` for every key |
| Php.Truthy | assets/wp-alquimia/api/class-q-json-customposttype.php:198 | a truthy value is neither `null` nor `false`, and a truthy array has a key |
| Php.StrPos | assets/wp-alquimia/classes/class-wp-alquimia.php:418 | `strpos` gives the first position where the needle occurs, and `false` exactly when it occurs nowhere |
| Php.OccursInside | assets/wp-alquimia/classes/class-wp-alquimia.php:434-435 | a needle inside a string that occurs in the haystack occurs in the haystack too |
| Php.ReplaceChar | assets/wp-alquimia/classes/class-wp-alquimia.php:420 | `str_replace` of one character replaces each occurrence and nothing else |
| Php.ReplaceCharRemoves | assets/wp-alquimia/classes/class-wp-alquimia.php:420 | after replacing `?` by `&` no `?` is left |
| Php.ToUpper | assets/wp-alquimia/classes/class-wp-alquimia.php:185 | `strtoupper` upper-cases each ASCII letter, keeps length, and leaves no lower-case letter |
| Php.UcFirst | assets/wp-alquimia/classes/class-wp-alquimia.php:189 | `ucfirst` upper-cases the first character only |
| Php.UpperKeepsOthers | assets/wp-alquimia/classes/class-wp-alquimia.php:185-189 | case conversion never introduces a character other than an upper-case letter |
| Php.Explode | assets/wp-alquimia/classes/class-wp-alquimia.php:184 | `explode` gives at least one piece, and no piece contains the delimiter |
| Php.ExplodeImplode | assets/wp-alquimia/classes/class-wp-alquimia.php:184 | joining the pieces of `explode` with the delimiter gives back the string |
| Php.ImplodeExplode | assets/wp-alquimia/classes/class-wp-alquimia.php:184 | exploding a join of delimiter-free pieces gives back the pieces |
| Php.SubstrDropEnd | assets/wp-alquimia/classes/class-wp-alquimia.php:192 | `substr($s, 0, -n)` is a prefix `n` shorter, or `""` when the string has at most `n` characters |
| Php.IsNumeric | assets/wp-alquimia/api/class-q-json-customposttype.php:103 | a numeric string holds at least one digit and does not start with a letter |
| Php.SkipSpace | assets/wp-alquimia/api/class-q-json-customposttype.php:103 | the whitespace scan of `is_numeric` stops at the first non-whitespace character |
| Php.SkipDigits | assets/wp-alquimia/api/class-q-json-customposttype.php:103 | the digit scan of `is_numeric` stops at the first non-digit |
| Php.DigitsAreNumeric | assets/wp-alquimia/api/class-q-json-customposttype.php:103 | a non-empty string of digits is numeric |
| Php.NoDigitNotNumeric | assets/wp-alquimia/api/class-q-json-customposttype.php:103 | a string with no digit is not numeric |
| Php.ExponentSlugIsNumeric | assets/wp-alquimia/api/class-q-json-customposttype.php:103 | `1e5` is numeric |
| CustomPostType.ShownInJsonMeaning | assets/wp-alquimia/api/class-q-json-customposttype.php:177-179 | the three-part test holds exactly when the status's `show_in_json` is the boolean `true`, and then the status table is non-empty |
| CustomPostType.ShownMembership | assets/wp-alquimia/api/class-q-json-customposttype.php:170-182 | a status is kept exactly when it was asked for and is shown in JSON |
| CustomPostType.ShownSubsequence | assets/wp-alquimia/api/class-q-json-customposttype.php:170-182 | the kept statuses are in the order they were asked for |
| CustomPostType.ShownAppend | assets/wp-alquimia/api/class-q-json-customposttype.php:170-182 | filtering a concatenation filters each part |
| CustomPostType.AsList | assets/wp-alquimia/api/class-q-json-customposttype.php:167 | a single status becomes a one-element list; a list is kept |
| CustomPostType.Deliver | assets/wp-alquimia/api/class-q-json-customposttype.php:118-119 | a lookup error is returned as is; a found ID goes to the parent handler |
| CustomPostType.Dispatch | assets/wp-alquimia/api/class-q-json-customposttype.php:122-138 | `edit_post` / `delete_post`: a numeric slug goes to the parent as an ID; otherwise the lookup's error or ID decides |
| CustomPostType.GetPost | assets/wp-alquimia/api/class-q-json-customposttype.php:101-120 | `get_post`: as `Dispatch`, except that with Polylang and a non-empty `lang` the looked-up ID is translated before the error test |
| CustomPostType.NumericSkipsLookup | assets/wp-alquimia/api/class-q-json-customposttype.php:124 | a numeric slug's answer does not depend on the slug lookup |
| CustomPostType.LookupErrorSkipsParent | assets/wp-alquimia/api/class-q-json-customposttype.php:126-127 | a failed lookup's answer does not depend on the parent handler |
| CustomPostType.SlugIsLookedUp | assets/wp-alquimia/api/class-q-json-customposttype.php:124-128 | a slug with no digit is always looked up |
| CustomPostType.IdGoesToParent | assets/wp-alquimia/api/class-q-json-customposttype.php:124 | a slug of digits is passed to the parent as an ID |
| CustomPostType.ExponentSlugTakenForId | assets/wp-alquimia/api/class-q-json-customposttype.php:93-103 | the slug `1e5`, which the route pattern admits, is taken for a post ID |
| CustomPostType.QJsonCustomPostType.constructor | assets/wp-alquimia/api/class-q-json-customposttype.php:46-56 | a new endpoint has neither statuses nor the permission set |
| CustomPostType.QJsonCustomPostType.SetPostStatuses | assets/wp-alquimia/api/class-q-json-customposttype.php:69-73 | the statuses are set only when they were `null`, and nothing else changes |
| CustomPostType.QJsonCustomPostType.AllowCustomPostStatuses | assets/wp-alquimia/api/class-q-json-customposttype.php:82-89 | the permission is set and the three hooks are added only the first time |
| CustomPostType.QJsonCustomPostType.AddPostStatusToValidQueryVars | assets/wp-alquimia/api/class-q-json-customposttype.php:145-152 | `post_status` is appended once, and only when custom statuses are allowed |
| CustomPostType.QJsonCustomPostType.AddPostStatusIdempotent | assets/wp-alquimia/api/class-q-json-customposttype.php:145-152 | running the query-variable filter twice gives what running it once gives |
| CustomPostType.QJsonCustomPostType.AddPostStatusKeepsDistinct | assets/wp-alquimia/api/class-q-json-customposttype.php:146-149 | a list of query variables without repeats keeps having none |
| CustomPostType.QJsonCustomPostType.FilterPostStatus | assets/wp-alquimia/api/class-q-json-customposttype.php:159-188 | when not allowed the argument is returned unchanged; otherwise the list of requested statuses shown in JSON |
| CustomPostType.QJsonCustomPostType.AllowPostWithCustomStatusReading | assets/wp-alquimia/api/class-q-json-customposttype.php:196-218 | a truthy permission is returned as is; otherwise the result is `true` exactly when custom statuses are allowed and the post's status has `show_in_json` set to exactly `true`, and `false` in every other case |
| CustomPostType.QJsonCustomPostType.PermissionNeverRevoked | assets/wp-alquimia/api/class-q-json-customposttype.php:197-198 | a permission that is already truthy stays truthy |
| CustomPostType.QJsonCustomPostType.PermissionMatchesFilter | assets/wp-alquimia/api/class-q-json-customposttype.php:196-218 | when allowed, a post is readable exactly when already permitted or its status would pass `filter_post_status` |
| Alquimia.StrContains | assets/wp-alquimia/classes/class-wp-alquimia.php:485-487 | `str_contains` holds exactly when the needle occurs somewhere |
| Alquimia.IncludesContainsOauth | assets/wp-alquimia/classes/class-wp-alquimia.php:434-435 | a URL containing `wpoauthincludes` contains `oauth` |
| Alquimia.StrPosFinds | assets/wp-alquimia/classes/class-wp-alquimia.php:418 | `strpos` finds the first occurrence |
| Alquimia.RedirectOauth | assets/wp-alquimia/classes/class-wp-alquimia.php:414-440 | `redirect_oauth` answers WordPress's redirect, the requested URL, or the site URL of an `index.php` query with no second `?`; a URL that never mentions `oauth` keeps WordPress's redirect |
| Alquimia.SiteRewrite | assets/wp-alquimia/classes/class-wp-alquimia.php:420-421 | the rewritten target is the site URL of an `index.php` query with every later `?` turned into `&` |
| Alquimia.OauthPathRewritten | assets/wp-alquimia/classes/class-wp-alquimia.php:418-422 | a URL with `oauth/` redirects to `index.php?oauth=` plus the rest after the first `oauth/`, with `?` turned into `&` |
| Alquimia.IncludesPathRewritten | assets/wp-alquimia/classes/class-wp-alquimia.php:423-427 | a URL with `wpoauthincludes/` and no `oauth/` is rewritten the same way to `index.php?wpoauthincludes=` |
| Alquimia.RewrittenUrlKept | assets/wp-alquimia/classes/class-wp-alquimia.php:430-437 | a URL that mentions `oauth` but has neither an `oauth/` nor a `wpoauthincludes/` segment is returned as it is, so a second pass does not redirect again |
| Alquimia.OtherUrlsKeepRedirect | assets/wp-alquimia/classes/class-wp-alquimia.php:439 | a URL without `oauth` keeps WordPress's redirect |
| Alquimia.PieceOr | assets/wp-alquimia/classes/class-wp-alquimia.php:185 | `$pieces[1]` is the piece when present and empty otherwise |
| Alquimia.CamelJoinSnoc | assets/wp-alquimia/classes/class-wp-alquimia.php:188-190 | each loop round appends the `ucfirst` of the next piece |
| Alquimia.DeriveClassName | assets/wp-alquimia/classes/class-wp-alquimia.php:183-193 | the derivation loop computes `ClassNameOf` of the file name |
| Alquimia.ClassNameOfPieces | assets/wp-alquimia/classes/class-wp-alquimia.php:184-193 | the class name of `a-b-c-rest` is upper-cased `b`, `_JSON_`, and the capitalised rest less four characters |
| Alquimia.ClassNameIgnoresPieces | assets/wp-alquimia/classes/class-wp-alquimia.php:184-193 | the first and third pieces of the file name play no part |
| Alquimia.ClassNameExample | assets/wp-alquimia/classes/class-wp-alquimia.php:183 | `class-my-json-my-post-type.php` gives `MY_JSON_MyPostType` |
| Alquimia.CamelJoinNoDash | assets/wp-alquimia/classes/class-wp-alquimia.php:188-190 | joining dash-free pieces gives a dash-free name |
| Alquimia.ClassNameShape | assets/wp-alquimia/classes/class-wp-alquimia.php:185-193 | every derived name is an upper-case prefix, `_JSON_`, then a tail, with no `-` anywhere |
| Alquimia.PostTypeCallsMembership | assets/wp-alquimia/classes/class-wp-alquimia.php:227-233 | a post type is registered exactly when configured and not `post` |
| Alquimia.PostTypeCallsInOrder | assets/wp-alquimia/classes/class-wp-alquimia.php:228-232 | post types are registered in configuration order |
| Alquimia.TaxonomyCallsOfMembership | assets/wp-alquimia/classes/class-wp-alquimia.php:238-242 | a post type's taxonomy is registered exactly when configured and not `category` or `post_tag` |
| Alquimia.TaxonomyCallsMembership | assets/wp-alquimia/classes/class-wp-alquimia.php:236-244 | a taxonomy is registered for a post type exactly when configured under it and not native |
| Alquimia.TaxonomyCallsInOrder | assets/wp-alquimia/classes/class-wp-alquimia.php:237-243 | taxonomies are registered post type by post type, in configuration order |
| Alquimia.ObjectTypeCallsOfMembership | assets/wp-alquimia/classes/class-wp-alquimia.php:249-251 | each listed taxonomy is linked to its post type, and nothing else |
| Alquimia.ObjectTypeCallsMembership | assets/wp-alquimia/classes/class-wp-alquimia.php:247-253 | a taxonomy is linked to a post type exactly when the terms map lists it there |
| Alquimia.StatusCallsOfMembership | assets/wp-alquimia/classes/class-wp-alquimia.php:258-260 | each configured status is registered with its options, and nothing else |
| Alquimia.StatusCallsMembership | assets/wp-alquimia/classes/class-wp-alquimia.php:256-262 | a status is registered exactly when some post type configures it with those options |
| Alquimia.RegisterPostTypes | assets/wp-alquimia/classes/class-wp-alquimia.php:227-233 | the post-type loop issues the calls `PostTypeCalls` describes |
| Alquimia.RegisterTaxonomiesOf | assets/wp-alquimia/classes/class-wp-alquimia.php:238-242 | the inner taxonomy loop issues the calls `TaxonomyCallsOf` describes |
| Alquimia.RegisterTaxonomies | assets/wp-alquimia/classes/class-wp-alquimia.php:236-244 | the taxonomy loops issue the calls `TaxonomyCalls` describes |
| Alquimia.RegisterObjectTypesOf | assets/wp-alquimia/classes/class-wp-alquimia.php:249-251 | the inner terms-map loop issues the calls `ObjectTypeCallsOf` describes |
| Alquimia.RegisterTermsMap | assets/wp-alquimia/classes/class-wp-alquimia.php:247-253 | the terms-map loops issue the calls `ObjectTypeCalls` describes |
| Alquimia.RegisterStatusesOf | assets/wp-alquimia/classes/class-wp-alquimia.php:258-260 | the inner status loop issues the calls `StatusCallsOf` describes |
| Alquimia.RegisterPostStatuses | assets/wp-alquimia/classes/class-wp-alquimia.php:256-262 | the status loops issue the calls `StatusCalls` describes |
| Alquimia.WPAlquimia.constructor | assets/wp-alquimia/classes/class-wp-alquimia.php:48-101 | the plugin holds the four registration tables it is given |
| Alquimia.WPAlquimia.RegisterData | assets/wp-alquimia/classes/class-wp-alquimia.php:225-263 | `register_data` issues the post-type, taxonomy, link and status calls, in that order |
| Alquimia.WPAlquimia.ConfigureEndpoint | assets/wp-alquimia/classes/class-wp-alquimia.php:198-207 | an endpoint whose type has non-empty statuses is allowed custom statuses and given them, each only if unset; any other endpoint is unchanged |

## Left out

- Promises, `$q` and `$http` are left out. The transport's answer is an input to each query, and each query is modelled as running to completion, so overlapping requests and their interleaving are not modelled.
- Filter functions and `config.transform` are modelled as pure functions. Side effects of either, and a truthy `transform` that is not a function (which throws at the call), are not modelled. The constructor's unused copy in `this.transform` is left out.
- The default `config` argument and a config without `filters` (which throws) are not modelled. A config is always given in full.
- WpApi.WPApi.PrepareItems: the cache-hit test is modelled as "the key is present". The source tests whether the stored array is truthy, which is always true for an array.
- WpApi.WPApi.PrepareItem: the store-hit test is modelled as "the slug is present". A transform that returns a falsy value would make the source refetch.
- WpApi.WPApi.PrepareItem, WpApi.WPApi.GetItem, WpApi.WPApi.OnItemsSuccess: the store is a plain object (`this.items = {}`), so the source also hits on names inherited from `Object.prototype`. For example, `getItem("constructor")` on a fresh client resolves with the `Object` function and sends no request; the model sends the request. Storing an item under the slug `__proto__` replaces the store's prototype instead of adding an entry; the model adds an entry. The model's store has only its own entries.
- WpApi.FetchThenReadInResponseOrder: proved for responses whose slugs are distinct. With a repeated slug, the cache read gives the last copy at every position of that slug (`[P(a2), P(b), P(a2)]` for `[a1, b, a2]`). That case follows from `WpApi.StoreAllLast`, not from this lemma.
- The source mutates the response objects in place (`item.route = …`) and then shares them between the store and the caller. The model works on values, so this aliasing is not captured.
- JavaScript's `for … in` enumeration puts integer-like keys first. The model keeps insertion order for every key. Non-string filter values are represented by their string conversion.
- StringSort.Sort: orders by Unicode scalar value, whereas `Array.prototype.sort` orders by UTF-16 code units. The two differ only for characters outside the Basic Multilingual Plane.
- WpApi.WPApiProvider: `$get`'s dependency wiring is left out.
- `add_filter` / `add_action` wiring is modelled only as the list of hook names that `allow_custom_post_statuses` registers. The `json_endpoints` route registration (`register_routes`) is left out.
- `init_api`'s `scandir`, `require_once`, `new $class_name` and `method_exists` are left out. Endpoints are modelled as `QJsonCustomPostType` objects. The OAuth cookie flag (lines 209-213 of `class-wp-alquimia.php`) and the `Q_JSON_Users` endpoint are not part of this model.
- `WP_Alquimia`'s constructor side effects, `init`, `add_translations`, `rename_data`, `rename_menus`, `populate_post_status_dropdown`, `send_cors_headers` and `template_redirect_oauth` are left out. They are WordPress hook wiring, admin UI and HTTP header output.
- `prepare_post` (the ACF `get_field` merge) is left out. It only reads data from the ACF plugin.
- `get_post_id` in `class-q-sluggedcustomposttype.php` is not part of this model. It is the `lookup` parameter.
- The parent class's `get_post` / `edit_post` / `delete_post` become the `parent` parameter. `$context`, `$data`, `$_headers` and `$force` are folded into it.
- CustomPostType.QJsonCustomPostType.AllowPostWithCustomStatusReading: the post is represented by its `post_status` string. A post array without that key is not modelled.
- PHP values leave out floats, objects and integer array keys. Keys are strings, and in the tables compared with `!=` in `register_data` the integer/string difference does not change the outcome.
- Php.IsNumeric: follows PHP 8's grammar (surrounding whitespace allowed). PHP 7, which rejects trailing whitespace, is not modelled.
- Php.SubstrDropEnd, Php.ToUpper, Php.UcFirst: a string is a sequence of single-byte characters. File names with multi-byte UTF-8 characters, whose bytes PHP counts one by one, are not modelled.
- Php.ToUpper: covers ASCII letters only, as PHP 8.2's locale-independent `strtoupper` does; locale-dependent case mapping is not modelled.
- The install and index scripts (`install.js`, `indexes.js`, `jsIndex.js`, `wp-alquimia.php`, `sample.php`) are not part of this model.
