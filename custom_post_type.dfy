/** The REST endpoint class `Q_JSON_CustomPostType`: the set-once custom
    post-status configuration that `WP_Alquimia` hands to it, the three filters
    through which it lets the WordPress JSON API see posts with those
    statuses, and the way `get_post`, `edit_post` and `delete_post` accept a
    post slug where the parent class expects a numeric ID. */
module CustomPostType {

  import opened Options
  import opened AssocList
  import opened Php

  // ------------------------------------------------------- status filtering

  /** The test `filter_post_status` and `allow_post_with_custom_status_reading`
      apply to a status, as written: the configuration of `status` is not
      empty, its `show_in_json` is not empty, and it is `=== true`. */
  predicate ShownInJson(postStatuses: Value, status: string)
  {
    var config := Index(postStatuses, status);
    !Empty(config) && !Empty(Index(config, "show_in_json")) && Index(config, "show_in_json") == Bool(true)
  }

  /** The two emptiness tests are implied by the third: a status is shown
      exactly when its configuration holds `show_in_json => true`, and then the
      whole configuration is not empty either. */
  lemma ShownInJsonMeaning(postStatuses: Value, status: string)
    ensures ShownInJson(postStatuses, status) <==>
              Index(Index(postStatuses, status), "show_in_json") == Bool(true)
    ensures ShownInJson(postStatuses, status) ==> !Empty(postStatuses)
  {
    var config := Index(postStatuses, status);
    if Index(config, "show_in_json") == Bool(true) {
      assert config != Null;
      assert config.Array? && config.entries != [];
      assert postStatuses.Array? && postStatuses.entries != [];
    }
  }

  /** The elements of `s` that pass `keep`, in their original order. */
  function Kept(keep: string -> bool, s: seq<string>): seq<string>
  {
    if s == [] then []
    else (if keep(s[0]) then [s[0]] else []) + Kept(keep, s[1..])
  }

  lemma {:induction false} KeptAppend(keep: string -> bool, s: seq<string>, t: seq<string>)
    ensures Kept(keep, s + t) == Kept(keep, s) + Kept(keep, t)
  {
    if s == [] {
      assert s + t == t;
    } else {
      assert (s + t)[0] == s[0] && (s + t)[1..] == s[1..] + t;
      KeptAppend(keep, s[1..], t);
    }
  }

  lemma KeptSingle(keep: string -> bool, x: string)
    ensures Kept(keep, [x]) == if keep(x) then [x] else []
  {
    assert [x][1..] == [];
  }

  lemma {:induction false} KeptMembership(keep: string -> bool, s: seq<string>, x: string)
    ensures x in Kept(keep, s) <==> x in s && keep(x)
  {
    if s != [] {
      KeptMembership(keep, s[1..], x);
      assert s == [s[0]] + s[1..];
    }
  }

  /** `a` is `b` with some elements removed, the rest kept in order. */
  predicate SubsequenceOf(a: seq<string>, b: seq<string>)
    decreases |b|
  {
    if a == [] then true
    else if b == [] then false
    else (a[0] == b[0] && SubsequenceOf(a[1..], b[1..])) || SubsequenceOf(a, b[1..])
  }

  lemma {:induction false} KeptSubsequence(keep: string -> bool, s: seq<string>)
    ensures SubsequenceOf(Kept(keep, s), s)
  {
    if s != [] {
      KeptSubsequence(keep, s[1..]);
      var rest := Kept(keep, s[1..]);
      if keep(s[0]) {
        assert Kept(keep, s) == [s[0]] + rest;
        assert ([s[0]] + rest)[1..] == rest;
      } else {
        assert Kept(keep, s) == rest;
      }
    }
  }

  /** The status test as a function value. */
  function ShownTest(postStatuses: Value): string -> bool
  {
    status => ShownInJson(postStatuses, status)
  }

  /** The statuses of `statuses` that are shown, in their original order. */
  function Shown(postStatuses: Value, statuses: seq<string>): seq<string>
  {
    Kept(ShownTest(postStatuses), statuses)
  }

  /** Filtering a concatenation filters each part. */
  lemma ShownAppend(postStatuses: Value, s: seq<string>, t: seq<string>)
    ensures Shown(postStatuses, s + t) == Shown(postStatuses, s) + Shown(postStatuses, t)
  {
    KeptAppend(ShownTest(postStatuses), s, t);
  }

  /** A status is kept exactly when it was asked for and is shown. */
  lemma ShownMembership(postStatuses: Value, statuses: seq<string>, x: string)
    ensures x in Shown(postStatuses, statuses) <==> x in statuses && ShownInJson(postStatuses, x)
  {
    KeptMembership(ShownTest(postStatuses), statuses, x);
  }

  /** The filter keeps the order of its input and adds nothing to it. */
  lemma ShownSubsequence(postStatuses: Value, statuses: seq<string>)
    ensures SubsequenceOf(Shown(postStatuses, statuses), statuses)
  {
    KeptSubsequence(ShownTest(postStatuses), statuses);
  }

  /** The argument `filter_post_status` receives: one status or a list. */
  datatype StatusQuery = One(status: string) | Many(statuses: seq<string>)

  /** The argument normalised to a list, as `array( $post_status )` does. */
  function AsList(query: StatusQuery): (l: seq<string>)
    ensures query.One? ==> l == [query.status]
    ensures query.Many? ==> l == query.statuses
  {
    match query
    case One(s) => [s]
    case Many(ss) => ss
  }

  // ------------------------------------------------ slug / numeric dispatch

  /** A `WP_Error`, such as `json_invalid_post_slug` from the slug lookup. */
  datatype WpError = WpError(code: string, message: string)

  /** What `get_post_id` (or Polylang's `pll_get_post`) yields. */
  datatype PostId = Found(id: Value) | Failed(error: WpError)

  /** What an endpoint method returns: the parent method's answer, or an
      error handed back without calling the parent. */
  datatype Response<R> = Parent(result: R) | Error(error: WpError)

  /** Calls the parent method with a looked-up ID, unless the lookup failed. */
  function Deliver<R>(id: PostId, parent: Value -> R): (r: Response<R>)
    ensures id.Failed? ==> r == Error(id.error)
    ensures id.Found? ==> r == Parent(parent(id.id))
  {
    match id
    case Found(v) => Parent(parent(v))
    case Failed(e) => Error(e)
  }

  /** `edit_post` and `delete_post`: a numeric argument goes to the parent as
      it is; anything else is looked up as a slug, and the lookup's error is
      returned as it is.  `parent` is the parent method with the remaining
      arguments (`$data` and `$_headers`, or `$force`) already supplied. */
  function Dispatch<R>(slug: string, lookup: string -> PostId, parent: Value -> R): (r: Response<R>)
    ensures IsNumeric(slug) ==> r == Parent(parent(Str(slug)))
    ensures !IsNumeric(slug) && lookup(slug).Failed? ==> r == Error(lookup(slug).error)
    ensures !IsNumeric(slug) && lookup(slug).Found? ==> r == Parent(parent(lookup(slug).id))
  {
    if IsNumeric(slug) then Parent(parent(Str(slug)))
    else Deliver(lookup(slug), parent)
  }

  /** `get_post`: the same dispatch, except that with Polylang active and a
      non-empty `lang` filter the looked-up ID is first replaced by its
      translation, and that replacement happens before the error test. */
  function GetPost<R>(slug: string, filter: Value, plugins: seq<string>, lookup: string -> PostId,
                      translate: (PostId, Value) -> PostId, parent: Value -> R): (r: Response<R>)
    ensures IsNumeric(slug) ==> r == Parent(parent(Str(slug)))
    ensures !("polylang/polylang.php" in plugins && Truthy(Index(filter, "lang"))) ==>
              r == Dispatch(slug, lookup, parent)
    ensures !IsNumeric(slug) && "polylang/polylang.php" in plugins && Truthy(Index(filter, "lang")) ==>
              r == Deliver(translate(lookup(slug), Index(filter, "lang")), parent)
  {
    if IsNumeric(slug) then Parent(parent(Str(slug)))
    else
      var id := lookup(slug);
      var id := if "polylang/polylang.php" in plugins && !Empty(Index(filter, "lang"))
                then translate(id, Index(filter, "lang")) else id;
      Deliver(id, parent)
  }

  /** A numeric argument never reaches the slug lookup: the answer is the
      same whatever the lookup would have said. */
  lemma NumericSkipsLookup<R>(slug: string, lookup: string -> PostId, lookup': string -> PostId,
                              parent: Value -> R)
    requires IsNumeric(slug)
    ensures Dispatch(slug, lookup, parent) == Dispatch(slug, lookup', parent)
    ensures Dispatch(slug, lookup, parent) == Parent(parent(Str(slug)))
  {
  }

  /** A failed lookup never reaches the parent: the answer is the lookup's
      error whatever the parent would have done. */
  lemma LookupErrorSkipsParent<R>(slug: string, lookup: string -> PostId, parent: Value -> R,
                                  parent': Value -> R)
    requires !IsNumeric(slug) && lookup(slug).Failed?
    ensures Dispatch(slug, lookup, parent) == Dispatch(slug, lookup, parent')
    ensures Dispatch(slug, lookup, parent) == Error(lookup(slug).error)
  {
  }

  /** An ordinary slug, one without digits, always goes through the lookup. */
  lemma SlugIsLookedUp<R>(slug: string, lookup: string -> PostId, parent: Value -> R)
    requires forall i :: 0 <= i < |slug| ==> !IsDigit(slug[i])
    ensures Dispatch(slug, lookup, parent) == Deliver(lookup(slug), parent)
  {
    NoDigitNotNumeric(slug);
  }

  /** A post ID written in digits always goes straight to the parent. */
  lemma IdGoesToParent<R>(slug: string, lookup: string -> PostId, parent: Value -> R)
    requires slug != [] && forall i :: 0 <= i < |slug| ==> IsDigit(slug[i])
    ensures Dispatch(slug, lookup, parent) == Parent(parent(Str(slug)))
  {
    DigitsAreNumeric(slug);
  }

  /** A slug in exponent notation, which the route pattern `[a-z0-9\-]+`
      admits, is taken for a post ID and never looked up. */
  lemma ExponentSlugTakenForId<R>(lookup: string -> PostId, parent: Value -> R)
    ensures Dispatch("1e5", lookup, parent) == Parent(parent(Str("1e5")))
  {
    ExponentSlugIsNumeric();
  }

  // ------------------------------------------------------------- the class

  /** The names of the filters `allow_custom_post_statuses` registers. */
  const StatusFilterHooks: seq<string> :=
    ["query_vars", "json_query_var-post_status", "json_check_post_read_permission"]

  ghost predicate Distinct(s: seq<string>)
  {
    forall i, j :: 0 <= i < j < |s| ==> s[i] != s[j]
  }

  class QJsonCustomPostType {
    /** The post type served, `$type`: `post` unless a subclass says otherwise. */
    const postType: string
    /** `$post_statuses`: null until `set_post_statuses` first sets it. */
    var postStatuses: Value
    /** `$allow_custom_post_statuses`: null until first set. */
    var allowCustom: Value

    constructor (postType: string)
      ensures this.postType == postType
      ensures postStatuses == Null && allowCustom == Null
    {
      this.postType := postType;
      postStatuses := Null;
      allowCustom := Null;
    }

    /** `set_post_statuses`: takes effect only while the field is null. */
    method SetPostStatuses(statuses: Value)
      modifies this
      ensures old(postStatuses) == Null ==> postStatuses == statuses
      ensures old(postStatuses) != Null ==> postStatuses == old(postStatuses)
      ensures allowCustom == old(allowCustom)
    {
      if postStatuses == Null {
        postStatuses := statuses;
      }
    }

    /** `allow_custom_post_statuses`: takes effect only while the flag is null,
        and only then registers the three status filters (named in `hooks`). */
    method AllowCustomPostStatuses(allow: Value) returns (hooks: seq<string>)
      modifies this
      ensures old(allowCustom) == Null ==> allowCustom == allow && hooks == StatusFilterHooks
      ensures old(allowCustom) != Null ==> allowCustom == old(allowCustom) && hooks == []
      ensures postStatuses == old(postStatuses)
    {
      hooks := [];
      if allowCustom == Null {
        allowCustom := allow;
        hooks := StatusFilterHooks;
      }
    }

    /** `add_post_status_to_valid_query_vars`: adds `post_status` at the end
        when custom statuses are allowed and it is missing. */
    function AddPostStatusToValidQueryVars(queryVars: seq<string>): (r: seq<string>)
      reads this
      ensures r == queryVars || r == queryVars + ["post_status"]
      ensures "post_status" in r <==> "post_status" in queryVars || Truthy(allowCustom)
      ensures "post_status" in queryVars ==> r == queryVars
    {
      if Truthy(allowCustom) && "post_status" !in queryVars then queryVars + ["post_status"]
      else queryVars
    }

    /** Adding twice is adding once. */
    lemma AddPostStatusIdempotent(queryVars: seq<string>)
      ensures AddPostStatusToValidQueryVars(AddPostStatusToValidQueryVars(queryVars))
           == AddPostStatusToValidQueryVars(queryVars)
    {
    }

    /** The filter never creates a duplicate entry. */
    lemma AddPostStatusKeepsDistinct(queryVars: seq<string>)
      requires Distinct(queryVars)
      ensures Distinct(AddPostStatusToValidQueryVars(queryVars))
    {
      var r := AddPostStatusToValidQueryVars(queryVars);
      if r != queryVars {
        forall i, j | 0 <= i < j < |r| ensures r[i] != r[j] {
          if j == |queryVars| {
            assert r[i] == queryVars[i];
          }
        }
      }
    }

    /** `filter_post_status`: when custom statuses are allowed, the requested
        statuses (one or a list) that are shown, in order; otherwise the
        argument untouched. */
    method FilterPostStatus(query: StatusQuery) returns (r: StatusQuery)
      ensures !Truthy(allowCustom) ==> r == query
      ensures Truthy(allowCustom) ==> r == Many(Shown(postStatuses, AsList(query)))
    {
      if !Truthy(allowCustom) {
        return query;
      }
      var statuses := match query case One(s) => [s] case Many(ss) => ss;
      var valid: seq<string> := [];
      for i := 0 to |statuses|
        invariant valid == Shown(postStatuses, statuses[..i])
      {
        if ShownInJson(postStatuses, statuses[i]) {
          valid := valid + [statuses[i]];
        }
        KeptAppend(ShownTest(postStatuses), statuses[..i], [statuses[i]]);
        KeptSingle(ShownTest(postStatuses), statuses[i]);
        assert statuses[..i + 1] == statuses[..i] + [statuses[i]];
      }
      assert statuses[..|statuses|] == statuses;
      r := Many(valid);
    }

    /** `allow_post_with_custom_status_reading`, for a post whose `post_status`
        is `postStatus`: a granted permission is returned as it is; a refused
        one becomes `true` exactly when custom statuses are allowed and the
        status is configured with `show_in_json => true`. */
    function AllowPostWithCustomStatusReading(permission: Value, postStatus: string): (r: Value)
      reads this
      ensures Truthy(permission) ==> r == permission
      ensures !Truthy(permission) ==>
                r == Bool(Truthy(allowCustom) &&
                          Index(Index(postStatuses, postStatus), "show_in_json") == Bool(true))
    {
      ShownInJsonMeaning(postStatuses, postStatus);
      if Truthy(permission) then permission
      else if Truthy(allowCustom) && !Empty(postStatuses) then
        if ShownInJson(postStatuses, postStatus) then Bool(true) else Bool(false)
      else Bool(false)
    }

    /** The permission filter only ever widens access: whatever it returns is
        truthy whenever the incoming permission was. */
    lemma PermissionNeverRevoked(permission: Value, postStatus: string)
      requires Truthy(permission)
      ensures Truthy(AllowPostWithCustomStatusReading(permission, postStatus))
    {
    }

    /** The read permission and the status filter agree: a post whose status
        the filter would keep is readable, and one it would drop is readable
        only if it already was. */
    lemma PermissionMatchesFilter(permission: Value, postStatus: string)
      requires Truthy(allowCustom)
      ensures Truthy(AllowPostWithCustomStatusReading(permission, postStatus)) <==>
                Truthy(permission) || Shown(postStatuses, [postStatus]) == [postStatus]
    {
      ShownInJsonMeaning(postStatuses, postStatus);
      KeptSingle(ShownTest(postStatuses), postStatus);
    }
  }
}
