/** The plugin base class `WP_Alquimia`: how `init_api` derives the class name
    of an endpoint from its file name and hands the custom post-status
    configuration to the endpoint, how `redirect_oauth` turns the OAuth2
    server's pretty URLs back into query URLs, and which configured entries
    `register_data` registers with WordPress, in which order. */
module Alquimia {

  import opened Options
  import opened AssocList
  import opened Php
  import opened CustomPostType

  // ------------------------------------------------------------ str_contains

  /** `str_contains($needle, $haystack)`. */
  function StrContains(needle: string, haystack: string): (r: bool)
    ensures r <==> exists j :: OccursAt(haystack, needle, j)
  {
    StrPos(haystack, needle).Some?
  }

  /** Every URL containing `wpoauthincludes` contains `oauth`, so the second
      test of the pass-through check in `redirect_oauth` never decides
      anything. */
  lemma IncludesContainsOauth(url: string)
    ensures StrContains("wpoauthincludes", url) ==> StrContains("oauth", url)
  {
    if StrContains("wpoauthincludes", url) {
      var j :| OccursAt(url, "wpoauthincludes", j);
      assert OccursAt("wpoauthincludes", "oauth", 2);
      OccursInside(url, "wpoauthincludes", "oauth", j, 2);
    }
  }

  // ---------------------------------------------------------- redirect_oauth

  /** `q` is an `index.php` query with no `?` after its first. */
  predicate RewriteTarget(q: string)
  {
    "index.php?" <= q && '?' !in q[10..]
  }

  /** The rewritten target `index.php?<key><rest>`, with every `?` of `rest`
      turned into `&`, is such a query. */
  lemma RewrittenQuery(key: string, rest: string)
    requires '?' !in key
    ensures RewriteTarget("index.php?" + key + ReplaceChar(rest, '?', '&'))
  {
    var q := "index.php?" + key + ReplaceChar(rest, '?', '&');
    ReplaceCharRemoves(rest, '?', '&');
    assert q[10..] == key + ReplaceChar(rest, '?', '&');
  }

  /** A `wpoauthincludes/` segment mentions `oauth`. */
  lemma IncludesSegmentMentionsOauth(url: string, pos: nat)
    requires OccursAt(url, "wpoauthincludes/", pos)
    ensures StrContains("oauth", url)
  {
    assert OccursAt("wpoauthincludes/", "oauth", 2);
    OccursInside(url, "wpoauthincludes/", "oauth", pos, 2);
  }

  /** An `oauth/` segment mentions `oauth`. */
  lemma OauthSegmentMentionsOauth(url: string, pos: nat)
    requires OccursAt(url, "oauth/", pos)
    ensures StrContains("oauth", url)
  {
    assert OccursAt("oauth/", "oauth", 0);
    OccursInside(url, "oauth/", "oauth", pos, 0);
  }

  /** The site URL of `index.php?<key><rest>`, each `?` of `rest` turned
      into `&`. */
  function SiteRewrite(key: string, rest: string, siteUrl: string -> string): (r: string)
    requires '?' !in key
    ensures exists q :: RewriteTarget(q) && r == siteUrl(q)
  {
    RewrittenQuery(key, rest);
    siteUrl("index.php?" + key + ReplaceChar(rest, '?', '&'))
  }

  /** `redirect_oauth($redirect_url, $requested_url)`; `siteUrl` is WordPress's
      `site_url`.  The answer is WordPress's redirect, the requested URL as it
      is, or the site URL of an `index.php` query holding no second `?`; and
      WordPress's redirect is kept for every URL that does not mention `oauth`. */
  function RedirectOauth(redirectUrl: string, requestedUrl: string, siteUrl: string -> string): (r: string)
    ensures r == redirectUrl || r == requestedUrl ||
            exists q :: RewriteTarget(q) && r == siteUrl(q)
    ensures !StrContains("oauth", requestedUrl) ==> r == redirectUrl
  {
    match StrPos(requestedUrl, "oauth/")
    case Some(pos) =>
      OauthSegmentMentionsOauth(requestedUrl, pos);
      SiteRewrite("oauth=", requestedUrl[pos + |"oauth/"|..], siteUrl)
    case None =>
      match StrPos(requestedUrl, "wpoauthincludes/")
      case Some(pos) =>
        IncludesSegmentMentionsOauth(requestedUrl, pos);
        SiteRewrite("wpoauthincludes=", requestedUrl[pos + |"wpoauthincludes/"|..], siteUrl)
      case None =>
        IncludesContainsOauth(requestedUrl);
        if StrContains("oauth", requestedUrl) || StrContains("wpoauthincludes", requestedUrl) then requestedUrl
        else redirectUrl
  }

  /** `p` is where `needle` first occurs in `url`. */
  predicate FirstOccurrence(url: string, needle: string, p: nat)
  {
    OccursAt(url, needle, p) && forall j :: 0 <= j < p ==> !OccursAt(url, needle, j)
  }

  lemma StrPosFinds(url: string, needle: string, p: nat)
    requires FirstOccurrence(url, needle, p)
    ensures StrPos(url, needle) == Some(p)
  {
    var r := StrPos(url, needle);
    assert r.Some?;
    assert !(r.value < p) && !(p < r.value);
  }

  /** A URL with an `oauth/` path segment is sent to
      `index.php?oauth=` followed by what comes after the first `oauth/`,
      whose `?` have all become `&`. */
  lemma OauthPathRewritten(redirectUrl: string, requestedUrl: string, siteUrl: string -> string, p: nat)
    requires FirstOccurrence(requestedUrl, "oauth/", p)
    ensures RedirectOauth(redirectUrl, requestedUrl, siteUrl) ==
              siteUrl("index.php?oauth=" + ReplaceChar(requestedUrl[p + 6..], '?', '&'))
    ensures '?' !in ReplaceChar(requestedUrl[p + 6..], '?', '&')
  {
    StrPosFinds(requestedUrl, "oauth/", p);
    assert "index.php?oauth=" == "index.php?" + "oauth=";
    ReplaceCharRemoves(requestedUrl[p + 6..], '?', '&');
  }

  /** Failing that, a `wpoauthincludes/` path segment is rewritten the same
      way, to `index.php?wpoauthincludes=`. */
  lemma IncludesPathRewritten(redirectUrl: string, requestedUrl: string, siteUrl: string -> string, p: nat)
    requires forall j :: !OccursAt(requestedUrl, "oauth/", j)
    requires FirstOccurrence(requestedUrl, "wpoauthincludes/", p)
    ensures RedirectOauth(redirectUrl, requestedUrl, siteUrl) ==
              siteUrl("index.php?wpoauthincludes=" + ReplaceChar(requestedUrl[p + 16..], '?', '&'))
    ensures '?' !in ReplaceChar(requestedUrl[p + 16..], '?', '&')
  {
    StrPosFinds(requestedUrl, "wpoauthincludes/", p);
    assert "index.php?wpoauthincludes=" == "index.php?" + "wpoauthincludes=";
    ReplaceCharRemoves(requestedUrl[p + 16..], '?', '&');
  }

  /** On the second pass the URL mentions `oauth` only in its query, and it is
      returned as it is, which stops the redirection from looping. */
  lemma RewrittenUrlKept(redirectUrl: string, requestedUrl: string, siteUrl: string -> string)
    requires forall j :: !OccursAt(requestedUrl, "oauth/", j)
    requires forall j :: !OccursAt(requestedUrl, "wpoauthincludes/", j)
    requires StrContains("oauth", requestedUrl)
    ensures RedirectOauth(redirectUrl, requestedUrl, siteUrl) == requestedUrl
  {
  }

  /** A URL that does not mention `oauth` at all keeps WordPress's own
      canonical redirect. */
  lemma OtherUrlsKeepRedirect(redirectUrl: string, requestedUrl: string, siteUrl: string -> string)
    requires !StrContains("oauth", requestedUrl)
    ensures RedirectOauth(redirectUrl, requestedUrl, siteUrl) == redirectUrl
  {
    IncludesContainsOauth(requestedUrl);
    assert OccursAt("oauth/", "oauth", 0);
    assert OccursAt("wpoauthincludes/", "oauth", 2);
    forall j | OccursAt(requestedUrl, "oauth/", j) ensures false {
      OccursInside(requestedUrl, "oauth/", "oauth", j, 0);
    }
    forall j | OccursAt(requestedUrl, "wpoauthincludes/", j) ensures false {
      OccursInside(requestedUrl, "wpoauthincludes/", "oauth", j, 2);
    }
  }

  // --------------------------------------------------- endpoint class names

  /** `$pieces[$i]`, or the empty string a missing piece turns into. */
  function PieceOr(pieces: seq<string>, i: nat): (p: string)
    ensures i < |pieces| ==> p == pieces[i]
    ensures i >= |pieces| ==> p == ""
  {
    if i < |pieces| then pieces[i] else ""
  }

  /** The pieces with their first letters upper-cased, run together. */
  function CamelJoin(pieces: seq<string>): string
  {
    if pieces == [] then ""
    else CamelJoin(pieces[..|pieces| - 1]) + UcFirst(pieces[|pieces| - 1])
  }

  lemma CamelJoinSnoc(pieces: seq<string>, piece: string)
    ensures CamelJoin(pieces + [piece]) == CamelJoin(pieces) + UcFirst(piece)
  {
    assert (pieces + [piece])[..|pieces|] == pieces;
  }

  /** The class name `init_api` derives from the dash-separated pieces of an
      endpoint file name: the upper-cased second piece, `JSON`, and the fourth
      and later pieces in camel case without their last four characters (the
      `.php`), joined by `_`. */
  function ClassNameFromPieces(pieces: seq<string>): string
  {
    var camel := if |pieces| > 3 then CamelJoin(pieces[3..]) else "";
    ToUpper(PieceOr(pieces, 1)) + "_JSON_" + SubstrDropEnd(camel, 4)
  }

  /** The class name for an endpoint file name. */
  function ClassNameOf(file: string): string
  {
    ClassNameFromPieces(Explode('-', file))
  }

  /** The derivation as `init_api` writes it, with the camel-case part built
      piece by piece. */
  method DeriveClassName(file: string) returns (className: string)
    ensures className == ClassNameOf(file)
  {
    var pieces := Explode('-', file);
    var prefix := ToUpper(PieceOr(pieces, 1));
    className := "";
    // The loop runs from the fourth piece; with three pieces or fewer it
    // does not run at all.
    if 3 < |pieces| {
      for i := 3 to |pieces|
        invariant className == CamelJoin(pieces[3..i])
      {
        assert pieces[3..i + 1] == pieces[3..i] + [pieces[i]];
        CamelJoinSnoc(pieces[3..i], pieces[i]);
        className := className + UcFirst(pieces[i]);
      }
      assert pieces[3..|pieces|] == pieces[3..];
    }
    assert className == (if |pieces| > 3 then CamelJoin(pieces[3..]) else "");
    // `implode( '_', array( $prefix, 'JSON', $class_name ) )`
    className := prefix + "_JSON_" + SubstrDropEnd(className, 4);
  }

  lemma ClassNameFromSplit(a: string, b: string, c: string, rest: seq<string>)
    ensures ClassNameFromPieces([a, b, c] + rest) ==
              ToUpper(b) + "_JSON_" + SubstrDropEnd(CamelJoin(rest), 4)
  {
    var pieces := [a, b, c] + rest;
    assert pieces[1] == b;
    assert |pieces| > 3 ==> pieces[3..] == rest;
  }

  /** For a file name made of dash-free pieces `a-b-c-rest...`, the class
      name is `B_JSON_` followed by the camel-cased rest less its last four
      characters. */
  lemma ClassNameOfPieces(a: string, b: string, c: string, rest: seq<string>)
    requires '-' !in a && '-' !in b && '-' !in c
    requires forall p :: p in rest ==> '-' !in p
    ensures ClassNameOf(Implode('-', [a, b, c] + rest)) ==
              ToUpper(b) + "_JSON_" + SubstrDropEnd(CamelJoin(rest), 4)
  {
    var pieces := [a, b, c] + rest;
    assert forall p :: p in pieces ==> p in [a, b, c] || p in rest;
    ImplodeExplode('-', pieces);
    ClassNameFromSplit(a, b, c, rest);
  }

  /** The first and third pieces play no part: only the second piece and
      those from the fourth on decide the class name. */
  lemma ClassNameIgnoresPieces(a: string, a': string, b: string, c: string, c': string, rest: seq<string>)
    requires '-' !in a && '-' !in a' && '-' !in b && '-' !in c && '-' !in c'
    requires forall p :: p in rest ==> '-' !in p
    ensures ClassNameOf(Implode('-', [a, b, c] + rest)) == ClassNameOf(Implode('-', [a', b, c'] + rest))
  {
    ClassNameOfPieces(a, b, c, rest);
    ClassNameOfPieces(a', b, c', rest);
  }

  // The worked example below goes one small step per lemma: stating the
  // steps together about literal strings is far costlier for the solver.

  lemma ExampleTail()
    ensures Implode('-', ["my", "post", "type.php"]) == "my-post-type.php"
  {
    assert ["my", "post", "type.php"][1..] == ["post", "type.php"];
    assert ["post", "type.php"][1..] == ["type.php"];
  }

  lemma ExampleMiddle()
    ensures Implode('-', ["json", "my", "post", "type.php"]) == "json-my-post-type.php"
  {
    ExampleTail();
    assert ["json", "my", "post", "type.php"][1..] == ["my", "post", "type.php"];
  }

  lemma ExampleFileName()
    ensures Implode('-', ["class", "my", "json"] + ["my", "post", "type.php"]) == "class-my-json-my-post-type.php"
  {
    ExampleMiddle();
    assert ["class", "my", "json"] + ["my", "post", "type.php"] == ["class", "my", "json", "my", "post", "type.php"];
    assert ["class", "my", "json", "my", "post", "type.php"][1..] == ["my", "json", "my", "post", "type.php"];
    assert ["my", "json", "my", "post", "type.php"][1..] == ["json", "my", "post", "type.php"];
  }

  lemma ExampleCamelTwo()
    ensures CamelJoin(["my", "post"]) == "MyPost"
  {
    assert ["my"][..0] == [];
    assert CamelJoin(["my"]) == "My";
    assert ["my", "post"][..1] == ["my"];
  }

  lemma ExampleCamel()
    ensures CamelJoin(["my", "post", "type.php"]) == "MyPostType.php"
  {
    ExampleCamelTwo();
    assert ["my", "post", "type.php"][..2] == ["my", "post"];
  }

  lemma ExampleUpper()
    ensures ToUpper("my") == "MY"
  {
  }

  lemma ExampleDrop()
    ensures SubstrDropEnd("MyPostType.php", 4) == "MyPostType"
  {
  }

  lemma ExampleSplit()
    ensures ["class", "my", "json"] + ["my", "post", "type.php"] == ["class", "my", "json", "my", "post", "type.php"]
  {
  }

  lemma ExampleJoin()
    ensures "MY" + "_JSON_" + "MyPostType" == "MY_JSON_MyPostType"
  {
  }

  lemma ExamplePieces()
    ensures ClassNameFromPieces(["class", "my", "json", "my", "post", "type.php"]) == "MY_JSON_MyPostType"
  {
    ClassNameFromSplit("class", "my", "json", ["my", "post", "type.php"]);
    ExampleSplit();
    ExampleCamel();
    ExampleUpper();
    ExampleDrop();
    ExampleJoin();
  }

  lemma ExampleNoDash()
    ensures forall p :: p in ["class", "my", "json", "my", "post", "type.php"] ==> '-' !in p
  {
  }

  /** The example the source gives for the derivation. */
  lemma ClassNameExample()
    ensures ClassNameOf("class-my-json-my-post-type.php") == "MY_JSON_MyPostType"
  {
    var pieces := ["class", "my", "json", "my", "post", "type.php"];
    ExampleNoDash();
    ImplodeExplode('-', pieces);
    ExampleFileName();
    assert ["class", "my", "json"] + ["my", "post", "type.php"] == pieces;
    ExamplePieces();
  }

  lemma {:induction false} CamelJoinNoDash(pieces: seq<string>)
    requires forall p :: p in pieces ==> '-' !in p
    ensures '-' !in CamelJoin(pieces)
  {
    if pieces != [] {
      var last := pieces[|pieces| - 1];
      assert last in pieces;
      assert forall p :: p in pieces[..|pieces| - 1] ==> p in pieces;
      CamelJoinNoDash(pieces[..|pieces| - 1]);
      UpperKeepsOthers(last, '-');
    }
  }

  /** A prefix and a tail without dashes, joined by `_JSON_`, make a name
      without dashes that starts with the prefix and `_JSON_`. */
  lemma JoinedShape(prefix: string, tail: string)
    requires '-' !in prefix && '-' !in tail
    ensures var name := prefix + "_JSON_" + tail;
            && |prefix| + 6 <= |name|
            && name[..|prefix| + 6] == prefix + "_JSON_"
            && '-' !in name
  {
    var name := prefix + "_JSON_" + tail;
    assert name[..|prefix| + 6] == prefix + "_JSON_";
    assert '-' !in "_JSON_";
  }

  /** The camel-case tail of dash-free pieces has no dash. */
  lemma TailNoDash(pieces: seq<string>)
    requires forall p :: p in pieces ==> '-' !in p
    ensures '-' !in SubstrDropEnd(if |pieces| > 3 then CamelJoin(pieces[3..]) else "", 4)
  {
    var camel := if |pieces| > 3 then CamelJoin(pieces[3..]) else "";
    if |pieces| > 3 {
      assert forall p :: p in pieces[3..] ==> p in pieces;
      CamelJoinNoDash(pieces[3..]);
    }
    var tail := SubstrDropEnd(camel, 4);
    forall i | 0 <= i < |tail| ensures tail[i] != '-' { assert tail[i] == camel[i]; }
  }

  /** The upper-cased second piece of dash-free pieces has no dash and no
      lower-case letter. */
  lemma PrefixShape(pieces: seq<string>)
    requires forall p :: p in pieces ==> '-' !in p
    ensures '-' !in ToUpper(PieceOr(pieces, 1))
    ensures forall i :: 0 <= i < |ToUpper(PieceOr(pieces, 1))| ==> !IsLower(ToUpper(PieceOr(pieces, 1))[i])
  {
    var piece := PieceOr(pieces, 1);
    if 1 < |pieces| { assert pieces[1] in pieces; }
    UpperKeepsOthers(piece, '-');
  }

  /** Every derived class name is the upper-case prefix, then `_JSON_`, then
      the camel-case rest, and never contains a dash. */
  lemma ClassNameShape(file: string)
    ensures var prefix := ToUpper(PieceOr(Explode('-', file), 1));
            && |prefix| + 6 <= |ClassNameOf(file)|
            && ClassNameOf(file)[..|prefix| + 6] == prefix + "_JSON_"
            && (forall i :: 0 <= i < |prefix| ==> !IsLower(prefix[i]))
            && '-' !in ClassNameOf(file)
  {
    var pieces := Explode('-', file);
    PrefixShape(pieces);
    TailNoDash(pieces);
    JoinedShape(ToUpper(PieceOr(pieces, 1)),
                SubstrDropEnd(if |pieces| > 3 then CamelJoin(pieces[3..]) else "", 4));
  }

  // ---------------------------------------------------------- register_data

  /** One call `register_data` makes into WordPress. */
  datatype Registration =
    | RegisterPostType(name: string, options: Value)
    | RegisterTaxonomy(taxonomy: string, objectType: string, options: Value)
    | RegisterTaxonomyForObjectType(taxonomy: string, objectType: string)
    | RegisterPostStatus(name: string, options: Value)

  /** The taxonomies WordPress defines itself; they are renamed, never
      registered again. */
  predicate NativeTaxonomy(name: string)
  {
    name == "category" || name == "post_tag"
  }

  /** The `register_post_type` calls for the `$post_types` configuration. */
  function PostTypeCalls(postTypes: seq<(string, Value)>): seq<Registration>
  {
    if postTypes == [] then []
    else
      var (name, options) := postTypes[|postTypes| - 1];
      PostTypeCalls(postTypes[..|postTypes| - 1])
        + (if name != "post" then [RegisterPostType(name, options)] else [])
  }

  /** The `register_taxonomy` calls for the taxonomies of one post type. */
  function TaxonomyCallsOf(postType: string, taxonomies: seq<(string, Value)>): seq<Registration>
  {
    if taxonomies == [] then []
    else
      var (taxonomy, options) := taxonomies[|taxonomies| - 1];
      TaxonomyCallsOf(postType, taxonomies[..|taxonomies| - 1])
        + (if !NativeTaxonomy(taxonomy) then [RegisterTaxonomy(taxonomy, postType, options)] else [])
  }

  /** The `register_taxonomy` calls for the `$taxonomies` configuration. */
  function TaxonomyCalls(config: seq<(string, seq<(string, Value)>)>): seq<Registration>
  {
    if config == [] then []
    else
      var (postType, taxonomies) := config[|config| - 1];
      TaxonomyCalls(config[..|config| - 1]) + TaxonomyCallsOf(postType, taxonomies)
  }

  /** The `register_taxonomy_for_object_type` calls for one post type. */
  function ObjectTypeCallsOf(postType: string, taxonomies: seq<string>): seq<Registration>
  {
    if taxonomies == [] then []
    else
      ObjectTypeCallsOf(postType, taxonomies[..|taxonomies| - 1])
        + [RegisterTaxonomyForObjectType(taxonomies[|taxonomies| - 1], postType)]
  }

  /** The `register_taxonomy_for_object_type` calls for `$terms_map`. */
  function ObjectTypeCalls(termsMap: seq<(string, seq<string>)>): seq<Registration>
  {
    if termsMap == [] then []
    else
      var (postType, taxonomies) := termsMap[|termsMap| - 1];
      ObjectTypeCalls(termsMap[..|termsMap| - 1]) + ObjectTypeCallsOf(postType, taxonomies)
  }

  /** The `register_post_status` calls for the statuses of one post type. */
  function StatusCallsOf(statuses: seq<(string, Value)>): seq<Registration>
  {
    if statuses == [] then []
    else
      var (name, options) := statuses[|statuses| - 1];
      StatusCallsOf(statuses[..|statuses| - 1]) + [RegisterPostStatus(name, options)]
  }

  /** The `register_post_status` calls for `$post_statuses`. */
  function StatusCalls(config: seq<(string, seq<(string, Value)>)>): seq<Registration>
  {
    if config == [] then []
    else StatusCalls(config[..|config| - 1]) + StatusCallsOf(config[|config| - 1].1)
  }

  /** Every configured post type but `post` is registered, with its options,
      and nothing else is. */
  lemma {:induction false} PostTypeCallsMembership(postTypes: seq<(string, Value)>, reg: Registration)
    ensures reg in PostTypeCalls(postTypes) <==>
              reg.RegisterPostType? && (reg.name, reg.options) in postTypes && reg.name != "post"
  {
    if postTypes != [] {
      var init := postTypes[..|postTypes| - 1];
      var last := postTypes[|postTypes| - 1];
      PostTypeCallsMembership(init, reg);
      assert postTypes == init + [last];
      assert PostTypeCalls(postTypes) ==
        PostTypeCalls(init) + (if last.0 != "post" then [RegisterPostType(last.0, last.1)] else []);
      assert (reg.RegisterPostType? && (reg.name, reg.options) in postTypes) <==>
        (reg.RegisterPostType? && ((reg.name, reg.options) in init || (reg.name, reg.options) == last));
    }
  }

  /** Registration follows configuration order: the calls for a configuration
      are those of its first part followed by those of the rest. */
  lemma {:induction false} PostTypeCallsInOrder(first: seq<(string, Value)>, rest: seq<(string, Value)>)
    ensures PostTypeCalls(first + rest) == PostTypeCalls(first) + PostTypeCalls(rest)
  {
    if rest == [] {
      assert first + rest == first;
    } else {
      var init := rest[..|rest| - 1];
      PostTypeCallsInOrder(first, init);
      assert (first + rest)[..|first + rest| - 1] == first + init;
      assert (first + rest)[|first + rest| - 1] == rest[|rest| - 1];
    }
  }

  lemma {:induction false} TaxonomyCallsOfMembership(postType: string, taxonomies: seq<(string, Value)>, reg: Registration)
    ensures reg in TaxonomyCallsOf(postType, taxonomies) <==>
              reg.RegisterTaxonomy? && reg.objectType == postType &&
              (reg.taxonomy, reg.options) in taxonomies && !NativeTaxonomy(reg.taxonomy)
  {
    if taxonomies != [] {
      var init := taxonomies[..|taxonomies| - 1];
      var last := taxonomies[|taxonomies| - 1];
      TaxonomyCallsOfMembership(postType, init, reg);
      assert taxonomies == init + [last];
      assert TaxonomyCallsOf(postType, taxonomies) == TaxonomyCallsOf(postType, init)
        + (if !NativeTaxonomy(last.0) then [RegisterTaxonomy(last.0, postType, last.1)] else []);
      assert (reg.RegisterTaxonomy? && (reg.taxonomy, reg.options) in taxonomies) <==>
        (reg.RegisterTaxonomy? && ((reg.taxonomy, reg.options) in init || (reg.taxonomy, reg.options) == last));
    }
  }

  /** Every configured taxonomy but `category` and `post_tag` is registered
      for the post type it is configured under, and nothing else is. */
  lemma {:induction false} TaxonomyCallsMembership(config: seq<(string, seq<(string, Value)>)>, reg: Registration)
    ensures reg in TaxonomyCalls(config) <==>
              reg.RegisterTaxonomy? && !NativeTaxonomy(reg.taxonomy) &&
              exists taxonomies :: (reg.objectType, taxonomies) in config && (reg.taxonomy, reg.options) in taxonomies
  {
    if config != [] {
      var init := config[..|config| - 1];
      var (postType, taxonomies) := config[|config| - 1];
      TaxonomyCallsMembership(init, reg);
      TaxonomyCallsOfMembership(postType, taxonomies, reg);
      assert config == init + [(postType, taxonomies)];
      if reg in TaxonomyCallsOf(postType, taxonomies) {
        assert (reg.objectType, taxonomies) in config;
      }
      if reg.RegisterTaxonomy? && !NativeTaxonomy(reg.taxonomy) &&
         exists ts :: (reg.objectType, ts) in config && (reg.taxonomy, reg.options) in ts {
        var ts :| (reg.objectType, ts) in config && (reg.taxonomy, reg.options) in ts;
        if (reg.objectType, ts) !in init {
          assert (reg.objectType, ts) == (postType, taxonomies);
        }
      }
    }
  }

  lemma {:induction false} TaxonomyCallsInOrder(first: seq<(string, seq<(string, Value)>)>,
                                                rest: seq<(string, seq<(string, Value)>)>)
    ensures TaxonomyCalls(first + rest) == TaxonomyCalls(first) + TaxonomyCalls(rest)
  {
    if rest == [] {
      assert first + rest == first;
    } else {
      var init, last := rest[..|rest| - 1], rest[|rest| - 1];
      TaxonomyCallsInOrder(first, init);
      var all := first + rest;
      assert all[..|all| - 1] == first + init && all[|all| - 1] == last;
      assert TaxonomyCalls(all) == TaxonomyCalls(first + init) + TaxonomyCallsOf(last.0, last.1);
      assert TaxonomyCalls(rest) == TaxonomyCalls(init) + TaxonomyCallsOf(last.0, last.1);
    }
  }

  lemma {:induction false} ObjectTypeCallsOfMembership(postType: string, taxonomies: seq<string>, reg: Registration)
    ensures reg in ObjectTypeCallsOf(postType, taxonomies) <==>
              reg.RegisterTaxonomyForObjectType? && reg.objectType == postType && reg.taxonomy in taxonomies
  {
    if taxonomies != [] {
      var init := taxonomies[..|taxonomies| - 1];
      ObjectTypeCallsOfMembership(postType, init, reg);
      assert taxonomies == init + [taxonomies[|taxonomies| - 1]];
    }
  }

  /** Every pair of the terms map is registered, `category` and `post_tag`
      included. */
  lemma {:induction false} ObjectTypeCallsMembership(termsMap: seq<(string, seq<string>)>, reg: Registration)
    ensures reg in ObjectTypeCalls(termsMap) <==>
              reg.RegisterTaxonomyForObjectType? &&
              exists taxonomies :: (reg.objectType, taxonomies) in termsMap && reg.taxonomy in taxonomies
  {
    if termsMap != [] {
      var init := termsMap[..|termsMap| - 1];
      var (postType, taxonomies) := termsMap[|termsMap| - 1];
      ObjectTypeCallsMembership(init, reg);
      ObjectTypeCallsOfMembership(postType, taxonomies, reg);
      assert termsMap == init + [(postType, taxonomies)];
      if reg in ObjectTypeCallsOf(postType, taxonomies) {
        assert (reg.objectType, taxonomies) in termsMap;
      }
      if reg.RegisterTaxonomyForObjectType? &&
         exists ts :: (reg.objectType, ts) in termsMap && reg.taxonomy in ts {
        var ts :| (reg.objectType, ts) in termsMap && reg.taxonomy in ts;
        if (reg.objectType, ts) !in init {
          assert (reg.objectType, ts) == (postType, taxonomies);
        }
      }
    }
  }

  lemma {:induction false} StatusCallsOfMembership(statuses: seq<(string, Value)>, reg: Registration)
    ensures reg in StatusCallsOf(statuses) <==> reg.RegisterPostStatus? && (reg.name, reg.options) in statuses
  {
    if statuses != [] {
      var init := statuses[..|statuses| - 1];
      var last := statuses[|statuses| - 1];
      StatusCallsOfMembership(init, reg);
      assert statuses == init + [last];
      assert StatusCallsOf(statuses) == StatusCallsOf(init) + [RegisterPostStatus(last.0, last.1)];
      assert (reg.RegisterPostStatus? && (reg.name, reg.options) in statuses) <==>
        (reg.RegisterPostStatus? && ((reg.name, reg.options) in init || (reg.name, reg.options) == last));
    }
  }

  /** Every configured status of every post type is registered, under its own
      name only: the post type it is configured under is not passed on. */
  lemma {:induction false} StatusCallsMembership(config: seq<(string, seq<(string, Value)>)>, reg: Registration)
    ensures reg in StatusCalls(config) <==>
              reg.RegisterPostStatus? &&
              exists postType, statuses :: (postType, statuses) in config && (reg.name, reg.options) in statuses
  {
    if config != [] {
      var init := config[..|config| - 1];
      var (postType, statuses) := config[|config| - 1];
      StatusCallsMembership(init, reg);
      StatusCallsOfMembership(statuses, reg);
      assert config == init + [(postType, statuses)];
      if reg in StatusCallsOf(statuses) {
        assert (postType, statuses) in config;
      }
      if reg.RegisterPostStatus? &&
         exists pt, ss :: (pt, ss) in config && (reg.name, reg.options) in ss {
        var pt, ss :| (pt, ss) in config && (reg.name, reg.options) in ss;
        if (pt, ss) !in init {
          assert (pt, ss) == (postType, statuses);
        }
      }
    }
  }

  /** The post-type loop of `register_data`. */
  method RegisterPostTypes(postTypes: seq<(string, Value)>) returns (log: seq<Registration>)
    ensures log == PostTypeCalls(postTypes)
  {
    log := [];
    for i := 0 to |postTypes|
      invariant log == PostTypeCalls(postTypes[..i])
    {
      assert postTypes[..i + 1][..i] == postTypes[..i];
      var (postType, options) := postTypes[i];
      if postType != "post" {
        log := log + [RegisterPostType(postType, options)];
      }
    }
    assert postTypes[..|postTypes|] == postTypes;
  }

  /** The inner taxonomy loop of `register_data`, for one post type. */
  method RegisterTaxonomiesOf(postType: string, taxonomies: seq<(string, Value)>) returns (log: seq<Registration>)
    ensures log == TaxonomyCallsOf(postType, taxonomies)
  {
    log := [];
    for j := 0 to |taxonomies|
      invariant log == TaxonomyCallsOf(postType, taxonomies[..j])
    {
      assert taxonomies[..j + 1][..j] == taxonomies[..j];
      var (taxonomy, options) := taxonomies[j];
      if taxonomy != "category" && taxonomy != "post_tag" {
        log := log + [RegisterTaxonomy(taxonomy, postType, options)];
      }
    }
    assert taxonomies[..|taxonomies|] == taxonomies;
  }

  /** The taxonomy loops of `register_data`. */
  method RegisterTaxonomies(config: seq<(string, seq<(string, Value)>)>) returns (log: seq<Registration>)
    ensures log == TaxonomyCalls(config)
  {
    log := [];
    for i := 0 to |config|
      invariant log == TaxonomyCalls(config[..i])
    {
      assert config[..i + 1][..i] == config[..i];
      var calls := RegisterTaxonomiesOf(config[i].0, config[i].1);
      log := log + calls;
    }
    assert config[..|config|] == config;
  }

  /** The inner terms-map loop of `register_data`, for one post type. */
  method RegisterObjectTypesOf(postType: string, taxonomies: seq<string>) returns (log: seq<Registration>)
    ensures log == ObjectTypeCallsOf(postType, taxonomies)
  {
    log := [];
    for j := 0 to |taxonomies|
      invariant log == ObjectTypeCallsOf(postType, taxonomies[..j])
    {
      assert taxonomies[..j + 1][..j] == taxonomies[..j];
      log := log + [RegisterTaxonomyForObjectType(taxonomies[j], postType)];
    }
    assert taxonomies[..|taxonomies|] == taxonomies;
  }

  /** The terms-map loops of `register_data`. */
  method RegisterTermsMap(termsMap: seq<(string, seq<string>)>) returns (log: seq<Registration>)
    ensures log == ObjectTypeCalls(termsMap)
  {
    log := [];
    for i := 0 to |termsMap|
      invariant log == ObjectTypeCalls(termsMap[..i])
    {
      assert termsMap[..i + 1][..i] == termsMap[..i];
      var calls := RegisterObjectTypesOf(termsMap[i].0, termsMap[i].1);
      log := log + calls;
    }
    assert termsMap[..|termsMap|] == termsMap;
  }

  /** The inner status loop of `register_data`, for one post type. */
  method RegisterStatusesOf(statuses: seq<(string, Value)>) returns (log: seq<Registration>)
    ensures log == StatusCallsOf(statuses)
  {
    log := [];
    for j := 0 to |statuses|
      invariant log == StatusCallsOf(statuses[..j])
    {
      assert statuses[..j + 1][..j] == statuses[..j];
      var (name, options) := statuses[j];
      log := log + [RegisterPostStatus(name, options)];
    }
    assert statuses[..|statuses|] == statuses;
  }

  /** The post-status loops of `register_data`. */
  method RegisterPostStatuses(config: seq<(string, seq<(string, Value)>)>) returns (log: seq<Registration>)
    ensures log == StatusCalls(config)
  {
    log := [];
    for i := 0 to |config|
      invariant log == StatusCalls(config[..i])
    {
      assert config[..i + 1][..i] == config[..i];
      var calls := RegisterStatusesOf(config[i].1);
      log := log + calls;
    }
    assert config[..|config|] == config;
  }

  // --------------------------------------------------------------- the class

  class WPAlquimia {
    /** `$post_types`: post type name → options. */
    const postTypes: seq<(string, Value)>
    /** `$taxonomies`: post type name → (taxonomy name → options). */
    const taxonomies: seq<(string, seq<(string, Value)>)>
    /** `$terms_map`: post type name → taxonomy names. */
    const termsMap: seq<(string, seq<string>)>
    /** `$post_statuses`: post type name → (status slug → options). */
    const postStatuses: seq<(string, seq<(string, Value)>)>

    constructor (postTypes: seq<(string, Value)>, taxonomies: seq<(string, seq<(string, Value)>)>,
                 termsMap: seq<(string, seq<string>)>, postStatuses: seq<(string, seq<(string, Value)>)>)
      ensures this.postTypes == postTypes && this.taxonomies == taxonomies
      ensures this.termsMap == termsMap && this.postStatuses == postStatuses
    {
      this.postTypes := postTypes;
      this.taxonomies := taxonomies;
      this.termsMap := termsMap;
      this.postStatuses := postStatuses;
    }

    /** `register_data`: the calls it makes, in the order it makes them. */
    method RegisterData() returns (log: seq<Registration>)
      ensures log == PostTypeCalls(postTypes) + TaxonomyCalls(taxonomies)
                     + ObjectTypeCalls(termsMap) + StatusCalls(postStatuses)
    {
      var types, taxes, links, statuses := [], [], [], [];
      if postTypes != [] {
        types := RegisterPostTypes(postTypes);
      }
      if taxonomies != [] {
        taxes := RegisterTaxonomies(taxonomies);
      }
      if termsMap != [] {
        links := RegisterTermsMap(termsMap);
      }
      if postStatuses != [] {
        statuses := RegisterPostStatuses(postStatuses);
      }
      log := types + taxes + links + statuses;
    }

    method ConfigureEndpoint(endpoint: QJsonCustomPostType)
      modifies endpoint
      ensures var config := Lookup(postStatuses, endpoint.postType);
              if config.Some? && config.value != [] then
                && endpoint.allowCustom ==
                     (if old(endpoint.allowCustom) == Null then Bool(true) else old(endpoint.allowCustom))
                && endpoint.postStatuses ==
                     (if old(endpoint.postStatuses) == Null then Array(config.value) else old(endpoint.postStatuses))
              else
                && endpoint.allowCustom == old(endpoint.allowCustom)
                && endpoint.postStatuses == old(endpoint.postStatuses)
    {
      if postStatuses != [] {
        var config := Lookup(postStatuses, endpoint.postType);
        if config.Some? && config.value != [] {
          var _ := endpoint.AllowCustomPostStatuses(Bool(true));
          endpoint.SetPostStatuses(Array(config.value));
        }
      }
    }
  }
}
