/**
 * The gateway's OpenAPI group configuration: one documentation group for every
 * route definition whose id ends in `-core`, named `domain/service/version`
 * from the route's metadata, and the redirect of `/` to the Swagger UI page.
 */
module OpenApiConfig {
  import opened Wrappers
  import opened Sequences

  /** A gateway route definition: its id and its metadata, each value as `String.valueOf` prints it. */
  datatype RouteDefinition = RouteDefinition(id: string, metadata: map<string, string>)

  /** A documentation group as the builder produces it. */
  datatype GroupedOpenApi = GroupedOpenApi(group: string, pathsToMatch: seq<string>)

  datatype RedirectView = RedirectView(url: string)

  const CoreSuffix := "-core"
  const AllPaths := "/**"
  const SwaggerUiIndex := "/swagger-ui/index.html"

  /** The characters a Java regex `.` does not match (without DOTALL or UNIX_LINES). */
  predicate IsLineTerminator(c: char)
  {
    c == '\n' || c == '\r' || c == '\U{0085}' || c == '\U{2028}' || c == '\U{2029}'
  }

  /** `s` ends with `literal`, and no line terminator comes before that literal. */
  ghost predicate EndsWithOnOneLine(s: string, literal: string)
  {
    |s| >= |literal| && s[|s| - |literal|..] == literal &&
    forall i :: 0 <= i < |s| - |literal| ==> !IsLineTerminator(s[i])
  }

  /**
   * Whether all of `s` matches the pattern `.*` followed by `literal`: either the
   * `.*` has consumed everything before the literal, or it consumes one more
   * character, which must not be a line terminator.
   */
  predicate MatchesAnyThen(s: string, literal: string)
    decreases |s|
  {
    s == literal || (s != [] && !IsLineTerminator(s[0]) && MatchesAnyThen(s[1..], literal))
  }

  /** The route filter: `id.matches(".*-core")`, an id ending in `-core` with no line break before it. */
  predicate IsCoreRoute(d: RouteDefinition)
  {
    MatchesAnyThen(d.id, CoreSuffix)
  }

  /** The pattern matches exactly the strings that end in the literal with no line terminator before it. */
  lemma {:induction false} MatchesAnyThenIff(s: string, literal: string)
    ensures MatchesAnyThen(s, literal) <==> EndsWithOnOneLine(s, literal)
    decreases |s|
  {
    if s != [] {
      MatchesAnyThenIff(s[1..], literal);
      if |s| > |literal| {
        assert s[1..][|s[1..]| - |literal|..] == s[|s| - |literal|..];
        assert forall i :: 1 <= i < |s| - |literal| ==> s[1..][i - 1] == s[i];
      }
    }
  }

  /** A route is kept exactly when its id ends in `-core` with no line terminator before it. */
  lemma IsCoreRouteIff(d: RouteDefinition)
    ensures IsCoreRoute(d) <==> EndsWithOnOneLine(d.id, "-core")
  {
    MatchesAnyThenIff(d.id, CoreSuffix);
  }

  /** The metadata value under `key`, or `null` as `String.format` prints a missing one. */
  function MetadataText(d: RouteDefinition, key: string): (v: string)
    ensures key in d.metadata ==> v == d.metadata[key]
    ensures key !in d.metadata ==> v == "null"
  {
    if key in d.metadata then d.metadata[key] else "null"
  }

  /** The index of the first `c` in `s`, if `s` has one. */
  function FirstIndexOf(s: string, c: char): (r: Option<nat>)
    ensures r.None? <==> c !in s
    ensures r.Some? ==> r.value < |s| && s[r.value] == c && c !in s[..r.value]
    decreases |s|
  {
    if s == [] then None
    else if s[0] == c then Some(0)
    else
      match FirstIndexOf(s[1..], c)
      case None => None
      case Some(i) =>
        assert s[..i + 1] == [s[0]] + s[1..][..i];
        Some(i + 1)
  }

  /** A group name read back as its three parts, split at its first two slashes. */
  function SplitGroupName(name: string): (parts: Option<(string, string, string)>)
    ensures parts.Some? ==> name == parts.value.0 + "/" + parts.value.1 + "/" + parts.value.2
    ensures parts.Some? ==> '/' !in parts.value.0 && '/' !in parts.value.1
  {
    match FirstIndexOf(name, '/')
    case None => None
    case Some(i) =>
      var rest := name[i + 1..];
      match FirstIndexOf(rest, '/')
      case None => None
      case Some(j) =>
        SplitAtSlashes(name, i, j);
        Some((name[..i], rest[..j], rest[j + 1..]))
  }

  /** Cutting a string around two of its slashes and gluing the three pieces back gives the string. */
  lemma SplitAtSlashes(s: string, i: nat, j: nat)
    requires i < |s| && s[i] == '/'
    requires j < |s[i + 1..]| && s[i + 1..][j] == '/'
    ensures s == s[..i] + "/" + s[i + 1..][..j] + "/" + s[i + 1..][j + 1..]
  {
    var rest := s[i + 1..];
    assert rest == rest[..j] + "/" + rest[j + 1..];
    assert s == s[..i] + "/" + rest;
  }

  /** In `a + "/" + b` with no slash in `a`, the first slash is the one after `a`. */
  lemma FirstSlashAfter(a: string, b: string)
    requires '/' !in a
    ensures FirstIndexOf(a + "/" + b, '/') == Some(|a|)
  {
    var s := a + "/" + b;
    assert s[|a|] == '/';
    assert s[..|a|] == a;
  }

  /** Three parts joined by slashes split back, when the first two hold no slash. */
  lemma SplitGroupNameOf(a: string, b: string, c: string)
    requires '/' !in a && '/' !in b
    ensures SplitGroupName(a + "/" + b + "/" + c) == Some((a, b, c))
  {
    var name := a + "/" + b + "/" + c;
    assert name == a + "/" + (b + "/" + c);
    FirstSlashAfter(a, b + "/" + c);
    var rest := name[|a| + 1..];
    assert rest == b + "/" + c;
    FirstSlashAfter(b, c);
    assert name[..|a|] == a;
    assert rest[..|b|] == b && rest[|b| + 1..] == c;
  }

  /**
   * `String.format("%s/%s/%s", domain, service, version)`: when neither the domain nor
   * the service holds a slash, the name splits back into the three printed values.
   */
  function GroupName(d: RouteDefinition): (name: string)
    ensures name == MetadataText(d, "domain") + "/" + MetadataText(d, "service") + "/" + MetadataText(d, "version")
    ensures '/' !in MetadataText(d, "domain") && '/' !in MetadataText(d, "service") ==>
              SplitGroupName(name) ==
              Some((MetadataText(d, "domain"), MetadataText(d, "service"), MetadataText(d, "version")))
  {
    var domain := MetadataText(d, "domain");
    var service := MetadataText(d, "service");
    var version := MetadataText(d, "version");
    var name := domain + "/" + service + "/" + version;
    if '/' !in domain && '/' !in service then
      SplitGroupNameOf(domain, service, version);
      name
    else
      name
  }

  /** The group built for one kept route: named after the route, matching every path. */
  function Group(d: RouteDefinition): (g: GroupedOpenApi)
    ensures g.group == GroupName(d) && g.pathsToMatch == [AllPaths]
  {
    GroupedOpenApi(GroupName(d), [AllPaths])
  }

  /**
   * The groups of the core routes, in definition order: one group per core route,
   * each matching every path.
   */
  function CoreGroups(definitions: seq<RouteDefinition>): (groups: seq<GroupedOpenApi>)
    ensures |groups| == |Filter(IsCoreRoute, definitions)| <= |definitions|
    ensures forall k :: 0 <= k < |groups| ==> groups[k].pathsToMatch == [AllPaths]
  {
    var kept := Filter(IsCoreRoute, definitions);
    seq(|kept|, k requires 0 <= k < |kept| => Group(kept[k]))
  }

  /** A single definition contributes one group if it is a core route and none otherwise. */
  lemma CoreGroupsSingle(d: RouteDefinition)
    ensures CoreGroups([d]) == if IsCoreRoute(d) then [Group(d)] else []
  {
  }

  /** The groups of a concatenation are the groups of each part, one after the other. */
  lemma CoreGroupsAppend(a: seq<RouteDefinition>, b: seq<RouteDefinition>)
    ensures CoreGroups(a + b) == CoreGroups(a) + CoreGroups(b)
  {
    FilterAppend(IsCoreRoute, a, b);
    var ka := Filter(IsCoreRoute, a);
    var kb := Filter(IsCoreRoute, b);
    var all := CoreGroups(a + b);
    var parts := CoreGroups(a) + CoreGroups(b);
    assert |all| == |parts|;
    forall k | 0 <= k < |all|
      ensures all[k] == parts[k]
    {
      if k < |ka| {
        assert (ka + kb)[k] == ka[k];
      } else {
        assert (ka + kb)[k] == kb[k - |ka|];
      }
    }
  }

  /** A route that is not a core route can be removed without changing the groups. */
  lemma NonCoreRouteDropped(a: seq<RouteDefinition>, d: RouteDefinition, b: seq<RouteDefinition>)
    requires !IsCoreRoute(d)
    ensures CoreGroups(a + [d] + b) == CoreGroups(a + b)
  {
    CoreGroupsAppend(a + [d], b);
    CoreGroupsAppend(a, [d]);
    CoreGroupsSingle(d);
    CoreGroupsAppend(a, b);
  }

  /** A core route contributes exactly its own group, in its own place. */
  lemma CoreRouteKept(a: seq<RouteDefinition>, d: RouteDefinition, b: seq<RouteDefinition>)
    requires IsCoreRoute(d)
    ensures CoreGroups(a + [d] + b) == CoreGroups(a) + [Group(d)] + CoreGroups(b)
  {
    CoreGroupsAppend(a + [d], b);
    CoreGroupsAppend(a, [d]);
    CoreGroupsSingle(d);
  }

  /**
   * Every group comes from a core route of the input and is named from its metadata;
   * every core route has its group.
   */
  lemma CoreGroupsSoundComplete(definitions: seq<RouteDefinition>)
    ensures forall g :: g in CoreGroups(definitions) ==>
              exists d :: d in definitions && IsCoreRoute(d) && g.group == GroupName(d)
    ensures forall d :: d in definitions && IsCoreRoute(d) ==> Group(d) in CoreGroups(definitions)
  {
    var kept := Filter(IsCoreRoute, definitions);
    var groups := CoreGroups(definitions);
    forall g | g in groups
      ensures exists d :: d in definitions && IsCoreRoute(d) && g.group == GroupName(d)
    {
      var k :| 0 <= k < |groups| && groups[k] == g;
      assert IsCoreRoute(kept[k]) && kept[k] in definitions;
    }
    forall d | d in definitions && IsCoreRoute(d)
      ensures Group(d) in groups
    {
      var k :| 0 <= k < |kept| && kept[k] == d;
      assert groups[k] == Group(d);
    }
  }

  /** Taking one more definition adds its group, if it has one, at the end. */
  lemma CoreGroupsStep(definitions: seq<RouteDefinition>, i: nat)
    requires i < |definitions|
    ensures CoreGroups(definitions[..i + 1]) ==
            CoreGroups(definitions[..i]) + if IsCoreRoute(definitions[i]) then [Group(definitions[i])] else []
  {
    assert definitions[..i + 1] == definitions[..i] + [definitions[i]];
    CoreGroupsAppend(definitions[..i], [definitions[i]]);
    CoreGroupsSingle(definitions[i]);
  }

  /** The group beans: the core routes' groups, appended one by one to an empty list. */
  method Apis(definitions: seq<RouteDefinition>) returns (groups: seq<GroupedOpenApi>)
    ensures groups == CoreGroups(definitions)
  {
    groups := [];
    var i := 0;
    while i < |definitions|
      invariant 0 <= i <= |definitions|
      invariant groups == CoreGroups(definitions[..i])
    {
      var d := definitions[i];
      if IsCoreRoute(d) {
        groups := groups + [Group(d)];
      }
      CoreGroupsStep(definitions, i);
      i := i + 1;
    }
    assert definitions[..i] == definitions;
  }

  /** `GET /` always redirects to the Swagger UI page. */
  function RedirectWithUsingRedirectView(): (v: RedirectView)
    ensures v.url == SwaggerUiIndex
  {
    RedirectView(SwaggerUiIndex)
  }

  /** Which route ids the filter keeps, on concrete ids. */
  lemma CoreRouteExamples()
    ensures MatchesAnyThen("user-core", CoreSuffix)
    ensures MatchesAnyThen("-core", CoreSuffix)
    ensures !MatchesAnyThen("user-core-v2", CoreSuffix)
    ensures !MatchesAnyThen("core", CoreSuffix)
    ensures !MatchesAnyThen("user\n-core", CoreSuffix)
  {
    MatchesAnyThenIff("user-core", CoreSuffix);
    MatchesAnyThenIff("-core", CoreSuffix);
    MatchesAnyThenIff("user-core-v2", CoreSuffix);
    MatchesAnyThenIff("core", CoreSuffix);
    MatchesAnyThenIff("user\n-core", CoreSuffix);
    assert IsLineTerminator("user\n-core"[4]);
  }
}
