/**
 * The gateway's Swagger UI parameters: the config URL the UI loads, and one UI
 * entry per documentation group pointing at that group's OpenAPI document.
 */
module SwaggerUiConfig {
  import opened Wrappers
  import opened OpenApiConfig

  /** One entry of the UI's API selector. */
  datatype SwaggerUrl = SwaggerUrl(name: string, url: string, displayName: string)

  const ConfigUrl := "/api/swagger-config"
  const DocsPrefix := "/api/"
  const DocsSuffix := "/api-docs"

  /** The OpenAPI document location of a group: `"/api/" + group + "/api-docs"`. */
  function DocsUrl(group: string): (u: string)
    ensures |u| == |DocsPrefix| + |group| + |DocsSuffix|
    ensures u[..|DocsPrefix|] == DocsPrefix && u[|u| - |DocsSuffix|..] == DocsSuffix
  {
    DocsPrefix + group + DocsSuffix
  }

  /** The group a documents URL belongs to, when it has the documents URL shape. */
  function GroupOfDocsUrl(u: string): (g: Option<string>)
    ensures g.Some? ==> DocsUrl(g.value) == u
  {
    if |u| >= |DocsPrefix| + |DocsSuffix| && u[..|DocsPrefix|] == DocsPrefix && u[|u| - |DocsSuffix|..] == DocsSuffix
    then
      var g := u[|DocsPrefix|..|u| - |DocsSuffix|];
      assert DocsUrl(g) == u by {
        assert u == u[..|DocsPrefix|] + g + u[|u| - |DocsSuffix|..];
      }
      Some(g)
    else None
  }

  /** Reading the group back from its documents URL gives the group. */
  lemma DocsUrlRoundTrip(group: string)
    ensures GroupOfDocsUrl(DocsUrl(group)) == Some(group)
  {
  }

  /**
   * The UI entry of a group: its name and display name are the group, and its url is
   * the group's documents URL, from which the group reads back.
   */
  function UrlEntry(group: string): (e: SwaggerUrl)
    ensures e.name == group && e.displayName == group
    ensures e.url == "/api/" + group + "/api-docs"
    ensures GroupOfDocsUrl(e.url) == Some(group)
  {
    DocsUrlRoundTrip(group);
    SwaggerUrl(group, DocsUrl(group), group)
  }

  /**
   * The UI entries the configuration should hold for a list of groups: every group
   * has its entry, and every entry is named after some group, shows that name, and
   * points at that group's documents.
   */
  ghost function EntriesFor(groups: seq<GroupedOpenApi>): (entries: set<SwaggerUrl>)
    ensures forall g :: g in groups ==> UrlEntry(g.group) in entries
    ensures forall e :: e in entries ==>
              e.displayName == e.name && GroupOfDocsUrl(e.url) == Some(e.name) &&
              exists g :: g in groups && e.name == g.group
  {
    set g | g in groups :: UrlEntry(g.group)
  }

  /**
   * The parts of the UI parameter object that this configuration writes: the
   * config URL (unset at first) and the set of UI entries.
   */
  class Parameters {
    var configUrl: Option<string>
    var urls: set<SwaggerUrl>

    /** Fresh parameters from default properties: no config URL, no entries. */
    constructor ()
      ensures configUrl.None? && urls == {}
    {
      configUrl := None;
      urls := {};
    }

    method SetConfigUrl(url: string)
      modifies this
      ensures configUrl == Some(url) && urls == old(urls)
    {
      configUrl := Some(url);
    }

    /** `getUrls().add(entry)`. */
    method AddUrl(entry: SwaggerUrl)
      modifies this
      ensures urls == old(urls) + {entry} && configUrl == old(configUrl)
    {
      urls := urls + {entry};
    }
  }

  /**
   * The UI parameters bean: fresh parameters, the config URL set, then one entry
   * added per group in list order.
   */
  method SwaggerUiConfigParameters(groupedApis: seq<GroupedOpenApi>) returns (params: Parameters)
    ensures fresh(params)
    ensures params.configUrl == Some(ConfigUrl)
    ensures params.urls == EntriesFor(groupedApis)
  {
    params := new Parameters();
    params.SetConfigUrl(ConfigUrl);
    var i := 0;
    while i < |groupedApis|
      invariant 0 <= i <= |groupedApis|
      invariant params.configUrl == Some(ConfigUrl)
      invariant params.urls == EntriesFor(groupedApis[..i])
    {
      var group := groupedApis[i].group;
      params.AddUrl(UrlEntry(group));
      assert groupedApis[..i + 1] == groupedApis[..i] + [groupedApis[i]];
      i := i + 1;
    }
    assert groupedApis[..i] == groupedApis;
  }

  /**
   * End to end over the gateway: the UI lists exactly one entry per core route,
   * named after its `domain/service/version` group.
   */
  lemma UiEntriesOfRoutes(definitions: seq<RouteDefinition>)
    ensures EntriesFor(CoreGroups(definitions))
            == set d | d in definitions && IsCoreRoute(d) :: UrlEntry(GroupName(d))
  {
    CoreGroupsSoundComplete(definitions);
    var groups := CoreGroups(definitions);
    forall e | e in EntriesFor(groups)
      ensures exists d :: d in definitions && IsCoreRoute(d) && e == UrlEntry(GroupName(d))
    {
      var g :| g in groups && e == UrlEntry(g.group);
      var d :| d in definitions && IsCoreRoute(d) && g.group == GroupName(d);
    }
    forall d | d in definitions && IsCoreRoute(d)
      ensures UrlEntry(GroupName(d)) in EntriesFor(groups)
    {
      assert Group(d) in groups;
    }
  }
}
