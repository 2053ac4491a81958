/**
 * The in-memory API catalog of the static demo server: the descriptors loaded once
 * at startup, the search and lookup over them, and the JSON bodies of the read
 * endpoints built from them.
 */
module CatalogServer {
  import opened Wrappers
  import opened Text
  import opened Sequences

  /**
   * One catalog entry. `name` and `url` are the fields the server reads; every
   * further field of the JSON object is carried along untouched, as its raw JSON text.
   */
  datatype Descriptor = Descriptor(name: string, url: string, others: map<string, string>)

  /**
   * The `q` query parameter of `/api/search` as the query-string parser hands it over:
   * missing, a single string, or something else (an array for a repeated `q`, an
   * object for `q[key]=...`), on which `toLowerCase` is not a function.
   */
  datatype QueryParam = Absent | Text(value: string) | NotText

  /** JSON bodies the endpoints answer with. `None` is JSON `null`. */
  datatype Body =
    | ApiList(apis: seq<Descriptor>)
    | ApiEntry(api: Descriptor)
    | ErrorBody(error: string)
    | SwaggerConfigBody(urls: seq<Descriptor>, validatorUrl: Option<string>)
    | SwaggerConfigError(error: string, urls: seq<Descriptor>, validatorUrl: Option<string>)
    | ApiInfoBody(message: string, version: string, endpoints: seq<(string, string)>,
                  totalApis: nat, timestamp: string)
    | HealthBody(status: string, timestamp: string, apisLoaded: nat, uptime: real)

  datatype Response = Response(status: nat, body: Body)

  /** The endpoint map of `GET /api`, in the order the object literal lists it. */
  const Endpoints: seq<(string, string)> := [
    ("swagger-config", "/api/swagger-config"),
    ("apis", "/api/apis"),
    ("search", "/api/search?q=term"),
    ("health", "/health"),
    ("docs", "/api/*/api-docs")
  ]

  /** The search predicate: the (already folded) query occurs in the folded name or url. */
  predicate Matches(d: Descriptor, query: string): (m: bool)
    ensures m <==> IsSubstring(query, Lower(d.name)) || IsSubstring(query, Lower(d.url))
  {
    Includes(Lower(d.name), query) || Includes(Lower(d.url), query)
  }

  /** `Matches` for a fixed query, as the callback handed to `filter`. */
  function Matcher(query: string): Descriptor -> bool
  {
    d => Matches(d, query)
  }

  /**
   * Case-insensitive, unanchored search over name and url. A query that folds to the
   * empty string means "no filtering" and answers the whole catalog.
   */
  function Search(catalog: seq<Descriptor>, q: string): (r: seq<Descriptor>)
    ensures |r| <= |catalog|
    ensures forall i :: 0 <= i < |r| ==> Matches(r[i], Lower(q)) && r[i] in catalog
    ensures forall d :: d in catalog && Matches(d, Lower(q)) ==> d in r
  {
    var query := Lower(q);
    if query == [] then
      assert forall d :: d in catalog ==> Matches(d, query) by {
        forall d | d in catalog ensures Matches(d, query) {
          MatchesEmptyQuery(d);
        }
      }
      catalog
    else
      Filter(Matcher(query), catalog)
  }

  /** The first descriptor, in catalog order, whose name equals `name` exactly. */
  function FindByName(catalog: seq<Descriptor>, name: string): (r: Option<Descriptor>)
    ensures r.None? <==> forall i :: 0 <= i < |catalog| ==> catalog[i].name != name
    ensures r.Some? ==> r.value.name == name && r.value in catalog
    decreases |catalog|
  {
    if catalog == [] then None
    else if catalog[0].name == name then Some(catalog[0])
    else FindByName(catalog[1..], name)
  }

  /** The text the search handler folds: a missing `q` counts as the empty string. */
  function QueryText(q: QueryParam): (text: string)
    ensures q.Absent? ==> text == ""
    ensures q.Text? ==> text == q.value
  {
    if q.Text? then q.value else ""
  }

  /**
   * The server process after startup. `apiData` is assigned once, while the
   * server starts, and only read afterwards. The handler functions take
   * `raised` for whether an exception escapes the handler's `try` block (a failure
   * of the framework's JSON writer; the model has no other source of one apart
   * from a non-text search parameter); the request timestamp and the process
   * uptime are parameters.
   */
  class ApiPortal {
    const apiData: seq<Descriptor>

    /** Loads the catalog; a failed read or parse leaves it empty and startup goes on. */
    constructor (source: Result<seq<Descriptor>, string>)
      ensures source.Success? ==> apiData == source.value
      ensures source.Failure? ==> apiData == []
    {
      apiData := match source
        case Success(entries) => entries
        case Failure(_) => [];
    }

    /** `GET /api/swagger-config`: the whole catalog as `urls`, with validation switched off. */
    function SwaggerConfig(raised: bool): (r: Response)
      ensures r.status == 200 <==> !raised
      ensures r.status == 200 ==> r.body.SwaggerConfigBody? && r.body.urls == apiData
      ensures r.status != 200 ==> r == Response(500, SwaggerConfigError("Failed to load API configuration", [], None))
      ensures r.body.SwaggerConfigBody? || r.body.SwaggerConfigError?
      ensures r.body.validatorUrl.None?
    {
      if raised then
        Response(500, SwaggerConfigError("Failed to load API configuration", [], None))
      else
        Response(200, SwaggerConfigBody(apiData, None))
    }

    /** `GET /api/apis`: the whole catalog, in load order. */
    function AllApis(raised: bool): (r: Response)
      ensures r.status == 200 <==> !raised
      ensures r.status == 200 ==> r.body == ApiList(apiData)
      ensures r.status != 200 ==> r == Response(500, ErrorBody("Failed to load APIs"))
    {
      if raised then Response(500, ErrorBody("Failed to load APIs"))
      else Response(200, ApiList(apiData))
    }

    /** `GET /api/search?q=...`: the catalog filtered by the folded query. */
    function SearchApis(q: QueryParam, raised: bool): (r: Response)
      ensures r.status == 200 <==> !q.NotText? && !raised
      ensures r.status == 200 ==> r.body.ApiList? && r.body.apis == Search(apiData, QueryText(q))
      ensures r.status == 200 ==> IsSubsequence(r.body.apis, apiData)
      ensures r.status != 200 ==> r == Response(500, ErrorBody("Search failed"))
    {
      if q.NotText? || raised then
        Response(500, ErrorBody("Search failed"))
      else
        var found := Search(apiData, QueryText(q));
        assert IsSubsequence(found, apiData) by {
          if Lower(QueryText(q)) != [] {
            FilterIsSubsequence(Matcher(Lower(QueryText(q))), apiData);
          } else {
            SubsequenceReflexive(apiData);
          }
        }
        Response(200, ApiList(found))
    }

    /** `GET /api/apis/:name`: the first descriptor with exactly that name, or 404. */
    function ApiByName(name: string, raised: bool): (r: Response)
      ensures raised <==> r.status == 500
      ensures r.status == 500 ==> r.body == ErrorBody("Failed to load API")
      ensures r.status == 404 <==> !raised && forall i :: 0 <= i < |apiData| ==> apiData[i].name != name
      ensures r.status == 404 ==> r.body == ErrorBody("API not found")
      ensures r.status == 200 <==> !raised && exists i :: 0 <= i < |apiData| && apiData[i].name == name
      ensures r.status == 200 ==> r.body == ApiEntry(FindByName(apiData, name).value)
      ensures r.status == 200 ==> exists i :: 0 <= i < |apiData| && r.body.api == apiData[i] && apiData[i].name == name
                                              && forall j :: 0 <= j < i ==> apiData[j].name != name
    {
      if raised then Response(500, ErrorBody("Failed to load API"))
      else
        match FindByName(apiData, name)
        case None => Response(404, ErrorBody("API not found"))
        case Some(api) =>
          FindByNameIsFirst(apiData, name);
          Response(200, ApiEntry(api))
    }

    /** `GET /api`: fixed server information and the catalog size. */
    function ApiInfo(now: string, raised: bool): (r: Response)
      ensures r.status == 200 <==> !raised
      ensures r.status == 200 ==> r.body.ApiInfoBody? && r.body.message == "API Portal Server"
                                  && r.body.version == "1.0.0" && r.body.endpoints == Endpoints
                                  && r.body.totalApis == |apiData| && r.body.timestamp == now
      ensures r.status != 200 ==> r == Response(500, ErrorBody("Failed to load API information"))
    {
      if raised then Response(500, ErrorBody("Failed to load API information"))
      else Response(200, ApiInfoBody("API Portal Server", "1.0.0", Endpoints, |apiData|, now))
    }

    /** `GET /health`: always 200 with the catalog size (this handler has no `try`). */
    function Health(now: string, uptime: real): (r: Response)
      ensures r.status == 200 && r.body.HealthBody?
      ensures r.body.status == "OK" && r.body.apisLoaded == |apiData|
      ensures r.body.timestamp == now && r.body.uptime == uptime
    {
      Response(200, HealthBody("OK", now, |apiData|, uptime))
    }
  }

  /** Every sequence is a subsequence of itself. */
  lemma {:induction false} SubsequenceReflexive<T>(s: seq<T>)
    ensures IsSubsequence(s, s)
    decreases |s|
  {
    if s != [] {
      SubsequenceReflexive(s[1..]);
    }
  }

  /** An empty or missing query answers the whole catalog, unchanged and in order. */
  lemma SearchEmptyIsIdentity(catalog: seq<Descriptor>)
    ensures Search(catalog, "") == catalog
  {
  }

  /** The empty query occurs in every name, so every entry matches it. */
  lemma MatchesEmptyQuery(d: Descriptor)
    ensures Matches(d, "")
  {
  }

  /** Soundness: every result has the folded query in its folded name or url. */
  lemma SearchSound(catalog: seq<Descriptor>, q: string, d: Descriptor)
    requires d in Search(catalog, q)
    ensures IsSubstring(Lower(q), Lower(d.name)) || IsSubstring(Lower(q), Lower(d.url))
  {
    if Lower(q) == [] {
      assert OccursAt(Lower(q), Lower(d.name), 0);
    }
  }

  /**
   * Completeness: an entry that matches keeps every one of its occurrences in the
   * catalog, an entry that does not match has none.
   */
  lemma SearchComplete(catalog: seq<Descriptor>, q: string, d: Descriptor)
    ensures multiset(Search(catalog, q))[d] == if Matches(d, Lower(q)) then multiset(catalog)[d] else 0
  {
    if Lower(q) == [] {
      MatchesEmptyQuery(d);
    } else {
      FilterCount(Matcher(Lower(q)), catalog, d);
    }
  }

  /** Order: the result is the catalog with some entries deleted, so it is never longer. */
  lemma SearchKeepsOrder(catalog: seq<Descriptor>, q: string)
    ensures IsSubsequence(Search(catalog, q), catalog)
    ensures |Search(catalog, q)| <= |catalog|
  {
    if Lower(q) == [] {
      SubsequenceReflexive(catalog);
    } else {
      FilterIsSubsequence(Matcher(Lower(q)), catalog);
    }
  }

  /** Searching the result again with the same query returns it unchanged. */
  lemma SearchIdempotent(catalog: seq<Descriptor>, q: string)
    ensures Search(Search(catalog, q), q) == Search(catalog, q)
  {
    if Lower(q) != [] {
      FilterIdempotent(Matcher(Lower(q)), catalog);
    }
  }

  /**
   * The search result is pinned down by soundness, completeness and order: any
   * subsequence of the catalog that keeps exactly the matching entries is the result.
   */
  lemma SearchCharacterized(catalog: seq<Descriptor>, q: string, r: seq<Descriptor>)
    requires IsSubsequence(r, catalog)
    requires forall d :: multiset(r)[d] == if Matches(d, Lower(q)) then multiset(catalog)[d] else 0
    ensures r == Search(catalog, q)
  {
    FilterUnique(Matcher(Lower(q)), catalog, r);
    if Lower(q) == [] {
      forall d | d in catalog
        ensures Matcher(Lower(q))(d)
      {
        MatchesEmptyQuery(d);
      }
      FilterKeepsAll(Matcher(Lower(q)), catalog);
    }
  }

  /** Two queries that agree up to ASCII case give the same result. */
  lemma SearchIgnoresCase(catalog: seq<Descriptor>, q1: string, q2: string)
    requires Lower(q1) == Lower(q2)
    ensures Search(catalog, q1) == Search(catalog, q2)
  {
  }

  /** Lookup answers the entry at the first index whose name is exactly `name`. */
  lemma {:induction false} FindByNameFirst(catalog: seq<Descriptor>, name: string, i: nat)
    requires i < |catalog| && catalog[i].name == name
    requires forall j :: 0 <= j < i ==> catalog[j].name != name
    ensures FindByName(catalog, name) == Some(catalog[i])
    decreases i
  {
    if i > 0 {
      FindByNameFirst(catalog[1..], name, i - 1);
    }
  }

  /** A found entry sits at an index before which no entry has that name. */
  lemma {:induction false} FindByNameIsFirst(catalog: seq<Descriptor>, name: string)
    requires FindByName(catalog, name).Some?
    ensures exists i :: 0 <= i < |catalog| && catalog[i] == FindByName(catalog, name).value
                        && forall j :: 0 <= j < i ==> catalog[j].name != name
    decreases |catalog|
  {
    if catalog[0].name != name {
      FindByNameIsFirst(catalog[1..], name);
      var i :| 0 <= i < |catalog[1..]| && catalog[1..][i] == FindByName(catalog, name).value
                && forall j :: 0 <= j < i ==> catalog[1..][j].name != name;
      assert catalog[i + 1] == FindByName(catalog, name).value;
    } else {
      assert catalog[0] == FindByName(catalog, name).value;
    }
  }

  /** The read endpoints agree on the catalog size, and swagger-config lists the whole catalog. */
  lemma EndpointsAgree(portal: ApiPortal, now: string, uptime: real)
    ensures portal.ApiInfo(now, false).body.totalApis == |portal.apiData|
    ensures portal.Health(now, uptime).body.apisLoaded == |portal.apiData|
    ensures portal.SwaggerConfig(false).body.urls == portal.apiData == portal.AllApis(false).body.apis
    ensures portal.SearchApis(Absent, false).body.apis == portal.apiData
  {
  }

  /**
   * A catalog file that cannot be read or parsed does not stop the server: it
   * answers `/health` with status 200 and no APIs loaded.
   */
  method StartAfterLoadFailure(error: string, now: string, uptime: real) returns (health: Response, info: Response)
    ensures health == Response(200, HealthBody("OK", now, 0, uptime))
    ensures info.status == 200 && info.body.ApiInfoBody? && info.body.totalApis == 0
  {
    var portal := new ApiPortal(Failure(error));
    health := portal.Health(now, uptime);
    info := portal.ApiInfo(now, false);
  }

  /** The endpoint map of `GET /api` has five entries with distinct names. */
  lemma EndpointNamesDistinct()
    ensures |Endpoints| == 5
    ensures forall i, j :: 0 <= i < j < |Endpoints| ==> Endpoints[i].0 != Endpoints[j].0
  {
  }

  /** A two-entry catalog to check the search and lookup rules on. */
  const Weather := Descriptor("Weather", "https://x/weather.json", map[])
  const Maps := Descriptor("Maps", "https://y/maps.json", map[])

  lemma LowerWeather()
    ensures Lower("weather") == "weather" && Lower("Weather") == "weather"
    ensures Lower("WEATHER") == "weather"
  {
    assert forall i :: 0 <= i < 7 ==> !IsUpper("weather"[i]);
    assert forall i :: 0 <= i < 7 ==> Lower("Weather")[i] == "weather"[i];
    assert forall i :: 0 <= i < 7 ==> Lower("WEATHER")[i] == "weather"[i];
  }

  lemma MapsLacksWeather()
    ensures !Matches(Maps, "weather")
  {
    var u := Maps.url;
    forall i | 0 <= i < |u|
      ensures Lower(u)[i] != 'w'
    {
    }
    MissingCharNotSubstring("weather", Lower(u));
    assert |Lower(Maps.name)| < |"weather"|;
  }

  /** Searching "weather" finds only Weather, case-insensitively. */
  lemma SearchExample()
    ensures Search([Weather, Maps], "weather") == [Weather]
    ensures Search([Weather, Maps], "WEATHER") == [Weather]
  {
    LowerWeather();
    MapsLacksWeather();
    assert OccursAt("weather", Lower(Weather.name), 0);
    assert Matcher("weather")(Weather);
    assert [Weather, Maps][1..] == [Maps];
    assert Filter(Matcher("weather"), [Maps]) == [] by {
      assert [Maps][1..] == [];
    }
    SearchIgnoresCase([Weather, Maps], "WEATHER", "weather");
  }

  /** Lookup by name is exact: "Maps" finds Maps, "maps" finds nothing. */
  lemma FindByNameExample()
    ensures FindByName([Weather, Maps], "Maps") == Some(Maps)
    ensures FindByName([Weather, Maps], "maps") == None
  {
  }
}
