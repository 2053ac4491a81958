# API catalog portal — a Dafny model

This project models the logic of a small API documentation portal.

- **The static demo server** (`static-demo/server.js`). It loads a catalog of API descriptors once at startup, from `data.json`. If that load fails, the catalog is empty. The server answers the read endpoints from this catalog:
  - `/api/apis` lists the whole catalog;
  - `/api/search` does a case-insensitive substring search over name and url;
  - `/api/apis/:name` does an exact lookup by name;
  - `/api/swagger-config`, `/api` and `/health` return fixed-shape summaries.

  Its documentation route returns a made-up OpenAPI 3.0 document built from the request path.
- **The Spring gateway's documentation configuration** (`OpenApiConfig.java`, `SwaggerUiConfig.java`). Every gateway route whose id matches `.*-core` gets one documentation group, named `domain/service/version` from the route's metadata. Each group becomes one Swagger UI entry, which points at `/api/<group>/api-docs`. The UI loads its configuration from `/api/swagger-config`, and `/` redirects to the Swagger UI page.

Files and modules:

- `wrappers.dfy` (`Wrappers`): `Option` and `Result`.
- `text.dfy` (`Text`): ASCII case fold (`Lower`) and the unanchored substring test (`Includes`). `Includes` is proved equal to an existential definition of "occurs as a substring".
- `sequences.dfy` (`Sequences`): the order-preserving `Filter` that both sources use (`Array.prototype.filter`, `Stream.filter`). It has soundness, completeness (by multiset counts), subsequence, idempotence and uniqueness lemmas.
- `catalog.dfy` (`CatalogServer`): descriptors, the query layer (`Search`, `FindByName`), and the class `ApiPortal`. The class holds the catalog in the constant field `apiData`, which the constructor assigns once. It has one function per read endpoint.
- `synthetic_doc.dfy` (`SyntheticDoc`): the placeholder OpenAPI document.
- `openapi_config.dfy` (`OpenApiConfig`): the `.*-core` route filter, group naming, the loop that builds the group list, and the redirect.
- `swagger_ui_config.dfy` (`SwaggerUiConfig`): the UI parameter object (a class with a config URL and a set of entries) and the method that fills it.

Modelling choices:

- Each server handler that has a `try` block takes a flag `raised`. The flag says whether an exception escapes that block, in which case the handler answers its `catch` branch. The source has one input that really throws: a `q` search parameter that is not a string (a repeated `q`, or `q[key]=...`). `toLowerCase` is not a function on such a value, so `/api/search` answers 500 `Search failed`. The model keeps that case as `QueryParam.NotText`.
- A missing `q` and an empty `q` both mean "no filtering".
- `String.format("%s", null)` prints `null`. So a route whose metadata lacks `domain`, `service` or `version` gets `null` in that part of its group name (`MetadataText`).
- Java's `.` does not match the five line terminators `\n`, `\r`, U+0085, U+2028 and U+2029. `MatchesAnyThen` recognises `.*` followed by a literal over the whole string. `MatchesAnyThenIff` proves that this is "ends with the literal, and has no line terminator before it".

## Model

| member | source | states |
|---|---|---|
| `Text.Lower` | static-demo/server.js:70 | The fold keeps the length, leaves no upper-case ASCII letter, and agrees with the input up to case at every index. |
| `Text.LowerIdempotent` | static-demo/server.js:70 | Folding an already folded string changes nothing, so a folded query is its own fold. |
| `Text.Includes` | static-demo/server.js:77-78 | The left-to-right scan answers true exactly when the query occurs somewhere in the string. The empty query occurs everywhere. |
| `Sequences.Filter` | static-demo/server.js:76-79 | The result is no longer than the input. Every kept element passes the test and comes from the input. Every input element that passes the test is kept. |
| `Sequences.FilterIsSubsequence` | static-demo/server.js:76-79 | Filtering only deletes elements and never reorders the ones it keeps. |
| `Sequences.FilterCount` | static-demo/server.js:76-79 | An accepted value keeps every copy it had in the input. A rejected value keeps none. |
| `Sequences.FilterAppend` | api-docs/src/main/java/apidocs/OpenApiConfig.java:28-29 | Filtering a concatenation is the concatenation of the filtered parts. This is what lets the group list be built one definition at a time. |
| `Sequences.FilterIdempotent` | static-demo/server.js:76-79 | Filtering a filtered list again with the same test returns it unchanged. |
| `Sequences.FilterUnique` | static-demo/server.js:76-79 | Any subsequence of the input that keeps exactly every copy of the accepted values equals the filter. |
| `Sequences.SubsequenceCounts` | static-demo/server.js:76-79 | A subsequence never holds more copies of a value than its source. |
| `Sequences.FilterKeepsAll` | static-demo/server.js:72-73 | A test that accepts every element keeps the whole sequence, which is why the empty query can skip the filter. |
| `CatalogServer.FindByName` | static-demo/server.js:93 | The result is absent exactly when no entry has that exact name. A present result has that name and comes from the catalog. |
| `CatalogServer.FindByNameFirst` | static-demo/server.js:93 | If index i is the first index whose name equals the argument, lookup returns the entry at i. So with duplicate names the earliest entry wins. |
| `CatalogServer.FindByNameIsFirst` | static-demo/server.js:93 | A found entry sits at an index before which no entry has that name. |
| `CatalogServer.FindByNameExample` | static-demo/server.js:92-97 | In the catalog [Weather, Maps], lookup of "Maps" finds Maps and lookup of "maps" finds nothing: the comparison is case-sensitive. |
| `CatalogServer.Matches` | static-demo/server.js:76-78 | An entry matches a folded query exactly when that query is a substring of the entry's folded name or of its folded url. |
| `CatalogServer.QueryText` | static-demo/server.js:70 | A missing `q` is read as the empty query, and a string `q` is read as it is. |
| `CatalogServer.Search` | static-demo/server.js:70-79 | The result is never longer than the catalog. Every result entry comes from the catalog and matches the folded query. Every catalog entry that matches the folded query is in the result. An empty query counts as matched by every entry. |
| `CatalogServer.MatchesEmptyQuery` | static-demo/server.js:76-79 | Every entry matches the empty query, since the empty string occurs in every name. |
| `CatalogServer.SearchEmptyIsIdentity` | static-demo/server.js:70-74 | An empty query returns the whole catalog, unchanged and in order. |
| `CatalogServer.SearchSound` | static-demo/server.js:76-79 | For every query, every result has the folded query as a substring of its folded name or of its folded url. |
| `CatalogServer.SearchComplete` | static-demo/server.js:76-79 | For every query, a matching entry appears in the result as often as in the catalog, and a non-matching entry never appears. |
| `CatalogServer.SearchKeepsOrder` | static-demo/server.js:70-79 | The result is a subsequence of the catalog, so it keeps catalog order and is never longer than the catalog. |
| `CatalogServer.SearchIdempotent` | static-demo/server.js:70-79 | Searching the result again with the same query returns it unchanged. |
| `CatalogServer.SearchCharacterized` | static-demo/server.js:76-79 | Soundness, completeness and order together determine the search result: any list that has all three equals it. |
| `CatalogServer.SearchIgnoresCase` | static-demo/server.js:70 | Two queries that are equal up to ASCII case give the same result. |
| `CatalogServer.SearchExample` | static-demo/server.js:70-79 | In the catalog [Weather, Maps], both "weather" and "WEATHER" find exactly [Weather]. |
| `CatalogServer.ApiPortal.constructor` | static-demo/server.js:22-31 | A successful load makes the catalog the parsed list. A failed read or parse leaves it empty and does not stop startup. |
| `CatalogServer.ApiPortal.SwaggerConfig` | static-demo/server.js:36-53 | Normally: status 200, `urls` is the whole catalog, `validatorUrl` is null. On an exception: status 500 with error `Failed to load API configuration`, `urls` empty and `validatorUrl` still null. |
| `CatalogServer.ApiPortal.AllApis` | static-demo/server.js:57-65 | Status 200 with the whole catalog in load order, or 500 `Failed to load APIs`. |
| `CatalogServer.ApiPortal.SearchApis` | static-demo/server.js:68-87 | Status 200 exactly when `q` is missing or a string and nothing throws. The 200 body is the search result, a subsequence of the catalog. Otherwise the answer is 500 `Search failed`. |
| `CatalogServer.ApiPortal.ApiByName` | static-demo/server.js:90-105 | 404 `API not found` exactly when no entry has that exact name. 200 exactly when some entry has it; the body is the entry at the first index with that name, the one `FindByName` returns. 500 `Failed to load API` when the handler throws. |
| `CatalogServer.ApiPortal.ApiInfo` | static-demo/server.js:108-128 | Status 200 with message `API Portal Server`, version `1.0.0`, exactly the five fixed endpoints, `totalApis` equal to the catalog length, and the request timestamp. Otherwise 500 `Failed to load API information`. |
| `CatalogServer.ApiPortal.Health` | static-demo/server.js:131-138 | Always status 200, `status` "OK", `apisLoaded` equal to the catalog length, and the timestamp and uptime it was given. |
| `CatalogServer.EndpointsAgree` | static-demo/server.js:40-135 | The endpoints agree on the catalog: `/api`'s `totalApis` and `/health`'s `apisLoaded` equal the catalog length, and swagger-config, `/api/apis` and an absent search query all return the catalog itself. |
| `CatalogServer.StartAfterLoadFailure` | static-demo/server.js:22-31 | A server whose catalog failed to load still answers `/health` with 200 and `apisLoaded` 0, and `/api` with `totalApis` 0. |
| `CatalogServer.EndpointNamesDistinct` | static-demo/server.js:114-120 | The endpoint map of `/api` has exactly five entries, and their names are distinct. |
| `SyntheticDoc.ExampleOperation` | static-demo/server.js:165-185 | The example GET has summary "Example endpoint" and description "Example endpoint for " + path. Its only response is "200", described "Successful response", with only a JSON body. That body's schema is an object whose only property, `message`, is a string with example "Hello from API". |
| `SyntheticDoc.Generate` | static-demo/server.js:151-189 | `openapi` is "3.0.0". The title is "API Documentation - " + path, and the description is "Documentation for " + path. `paths` has exactly one key, `/example`, and its GET is the example operation built for that same path. Nothing is checked against the catalog. |
| `SyntheticDoc.PathOfTitle` | static-demo/server.js:159 | When the title has the fixed prefix, what follows the prefix is a path whose title is that title. |
| `SyntheticDoc.TitleNamesPath` | static-demo/server.js:159 | The request path can be read back from the title, and it occurs in the title verbatim. |
| `SyntheticDoc.GenerateInjective` | static-demo/server.js:151-189 | Different request paths give different documents. |
| `OpenApiConfig.MatchesAnyThenIff` | api-docs/src/main/java/apidocs/OpenApiConfig.java:29 | A string fully matches `.*` followed by a literal exactly when it ends with the literal and has no line terminator before it. |
| `OpenApiConfig.IsCoreRouteIff` | api-docs/src/main/java/apidocs/OpenApiConfig.java:29 | The route filter keeps a definition exactly when its id ends in `-core` and has no line terminator before that suffix. |
| `OpenApiConfig.CoreRouteExamples` | api-docs/src/main/java/apidocs/OpenApiConfig.java:29 | `user-core` and `-core` are kept. `user-core-v2`, `core` and an id with a newline before `-core` are dropped. |
| `OpenApiConfig.MetadataText` | api-docs/src/main/java/apidocs/OpenApiConfig.java:31-34 | A present metadata value is used as it is. A missing one is printed as `null`. |
| `OpenApiConfig.GroupName` | api-docs/src/main/java/apidocs/OpenApiConfig.java:31-34 | For every route, the name is the domain, service and version texts joined by `/`, with a missing value printed as `null`. When neither the domain nor the service text holds a slash, splitting the name at its first two slashes gives back the three texts. |
| `OpenApiConfig.Group` | api-docs/src/main/java/apidocs/OpenApiConfig.java:36-39 | The group built for a route is named after the route's `domain/service/version` and matches `/**`. |
| `OpenApiConfig.CoreGroups` | api-docs/src/main/java/apidocs/OpenApiConfig.java:28-40 | There is one group per matching definition, so never more groups than definitions, and every group matches `/**`. |
| `OpenApiConfig.CoreGroupsSingle` | api-docs/src/main/java/apidocs/OpenApiConfig.java:28-40 | One definition gives exactly one group if its id matches, and no group otherwise. |
| `OpenApiConfig.CoreGroupsAppend` | api-docs/src/main/java/apidocs/OpenApiConfig.java:28-40 | The groups of two lists of definitions joined together are the groups of the first list followed by the groups of the second, so group order follows definition order. |
| `OpenApiConfig.NonCoreRouteDropped` | api-docs/src/main/java/apidocs/OpenApiConfig.java:29 | A definition whose id does not match can be removed without changing the groups. |
| `OpenApiConfig.CoreRouteKept` | api-docs/src/main/java/apidocs/OpenApiConfig.java:28-40 | A matching definition contributes exactly its own group, in its own position. |
| `OpenApiConfig.CoreGroupsSoundComplete` | api-docs/src/main/java/apidocs/OpenApiConfig.java:28-40 | Every group is named `domain/service/version` from some matching definition. Every matching definition has its group. |
| `OpenApiConfig.Apis` | api-docs/src/main/java/apidocs/OpenApiConfig.java:23-42 | The loop, which appends to an initially empty list, returns exactly the groups of the matching definitions in definition order. |
| `OpenApiConfig.RedirectWithUsingRedirectView` | api-docs/src/main/java/apidocs/OpenApiConfig.java:44-47 | `/` always redirects to `/swagger-ui/index.html`. |
| `SwaggerUiConfig.DocsUrl` | api-docs/src/main/java/apidocs/SwaggerUiConfig.java:23 | A group's documents URL starts with `/api/` and ends with `/api-docs`, and is longer than the group by exactly the length of those two parts. |
| `SwaggerUiConfig.GroupOfDocsUrl` | api-docs/src/main/java/apidocs/SwaggerUiConfig.java:23 | When a URL has the documents shape, the group read from it maps back to that same URL. |
| `SwaggerUiConfig.DocsUrlRoundTrip` | api-docs/src/main/java/apidocs/SwaggerUiConfig.java:23 | Reading the group back from a group's documents URL gives that group. |
| `SwaggerUiConfig.Parameters.constructor` | api-docs/src/main/java/apidocs/SwaggerUiConfig.java:17 | Fresh parameters have no config URL and no entries. |
| `SwaggerUiConfig.Parameters.SetConfigUrl` | api-docs/src/main/java/apidocs/SwaggerUiConfig.java:19 | Sets the config URL and leaves the entries alone. |
| `SwaggerUiConfig.Parameters.AddUrl` | api-docs/src/main/java/apidocs/SwaggerUiConfig.java:26 | Adds one entry to the set and leaves the config URL alone. |
| `SwaggerUiConfig.SwaggerUiConfigParameters` | api-docs/src/main/java/apidocs/SwaggerUiConfig.java:16-30 | Returns new parameters whose config URL is `/api/swagger-config` and whose entries are exactly one (group, `/api/<group>/api-docs`, group) entry per input group. |
| `SwaggerUiConfig.UrlEntry` | api-docs/src/main/java/apidocs/SwaggerUiConfig.java:22-25 | A group's entry has the group as name and as display name, and `"/api/" + group + "/api-docs"` as url. The group reads back from that url. |
| `SwaggerUiConfig.EntriesFor` | api-docs/src/main/java/apidocs/SwaggerUiConfig.java:21-27 | Every input group has its entry. Every entry is named after some input group, shows that name, and points at a url that reads back to that name. |
| `SwaggerUiConfig.UiEntriesOfRoutes` | api-docs/src/main/java/apidocs/SwaggerUiConfig.java:21-27 | Across both configuration classes, the UI entries are exactly one per matching route definition, named after its `domain/service/version` group. |

## Left out

- Express plumbing is left out because it is I/O: static file hosting, JSON body parsing, CORS headers, `sendFile` for `/`, `listen` and the startup banner, `SIGINT` handling, and all console logging.
- Express route dispatch is left out because it is framework routing: which handler a path reaches, the top-level 500 error handler, the `Route not found` 404 fallback, and how `req.path` and `req.query` are computed. The request path and the query parameter are inputs.
- Reading `data.json` and `JSON.parse` are left out as I/O and parsing. The constructor takes the load's outcome as a `Result`.
- A `data.json` that parses to something other than an array of objects with string `name` and `url` fields is not modelled. The code falls back to the empty catalog only when something inside the load's `try` block throws (lines 23-30). A JSON `null` payload does fall back, because reading `apiData.length` on line 27 throws. Any other value is kept as the catalog. The handlers then report whatever `length` that value has: undefined for a number or an object, the character count for a string. `/api/swagger-config` answers the value itself as `urls`. Searching with a non-empty `q` and looking up by name call `filter` and `find`, which such a value lacks, so they answer 500. The model covers the two cases that fit a list of descriptors: a successful load keeps the parsed list, and a failed read or parse (or a `null` payload) gives the empty catalog.
- Timestamps (`new Date().toISOString()`) and `process.uptime()` are left out because they come from the clock. They are parameters of `ApiInfo` and `Health`.
- Text.Lower: ASCII case fold only, because Unicode `toLowerCase` (special casing, non-ASCII letters) is not modelled. Names and urls outside ASCII letters are compared as they are.
- CatalogServer.ApiPortal: the `raised` flag stands for exceptions from the framework's JSON writer, which the model does not otherwise represent.
- OpenApiConfig.Apis is left out as framework code in these parts: the Reactor `collectList().block()`, the Java `assert definitions != null`, and the `GroupedOpenApi` builder internals. The definitions are a plain sequence and a group is a record of its name and path patterns.
- OpenApiConfig.GroupName: the name is stated for every route, but reading it back into its three parts is proved only when the domain and the service hold no slash. With slashes, several metadata triples print the same name, and the source does nothing to prevent that.
- OpenApiConfig: metadata values are modelled as the text `String.format` prints for them, because their Java types are not modelled.
- SwaggerUiConfig.Parameters keeps only the two properties this configuration writes, because the rest of the library class is not modelled. Its entries are a set, because whether the library's set removes duplicates or orders entries is not visible here.
- `WebConfig.java` (resource handler registration) is not part of this model. `SwaggerConfigController.java` (which returns the library's own configuration map) and the gateway's HTTP integration test are not part of it either.
- SyntheticDoc.Generate models only the document. The handler always answers it with status 200.
