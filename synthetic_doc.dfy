/**
 * The placeholder OpenAPI document the static demo server answers on its API
 * documentation route (`/api/`, any segments, then `/api-docs`): a fixed OpenAPI
 * 3.0 skeleton into which the request path is written. It does not consult the
 * catalog, so any path gets a document.
 */
module SyntheticDoc {
  import opened Wrappers
  import opened Text

  datatype Schema =
    | ObjectSchema(properties: map<string, Schema>)
    | StringSchema(example: string)

  datatype MediaType = MediaType(schema: Schema)

  datatype ResponseSpec = ResponseSpec(description: string, content: map<string, MediaType>)

  datatype Operation = Operation(summary: string, description: string, responses: map<string, ResponseSpec>)

  /** A path item; only the GET operation is ever filled in. */
  datatype PathItem = PathItem(get: Option<Operation>)

  datatype Info = Info(title: string, version: string, description: string)

  datatype OpenApiDocument = OpenApiDocument(openapi: string, info: Info, paths: map<string, PathItem>)

  const TitlePrefix := "API Documentation - "
  const DescriptionPrefix := "Documentation for "

  /** The one illustrative operation: a GET answering an object with a string `message`. */
  function ExampleOperation(apiPath: string): (op: Operation)
    ensures op.summary == "Example endpoint"
    ensures op.description == "Example endpoint for " + apiPath
    ensures op.responses.Keys == {"200"}
    ensures op.responses["200"].description == "Successful response"
    ensures op.responses["200"].content.Keys == {"application/json"}
    ensures op.responses["200"].content["application/json"].schema.ObjectSchema?
    ensures op.responses["200"].content["application/json"].schema.properties.Keys == {"message"}
    ensures op.responses["200"].content["application/json"].schema.properties["message"]
            == StringSchema("Hello from API")
  {
    Operation(
      "Example endpoint",
      "Example endpoint for " + apiPath,
      map["200" := ResponseSpec(
        "Successful response",
        map["application/json" := MediaType(
          ObjectSchema(map["message" := StringSchema("Hello from API")]))])])
  }

  /** The document served for request path `apiPath`. */
  function Generate(apiPath: string): (doc: OpenApiDocument)
    ensures doc.openapi == "3.0.0" && doc.info.version == "1.0.0"
    ensures doc.info.title == TitlePrefix + apiPath
    ensures doc.info.description == DescriptionPrefix + apiPath
    ensures doc.paths.Keys == {"/example"}
    ensures doc.paths["/example"].get == Some(ExampleOperation(apiPath))
  {
    OpenApiDocument(
      "3.0.0",
      Info(TitlePrefix + apiPath, "1.0.0", DescriptionPrefix + apiPath),
      map["/example" := PathItem(Some(ExampleOperation(apiPath)))])
  }

  /** The request path can be read back from the title. */
  function PathOfTitle(title: string): (p: Option<string>)
    ensures p.Some? ==> TitlePrefix + p.value == title
  {
    if |title| >= |TitlePrefix| && title[..|TitlePrefix|] == TitlePrefix
    then Some(title[|TitlePrefix|..])
    else None
  }

  /** Reading the title back gives the request path, so the title contains it verbatim. */
  lemma TitleNamesPath(apiPath: string)
    ensures PathOfTitle(Generate(apiPath).info.title) == Some(apiPath)
    ensures IsSubstring(apiPath, Generate(apiPath).info.title)
  {
    var title := Generate(apiPath).info.title;
    assert title[..|TitlePrefix|] == TitlePrefix;
    assert title[|TitlePrefix|..] == apiPath;
    assert OccursAt(apiPath, title, |TitlePrefix|);
  }

  /** Different request paths give different documents. */
  lemma GenerateInjective(p1: string, p2: string)
    requires Generate(p1) == Generate(p2)
    ensures p1 == p2
  {
    TitleNamesPath(p1);
    TitleNamesPath(p2);
  }
}
