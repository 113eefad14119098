/** The parsed inputs the adapter works on: a Swagger (OpenAPI 2.0) catalog
    and Calcite's push-down filter expressions. Both come from collaborators
    outside the model (the document parser and the query planner). */
module Swagger {
  import opened Wrappers

  /** One declared property of an entity: its name and its `getType()` string. */
  datatype Property = Property(name: string, typeName: string)

  /** An entity definition. Its properties are a Java map, kept here in its
      iteration order; a map has no two entries with one key. */
  datatype Model = Model(properties: seq<Property>)

  function Names(m: Model): (r: seq<string>)
    ensures |r| == |m.properties|
    ensures forall i :: 0 <= i < |r| ==> r[i] == m.properties[i].name
  {
    seq(|m.properties|, i requires 0 <= i < |m.properties| => m.properties[i].name)
  }

  /** `getProperties().get(name)`. */
  function Lookup(m: Model, name: string): (r: Option<Property>)
    ensures r.Some? ==> r.value in m.properties && r.value.name == name
    ensures r.None? ==> name !in Names(m)
  {
    LookupIn(m.properties, name)
  }

  function LookupIn(ps: seq<Property>, name: string): (r: Option<Property>)
    ensures r.Some? ==> r.value in ps && r.value.name == name
    ensures r.None? ==> forall p :: p in ps ==> p.name != name
    decreases |ps|
  {
    if ps == [] then None
    else if ps[0].name == name then Some(ps[0])
    else
      var r := LookupIn(ps[1..], name);
      assert forall p :: p in ps ==> p == ps[0] || p in ps[1..];
      r
  }

  datatype Parameter = Parameter(name: string)

  /** The schema of a response: an ArrayModel, or any other model. */
  datatype ResponseSchema = ArrayModel | OtherModel

  datatype Response = Response(schema: Option<ResponseSchema>)

  /** A GET operation: its parameter list (possibly absent) and its responses
      by status code. */
  datatype Operation = Operation(parameters: Option<seq<Parameter>>, responses: map<string, Response>)

  /** One entry of the `paths` map: the path key and the path's GET, if any. */
  datatype PathEntry = PathEntry(key: string, get: Option<Operation>)

  /** The Swagger Object: `schemes`, `host` and `basePath` may each be absent
      (Java null); `paths` in document order; `definitions` by entity name.
      Each scheme is held as the text `String.format("%s", scheme)` gives for
      it, that is its `toString()`; for the swagger-models `Scheme` enum, which
      keeps the lower-case spelling only for JSON, that is the constant name
      (`HTTP`, `HTTPS`, `WS`, `WSS`). */
  datatype Swagger = Swagger(
    schemes: Option<seq<string>>,
    host: Option<string>,
    basePath: Option<string>,
    paths: seq<PathEntry>,
    definitions: map<string, Model>)

  /** Java string concatenation renders null as "null". */
  function JavaString(s: Option<string>): string {
    match s
    case Some(v) => v
    case None => "null"
  }

  /** A push-down filter as Calcite's RexNode: an EQUALS or AND call with its
      operands, a column reference, a literal with its type name and its
      `toString()` text, or anything else (IS NULL, other calls). */
  datatype RexNode =
    | Equals(operands: seq<RexNode>)
    | And(operands: seq<RexNode>)
    | InputRef(index: int)
    | Literal(typeName: string, text: string)
    | OtherNode
}
