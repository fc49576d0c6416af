/** The shapes that cross the boundary to the SPARQL endpoint: result terms and
    bindings as the SPARQL 1.1 Query Results JSON Format (section 3.2) delivers them,
    an abstract description of each query the client sends, and the small records
    the client builds out of bindings. */
module Bindings {
  import opened Common

  /** The `type` member of an RDF term in a JSON result (the source admits these two). */
  datatype TermType = Uri | Literal

  /** An RDF term of a JSON result: its `type` and its `value`. */
  datatype Term = Term(kind: TermType, value: string)

  /** One solution: variable name to term; an unbound variable is absent. */
  type Binding = map<string, Term>

  /** What the HTTP round trip yields: the status, the body as text, and the bindings
      of `results.bindings` in document order. */
  datatype Response = Response(status: int, text: string, bindings: seq<Binding>)

  /** The queries the client sends, identified by what they are parameterised with.
      `RelationsQuery` carries the exact text of its `VALUES ?object` block; the other
      VALUES lists are carried as the list of subjects they enumerate. */
  datatype SparqlQuery =
    | DataQuery(subject: string, property: string, sizeLimit: nat)
    | ImageQuery(subject: string)
    | ImagesQuery(subjects: seq<string>)
    | LabelsQuery(subjects: seq<string>)
    | LabelQuery(subject: string)
    | RelationsQuery(subject: string, objectValues: string)
    | PropertyQuery(subject: string, property: string, sizeLimit: nat)
    | PropertiesQuery(subject: string)

  /** The endpoint as an oracle from query to HTTP response. */
  type Endpoint = SparqlQuery -> Response

  /** `b.name.value`: reading an unbound variable dereferences `undefined` and throws. */
  function Value(b: Binding, name: string): (r: Result<string>)
    ensures r.Ok? <==> name in b
    ensures r.Ok? ==> r.value == b[name].value
  {
    if name in b then Ok(b[name].value) else Err("TypeError: cannot read 'value' of undefined")
  }

  /** `{ uri, label }` as produced by the label lookups. */
  datatype LabelRecord = LabelRecord(uri: string, labelText: string)

  /** `{ image, uri }` as produced by the image lookups. */
  datatype ImageRecord = ImageRecord(image: string, uri: string)

  /** A predicate of a subject with its label and its in/out degree (the `Property` class). */
  datatype Property = Property(labelText: Option<string>, uri: string, inCount: JsNumber, outCount: JsNumber)

  /** A relation binding after projection: the four `.value`s the graph reads. */
  datatype Relation = Relation(subject: string, property: string, objectValue: string, propLabel: string)

  /** `labels.find((l) => l.uri == uri)?.label ?? ''`. */
  function LabelOf(labels: seq<LabelRecord>, uri: string): (r: string)
    ensures (exists k :: 0 <= k < |labels| && labels[k].uri == uri) ==>
              exists k :: 0 <= k < |labels| && labels[k].uri == uri && r == labels[k].labelText &&
                          forall j :: 0 <= j < k ==> labels[j].uri != uri
    ensures (forall k :: 0 <= k < |labels| ==> labels[k].uri != uri) ==> r == ""
  {
    if labels == [] then ""
    else if labels[0].uri == uri then labels[0].labelText
    else
      var r := LabelOf(labels[1..], uri);
      assert forall k :: 1 <= k < |labels| ==> labels[k] == labels[1..][k - 1];
      r
  }

  /** `images.find((i) => i.uri === uri)?.image`. */
  function ImageOf(images: seq<ImageRecord>, uri: string): (r: Option<string>)
    ensures r.None? <==> forall k :: 0 <= k < |images| ==> images[k].uri != uri
    ensures r.Some? ==> exists k :: 0 <= k < |images| && images[k].uri == uri && r.value == images[k].image &&
                                    forall j :: 0 <= j < k ==> images[j].uri != uri
  {
    if images == [] then None
    else if images[0].uri == uri then Some(images[0].image)
    else
      var r := ImageOf(images[1..], uri);
      assert forall k :: 1 <= k < |images| ==> images[k] == images[1..][k - 1];
      r
  }

  /** The `Property` built from the first binding of a property query: the label is
      optional (`res.propLabel?.value`), the two counts are mandatory and go through `+`. */
  function PropertyFrom(res: Binding, property: string): (r: Result<Property>)
    ensures r.Ok? <==> "outCount" in res && "inCount" in res
    ensures r.Ok? ==>
      && r.value.uri == property
      && r.value.outCount == ToNumber(res["outCount"].value)
      && r.value.inCount == ToNumber(res["inCount"].value)
      && r.value.labelText == (if "propLabel" in res then Some(res["propLabel"].value) else None)
  {
    var lbl := if "propLabel" in res then Some(res["propLabel"].value) else None;
    match Value(res, "outCount")
    case Err(m) => Err(m)
    case Ok(out) =>
      match Value(res, "inCount")
      case Err(m) => Err(m)
      case Ok(inc) => Ok(Property(lbl, property, ToNumber(inc), ToNumber(out)))
  }

  /** `{ subject.value, property.value, object.value, propLabel.value }` of a relation binding. */
  function RelationOf(b: Binding): (r: Result<Relation>)
    ensures r.Ok? <==> "subject" in b && "property" in b && "object" in b && "propLabel" in b
    ensures r.Ok? ==> r.value == Relation(b["subject"].value, b["property"].value,
                                          b["object"].value, b["propLabel"].value)
  {
    if "subject" in b && "property" in b && "object" in b && "propLabel" in b
    then Ok(Relation(b["subject"].value, b["property"].value, b["object"].value, b["propLabel"].value))
    else Err("TypeError: cannot read 'value' of undefined")
  }
}
