/** The SPARQL client of the earlier graph package (ui/packages/graph/src/api.ts).
    Unlike the current client it reads `results.bindings` without looking at the HTTP
    status, writes every other node into the relations VALUES block (there is no URL
    test), and its label lookup throws when nothing is found for any number of subjects
    other than one.  The HTTP round trip is the `endpoint` oracle; the batch size and the
    result limit are the module's constants. */
module DraftApi {
  import opened Common
  import opened Bindings
  import ValuesBlock
  import Sparql

  /** `RATE_LIMIT`: how many lookups one round sends. */
  const RateLimit: nat := 5
  /** `SIZE_LIMIT`: the `LIMIT` of the data and property queries. */
  const SizeLimit: nat := 100

  /** `SPARQL_query`: the bindings of the response, whatever its status. */
  function Run(endpoint: Endpoint, q: SparqlQuery): seq<Binding>
  {
    endpoint(q).bindings
  }

  // ---------------------------------------------------------------- relations

  /** The `+=` loop of `fetch_relations`: every other node on a line of its own, in order. */
  method BuildValues(otherNodes: seq<string>) returns (text: string)
    ensures text == ValuesBlock.Block(otherNodes)
    ensures (forall k :: 0 <= k < |otherNodes| ==> ValuesBlock.Bracketable(otherNodes[k])) ==>
              ValuesBlock.ParseBlock(text) == Some(otherNodes)
  {
    text := ValuesBlock.Opening;
    var i := 0;
    while i < |otherNodes|
      invariant 0 <= i <= |otherNodes|
      invariant text == ValuesBlock.Opening + ValuesBlock.Lines(otherNodes[..i])
    {
      assert otherNodes[..i + 1] == otherNodes[..i] + [otherNodes[i]];
      ValuesBlock.LinesSnoc(otherNodes[..i], otherNodes[i]);
      text := text + ValuesBlock.Line(otherNodes[i]);
      i := i + 1;
    }
    assert otherNodes[..i] == otherNodes;
    text := text + "}";
    if forall k :: 0 <= k < |otherNodes| ==> ValuesBlock.Bracketable(otherNodes[k]) {
      ValuesBlock.BlockRoundTrip(otherNodes);
    }
  }

  /** What `fetch_relations(subject, otherNodes)` yields: the bindings of the relations
      query over all of `otherNodes`. */
  function RelationsOf(subject: string, otherNodes: seq<string>, endpoint: Endpoint): seq<Binding>
  {
    Run(endpoint, SparqlQuery.RelationsQuery(subject, ValuesBlock.Block(otherNodes)))
  }

  method FetchRelations(subject: string, otherNodes: seq<string>, endpoint: Endpoint) returns (r: seq<Binding>)
    ensures r == RelationsOf(subject, otherNodes, endpoint)
  {
    var relations := BuildValues(otherNodes);
    r := Run(endpoint, SparqlQuery.RelationsQuery(subject, relations));
  }

  // ---------------------------------------------------------------- labels

  /** `fetch_labels`: a non-empty result gives one record per binding, in binding order;
      an empty one labels a single subject by itself and throws for any other count. */
  function FetchLabels(subjects: seq<string>, endpoint: Endpoint): (r: Result<seq<LabelRecord>>)
    ensures var result := Run(endpoint, SparqlQuery.LabelsQuery(subjects));
      && (|result| > 0 ==> r == MapAll(Sparql.LabelRecordOf, result))
      && (|result| == 0 && |subjects| == 1 ==> r == Ok([LabelRecord(subjects[0], subjects[0])]))
      && (|result| == 0 && |subjects| != 1 ==> r == Err("Unable to fetch label: "))
  {
    var result := Run(endpoint, SparqlQuery.LabelsQuery(subjects));
    if |result| > 0 then MapAll(Sparql.LabelRecordOf, result)
    else if |subjects| == 1 then Ok([LabelRecord(subjects[0], subjects[0])])
    else Err("Unable to fetch label: ")
  }

  /** The label lookup succeeds exactly when the endpoint found labels, all of them
      complete, or found none for a lone subject; it then has one record per binding, or
      the subject labelled by itself, so that subject's label is itself. */
  lemma FetchLabelsMeaning(subjects: seq<string>, endpoint: Endpoint)
    ensures var result := Run(endpoint, SparqlQuery.LabelsQuery(subjects));
      var r := FetchLabels(subjects, endpoint);
      && (r.Ok? <==> (|result| > 0 && forall k :: 0 <= k < |result| ==> "subject" in result[k] && "subjectLabel" in result[k])
                     || (|result| == 0 && |subjects| == 1))
      && (r.Ok? && |result| > 0 ==>
            |r.value| == |result| &&
            forall k :: 0 <= k < |result| ==>
              r.value[k] == LabelRecord(result[k]["subject"].value, result[k]["subjectLabel"].value))
      && (r.Ok? && |result| == 0 ==> LabelOf(r.value, subjects[0]) == subjects[0])
  {
    var result := Run(endpoint, SparqlQuery.LabelsQuery(subjects));
    if |result| > 0 {
      var m := MapAll(Sparql.LabelRecordOf, result);
      if forall k :: 0 <= k < |result| ==> "subject" in result[k] && "subjectLabel" in result[k] {
        assert forall k :: 0 <= k < |result| ==> Sparql.LabelRecordOf(result[k]).Ok?;
      } else {
        var k :| 0 <= k < |result| && !("subject" in result[k] && "subjectLabel" in result[k]);
        assert Sparql.LabelRecordOf(result[k]).Err?;
      }
    }
  }

  /** `fetch_label`: the first binding's label, or the subject itself when there is none. */
  function FetchLabel(subject: string, endpoint: Endpoint): (r: Result<string>)
    ensures var result := Run(endpoint, SparqlQuery.LabelQuery(subject));
      && (result == [] ==> r == Ok(subject))
      && (result != [] ==> (r.Ok? <==> "subjectLabel" in result[0]))
      && (result != [] && r.Ok? ==> r.value == result[0]["subjectLabel"].value)
  {
    var result := Run(endpoint, SparqlQuery.LabelQuery(subject));
    if |result| > 0 then Value(result[0], "subjectLabel") else Ok(subject)
  }

  // ---------------------------------------------------------------- related nodes

  /** One element of the result of `fetch_data`. */
  datatype DataResult = DataResult(uri: string, labelText: string, relations: seq<Binding>)

  /** `c.object.value` of a binding of the data query. */
  function ObjectValue(b: Binding): (r: Result<string>)
    ensures r == Value(b, "object")
  {
    Value(b, "object")
  }

  /** The first `n` results before labelling: each related node with an empty label and
      the relations to `others`. */
  function Unlabelled(uris: seq<string>, n: nat, others: seq<string>, endpoint: Endpoint): (r: seq<DataResult>)
    requires n <= |uris|
    ensures |r| == n
    ensures forall k :: 0 <= k < n ==> r[k] == DataResult(uris[k], "", RelationsOf(uris[k], others, endpoint))
  {
    seq(n, k requires 0 <= k < n => DataResult(uris[k], "", RelationsOf(uris[k], others, endpoint)))
  }

  lemma UnlabelledSnoc(uris: seq<string>, n: nat, others: seq<string>, endpoint: Endpoint)
    requires n < |uris|
    ensures Unlabelled(uris, n + 1, others, endpoint) ==
            Unlabelled(uris, n, others, endpoint) + [DataResult(uris[n], "", RelationsOf(uris[n], others, endpoint))]
  {
  }

  /** Every result with the first label recorded for its uri, else `""`. */
  function Labelled(results: seq<DataResult>, labels: seq<LabelRecord>): (r: seq<DataResult>)
    ensures |r| == |results|
    ensures forall k :: 0 <= k < |r| ==> r[k] == results[k].(labelText := LabelOf(labels, results[k].uri))
  {
    seq(|results|, k requires 0 <= k < |results| => results[k].(labelText := LabelOf(labels, results[k].uri)))
  }

  /** What `fetch_data(subject, property, nodes)` yields: the related nodes of the data
      query, each with its relations to `nodes` and to all related nodes, then labelled by
      one label lookup over all of them. A binding without `object`, or a failed label
      lookup, makes it throw. */
  function DataOf(subject: string, property: string, nodes: seq<string>, endpoint: Endpoint)
    : (r: Result<seq<DataResult>>)
    ensures var objects := MapAll(ObjectValue, Run(endpoint, SparqlQuery.DataQuery(subject, property, SizeLimit)));
      && (r.Ok? <==> objects.Ok? && FetchLabels(objects.value, endpoint).Ok?)
      && (r.Ok? ==>
            var uris := objects.value;
            var labels := FetchLabels(uris, endpoint).value;
            && |r.value| == |uris|
            && forall k :: 0 <= k < |uris| ==>
                 && r.value[k].uri == uris[k]
                 && r.value[k].labelText == LabelOf(labels, uris[k])
                 && r.value[k].relations == RelationsOf(uris[k], nodes + uris, endpoint))
  {
    match MapAll(ObjectValue, Run(endpoint, SparqlQuery.DataQuery(subject, property, SizeLimit)))
    case Err(m) => Err(m)
    case Ok(uris) =>
      match FetchLabels(uris, endpoint)
      case Err(m) => Err(m)
      case Ok(labels) => Ok(Labelled(Unlabelled(uris, |uris|, nodes + uris, endpoint), labels))
  }

  /** When the data query finds nothing and the label lookup over no subjects finds
      nothing either, `fetch_data` throws rather than yielding an empty list. */
  lemma DataOfNoObjects(subject: string, property: string, nodes: seq<string>, endpoint: Endpoint)
    requires Run(endpoint, SparqlQuery.DataQuery(subject, property, SizeLimit)) == []
    requires Run(endpoint, SparqlQuery.LabelsQuery([])) == []
    ensures DataOf(subject, property, nodes, endpoint) == Err("Unable to fetch label: ")
  {
  }

  /** One round of the batch loop: the results for `uris[i..end]`, appended in order. */
  method FetchDataRound(uris: seq<string>, i: nat, end: nat, results: seq<DataResult>, others: seq<string>,
                        endpoint: Endpoint)
    returns (r: seq<DataResult>)
    requires i <= end <= |uris|
    requires results == Unlabelled(uris, i, others, endpoint)
    ensures r == Unlabelled(uris, end, others, endpoint)
  {
    r := results;
    var j := i;
    while j < end
      invariant i <= j <= end
      invariant r == Unlabelled(uris, j, others, endpoint)
    {
      var relations := FetchRelations(uris[j], others, endpoint);
      UnlabelledSnoc(uris, j, others, endpoint);
      r := r + [DataResult(uris[j], "", relations)];
      j := j + 1;
    }
  }

  /** The loop that fills in the labels. */
  method LabelAll(results: seq<DataResult>, labels: seq<LabelRecord>) returns (r: seq<DataResult>)
    ensures r == Labelled(results, labels)
  {
    r := results;
    var k := 0;
    while k < |r|
      invariant 0 <= k <= |r| == |results|
      invariant forall j :: 0 <= j < k ==> r[j] == results[j].(labelText := LabelOf(labels, results[j].uri))
      invariant forall j :: k <= j < |r| ==> r[j] == results[j]
    {
      r := r[k := r[k].(labelText := LabelOf(labels, r[k].uri))];
      k := k + 1;
    }
  }

  /** `fetch_data`: the related nodes, with their relations looked up in rounds of
      `RateLimit` (`rounds`), then labelled. */
  method FetchData(subject: string, property: string, nodes: seq<string>, endpoint: Endpoint)
    returns (r: Result<seq<DataResult>>, ghost rounds: seq<seq<string>>)
    ensures r == DataOf(subject, property, nodes, endpoint)
    ensures r.Ok? ==>
      rounds == Batches(MapAll(ObjectValue, Run(endpoint, SparqlQuery.DataQuery(subject, property, SizeLimit))).value, RateLimit)
  {
    rounds := [];
    var result := Run(endpoint, SparqlQuery.DataQuery(subject, property, SizeLimit));
    var objects := MapAll(ObjectValue, result);
    if objects.Err? {
      return Err(objects.message), rounds;
    }
    var allNewNodes := objects.value;
    var others := nodes + allNewNodes;
    var results: seq<DataResult> := [];
    var i := 0;
    while i < |allNewNodes|
      invariant 0 <= i <= |allNewNodes|
      invariant results == Unlabelled(allNewNodes, i, others, endpoint)
      invariant Batches(allNewNodes, RateLimit) == rounds + Batches(allNewNodes[i..], RateLimit)
    {
      var end := Min(i + RateLimit, |allNewNodes|);
      RoundsStep(allNewNodes, i, RateLimit, rounds);
      rounds := rounds + [allNewNodes[i..end]];
      results := FetchDataRound(allNewNodes, i, end, results, others, endpoint);
      i := end;
    }
    var labels := FetchLabels(allNewNodes, endpoint);
    if labels.Err? {
      return Err(labels.message), rounds;
    }
    var labelled := LabelAll(results, labels.value);
    r := Ok(labelled);
  }

  // ---------------------------------------------------------------- properties

  /** `fetch_property`: the property built from the first binding; an empty result throws. */
  function FetchProperty(subject: string, property: string, endpoint: Endpoint): (r: Result<Property>)
    ensures var result := Run(endpoint, SparqlQuery.PropertyQuery(subject, property, SizeLimit));
      && (result == [] ==> r == Err("Unable to fetch Property: "))
      && (result != [] ==> r == PropertyFrom(result[0], property))
  {
    var result := Run(endpoint, SparqlQuery.PropertyQuery(subject, property, SizeLimit));
    if |result| > 0 then PropertyFrom(result[0], property) else Err("Unable to fetch Property: ")
  }

  /** `fetch_property(subject, c.property.value)` for one listed predicate `c`. */
  function PropertyOfBinding(subject: string, endpoint: Endpoint, b: Binding): (r: Result<Property>)
    ensures r.Ok? ==> "property" in b && r.value.uri == b["property"].value
  {
    match Value(b, "property")
    case Err(m) => Err(m)
    case Ok(p) => FetchProperty(subject, p, endpoint)
  }

  function PropertyFetcher(subject: string, endpoint: Endpoint): Binding -> Result<Property>
  {
    (b: Binding) => PropertyOfBinding(subject, endpoint, b)
  }

  /** The properties of a list of predicate bindings, one per binding and in order. */
  function PropertiesOf(subject: string, endpoint: Endpoint, bs: seq<Binding>): Result<seq<Property>>
  {
    MapAll(PropertyFetcher(subject, endpoint), bs)
  }

  /** The properties succeed exactly when every listed predicate has its counts; the
      `k`-th property then carries the `k`-th predicate and the counts of its first
      binding. */
  lemma PropertiesOfMeaning(subject: string, endpoint: Endpoint, bs: seq<Binding>)
    ensures PropertiesOf(subject, endpoint, bs).Ok? <==>
      forall k :: 0 <= k < |bs| ==> PropertyOfBinding(subject, endpoint, bs[k]).Ok?
    ensures PropertiesOf(subject, endpoint, bs).Ok? ==>
      var ps := PropertiesOf(subject, endpoint, bs).value;
      && |ps| == |bs|
      && forall k :: 0 <= k < |bs| ==>
           && "property" in bs[k] && ps[k].uri == bs[k]["property"].value
           && var result := Run(endpoint, SparqlQuery.PropertyQuery(subject, bs[k]["property"].value, SizeLimit));
              result != [] && "outCount" in result[0] && "inCount" in result[0] &&
              ps[k].outCount == ToNumber(result[0]["outCount"].value) &&
              ps[k].inCount == ToNumber(result[0]["inCount"].value)
  {
    if PropertiesOf(subject, endpoint, bs).Ok? {
      forall k | 0 <= k < |bs|
        ensures "property" in bs[k]
        ensures var result := Run(endpoint, SparqlQuery.PropertyQuery(subject, bs[k]["property"].value, SizeLimit));
          result != [] && "outCount" in result[0] && "inCount" in result[0]
      {
        assert PropertyFetcher(subject, endpoint)(bs[k]).Ok?;
      }
    }
  }

  /** `fetch_properties`: list the predicates of `subject`, then fetch them in rounds of
      `RateLimit`; after each round the progress `floor(i / len * 100)` is reported when a
      progress callback is given. */
  method FetchProperties(subject: string, hasProgress: bool, endpoint: Endpoint)
    returns (r: Result<seq<Property>>, progress: seq<int>)
    ensures var result := Run(endpoint, SparqlQuery.PropertiesQuery(subject));
      && (r.Ok? <==> PropertiesOf(subject, endpoint, result).Ok?)
      && (r.Ok? ==> r.value == PropertiesOf(subject, endpoint, result).value)
      && (r.Ok? && hasProgress ==> progress == ProgressReports(|result|, RateLimit))
    ensures !hasProgress ==> progress == []
    ensures forall k :: 0 <= k < |progress| ==> 0 <= progress[k] < 100
  {
    var result := Run(endpoint, SparqlQuery.PropertiesQuery(subject));
    var reports;
    r, reports := Sparql.FetchInRounds(PropertyFetcher(subject, endpoint), result, RateLimit);
    progress := if hasProgress then reports else [];
  }
}
