/** The query-shaping and result-shaping logic of the SPARQL client of the current
    version (src/api/sparql.ts). The HTTP round trip is the `endpoint` oracle, `isUrl`
    (the `is-url` package) is an uninterpreted predicate passed in, and the settings
    read through the store (`rate_limit`, `size_limit`) are parameters. */
module Sparql {
  import opened Common
  import opened Bindings
  import ValuesBlock

  /** `query`: a status other than 200 throws with the endpoint's error text; otherwise
      the result is every binding of `results.bindings`, in order. */
  function Query(resp: Response): (r: Result<seq<Binding>>)
    ensures r.Ok? <==> resp.status == 200
    ensures r.Ok? ==> r.value == resp.bindings
    ensures r.Err? ==> r.message == "SPARQL query failed: " + resp.text
  {
    if resp.status != 200 then Err("SPARQL query failed: " + resp.text) else Ok(resp.bindings)
  }

  // ---------------------------------------------------------------- relations

  /** The VALUES block of `fetch_relations`: the URL-valued members of `otherNodes`. */
  function ValuesText(otherNodes: seq<string>, isUrl: string -> bool): string
  {
    ValuesBlock.Block(Filter(isUrl, otherNodes))
  }

  /** The VALUES block names exactly the URL-valued members of `otherNodes`, in order. */
  lemma ValuesTextLists(otherNodes: seq<string>, isUrl: string -> bool)
    requires forall k :: 0 <= k < |otherNodes| && isUrl(otherNodes[k]) ==> ValuesBlock.Bracketable(otherNodes[k])
    ensures ValuesBlock.ParseBlock(ValuesText(otherNodes, isUrl)) == Some(Filter(isUrl, otherNodes))
  {
    var kept := Filter(isUrl, otherNodes);
    FilterMembers(isUrl, otherNodes);
    forall k | 0 <= k < |kept| ensures ValuesBlock.Bracketable(kept[k]) {
      var j :| 0 <= j < |otherNodes| && otherNodes[j] == kept[k];
    }
    ValuesBlock.BlockRoundTrip(kept);
  }

  /** The lines written for the first `i + 1` candidates: those for the first `i`, and
      one more exactly when candidate `i` is a URL. */
  lemma LinesPrefixStep(otherNodes: seq<string>, i: nat, isUrl: string -> bool)
    requires i < |otherNodes|
    ensures ValuesBlock.Lines(Filter(isUrl, otherNodes[..i + 1])) ==
      ValuesBlock.Lines(Filter(isUrl, otherNodes[..i])) + (if isUrl(otherNodes[i]) then ValuesBlock.Line(otherNodes[i]) else "")
  {
    var node := otherNodes[i];
    var kept := Filter(isUrl, otherNodes[..i]);
    assert otherNodes[..i + 1] == otherNodes[..i] + [node];
    FilterSnoc(isUrl, otherNodes[..i], node);
    if isUrl(node) {
      ValuesBlock.LinesSnoc(kept, node);
    } else {
      assert kept + [] == kept;
    }
  }

  /** The `+=` loop of `fetch_relations` that writes the VALUES block. */
  method BuildValues(otherNodes: seq<string>, isUrl: string -> bool) returns (text: string)
    ensures text == ValuesText(otherNodes, isUrl)
  {
    text := ValuesBlock.Opening;
    var i := 0;
    ghost var lines: string := "";
    while i < |otherNodes|
      invariant 0 <= i <= |otherNodes|
      invariant lines == ValuesBlock.Lines(Filter(isUrl, otherNodes[..i]))
      invariant text == ValuesBlock.Opening + lines
    {
      var node := otherNodes[i];
      LinesPrefixStep(otherNodes, i, isUrl);
      if isUrl(node) {
        AppendAssoc(ValuesBlock.Opening, lines, ValuesBlock.Line(node));
        text := text + ValuesBlock.Line(node);
        lines := lines + ValuesBlock.Line(node);
      }
      i := i + 1;
    }
    assert otherNodes[..i] == otherNodes;
    text := text + "}";
  }

  lemma AppendAssoc(a: string, b: string, c: string)
    ensures (a + b) + c == a + (b + c)
  {
  }

  /** What `fetch_relations(subject, otherNodes)` yields: nothing (and no query) for a
      subject that is not a URL, else the bindings of the relations query. */
  function RelationsOf(subject: string, otherNodes: seq<string>, isUrl: string -> bool, endpoint: Endpoint)
    : Result<seq<Binding>>
  {
    if !isUrl(subject) then Ok([])
    else Query(endpoint(SparqlQuery.RelationsQuery(subject, ValuesText(otherNodes, isUrl))))
  }

  method FetchRelations(subject: string, otherNodes: seq<string>, isUrl: string -> bool, endpoint: Endpoint)
    returns (r: Result<seq<Binding>>)
    ensures r == RelationsOf(subject, otherNodes, isUrl, endpoint)
  {
    if !isUrl(subject) {
      return Ok([]);
    }
    var relations := BuildValues(otherNodes, isUrl);
    r := Query(endpoint(SparqlQuery.RelationsQuery(subject, relations)));
  }

  /** The relations of every subject, concatenated in subject order; the first failing
      subject makes the whole call fail. */
  function AllRelations(subjects: seq<string>, otherNodes: seq<string>, isUrl: string -> bool, endpoint: Endpoint)
    : Result<seq<Binding>>
  {
    if subjects == [] then Ok([])
    else
      match RelationsOf(subjects[0], otherNodes, isUrl, endpoint)
      case Err(m) => Err(m)
      case Ok(a) =>
        match AllRelations(subjects[1..], otherNodes, isUrl, endpoint)
        case Err(m) => Err(m)
        case Ok(b) => Ok(a + b)
  }

  /** Adding one subject at the end of the list extends the relations by that subject's. */
  lemma {:induction false} AllRelationsSnoc(subjects: seq<string>, s: string, otherNodes: seq<string>,
                                             isUrl: string -> bool, endpoint: Endpoint)
    requires AllRelations(subjects, otherNodes, isUrl, endpoint).Ok?
    ensures RelationsOf(s, otherNodes, isUrl, endpoint).Err? ==>
      AllRelations(subjects + [s], otherNodes, isUrl, endpoint) == Err(RelationsOf(s, otherNodes, isUrl, endpoint).message)
    ensures RelationsOf(s, otherNodes, isUrl, endpoint).Ok? ==>
      AllRelations(subjects + [s], otherNodes, isUrl, endpoint) ==
        Ok(AllRelations(subjects, otherNodes, isUrl, endpoint).value + RelationsOf(s, otherNodes, isUrl, endpoint).value)
  {
    if subjects == [] {
      assert [s][1..] == [];
      assert subjects + [s] == [s];
      assert AllRelations([], otherNodes, isUrl, endpoint) == Ok([]);
      if RelationsOf(s, otherNodes, isUrl, endpoint).Ok? {
        var c := RelationsOf(s, otherNodes, isUrl, endpoint).value;
        assert [] + c == c + [] == c;
      }
    } else {
      assert (subjects + [s])[0] == subjects[0];
      assert (subjects + [s])[1..] == subjects[1..] + [s];
      AllRelationsSnoc(subjects[1..], s, otherNodes, isUrl, endpoint);
      var a := RelationsOf(subjects[0], otherNodes, isUrl, endpoint).value;
      var b := AllRelations(subjects[1..], otherNodes, isUrl, endpoint).value;
      if RelationsOf(s, otherNodes, isUrl, endpoint).Ok? {
        var c := RelationsOf(s, otherNodes, isUrl, endpoint).value;
        assert a + (b + c) == (a + b) + c;
      }
    }
  }

  /** A failure in a prefix is the failure of the whole list. */
  lemma {:induction false} AllRelationsPrefixErr(subjects: seq<string>, rest: seq<string>, otherNodes: seq<string>,
                                                  isUrl: string -> bool, endpoint: Endpoint)
    requires AllRelations(subjects, otherNodes, isUrl, endpoint).Err?
    ensures AllRelations(subjects + rest, otherNodes, isUrl, endpoint) == AllRelations(subjects, otherNodes, isUrl, endpoint)
  {
    assert subjects != [];
    assert (subjects + rest)[0] == subjects[0];
    assert (subjects + rest)[1..] == subjects[1..] + rest;
    if RelationsOf(subjects[0], otherNodes, isUrl, endpoint).Ok? {
      AllRelationsPrefixErr(subjects[1..], rest, otherNodes, isUrl, endpoint);
    }
  }

  /** One round of `fetch_multiple_relations`: the relations of `subjects[i..end]`,
      appended to those already gathered for `subjects[..i]`. */
  method FetchRelationsRound(subjects: seq<string>, i: nat, end: nat, relations: seq<Binding>,
                             otherNodes: seq<string>, isUrl: string -> bool, endpoint: Endpoint)
    returns (r: Result<seq<Binding>>)
    requires i <= end <= |subjects|
    requires AllRelations(subjects[..i], otherNodes, isUrl, endpoint) == Ok(relations)
    ensures r == AllRelations(subjects[..end], otherNodes, isUrl, endpoint)
  {
    var gathered := relations;
    var j := i;
    while j < end
      invariant i <= j <= end
      invariant AllRelations(subjects[..j], otherNodes, isUrl, endpoint) == Ok(gathered)
    {
      var res := FetchRelations(subjects[j], otherNodes, isUrl, endpoint);
      assert subjects[..j + 1] == subjects[..j] + [subjects[j]];
      AllRelationsSnoc(subjects[..j], subjects[j], otherNodes, isUrl, endpoint);
      if res.Err? {
        SplitAt(subjects[..end], j + 1);
        assert subjects[..end][..j + 1] == subjects[..j + 1];
        AllRelationsPrefixErr(subjects[..j + 1], subjects[j + 1..end], otherNodes, isUrl, endpoint);
        return Err(res.message);
      }
      gathered := gathered + res.value;
      j := j + 1;
    }
    r := Ok(gathered);
  }

  /** `fetch_multiple_relations`: subjects are sent in consecutive rounds of `rateLimit`
      concurrent `fetch_relations` calls (`rounds`), and the result is every subject's
      relation list, concatenated in subject order. */
  method FetchMultipleRelations(subjects: seq<string>, otherNodes: seq<string>, rateLimit: nat,
                                isUrl: string -> bool, endpoint: Endpoint)
    returns (r: Result<seq<Binding>>, ghost rounds: seq<seq<string>>)
    requires rateLimit >= 1
    ensures r == AllRelations(subjects, otherNodes, isUrl, endpoint)
    ensures r.Ok? ==> rounds == Batches(subjects, rateLimit)
  {
    var relations: seq<Binding> := [];
    rounds := [];
    var i := 0;
    while i < |subjects|
      invariant 0 <= i <= |subjects|
      invariant AllRelations(subjects[..i], otherNodes, isUrl, endpoint) == Ok(relations)
      invariant Batches(subjects, rateLimit) == rounds + Batches(subjects[i..], rateLimit)
    {
      var end := Min(i + rateLimit, |subjects|);
      RoundsStep(subjects, i, rateLimit, rounds);
      rounds := rounds + [subjects[i..end]];
      var res := FetchRelationsRound(subjects, i, end, relations, otherNodes, isUrl, endpoint);
      if res.Err? {
        SplitAt(subjects, end);
        AllRelationsPrefixErr(subjects[..end], subjects[end..], otherNodes, isUrl, endpoint);
        return res, rounds;
      }
      relations := res.value;
      i := end;
    }
    assert subjects[..i] == subjects;
    r := Ok(relations);
  }

  // ---------------------------------------------------------------- labels and images

  function LabelRecordOf(b: Binding): (r: Result<LabelRecord>)
    ensures r.Ok? <==> "subject" in b && "subjectLabel" in b
    ensures r.Ok? ==> r.value == LabelRecord(b["subject"].value, b["subjectLabel"].value)
  {
    match Value(b, "subject")
    case Err(m) => Err(m)
    case Ok(u) =>
      match Value(b, "subjectLabel")
      case Err(m) => Err(m)
      case Ok(l) => Ok(LabelRecord(u, l))
  }

  /** Every subject labelled by itself: the fallback of the label lookups. */
  function SelfLabels(subjects: seq<string>): (r: seq<LabelRecord>)
    ensures |r| == |subjects|
    ensures forall k :: 0 <= k < |r| ==> r[k] == LabelRecord(subjects[k], subjects[k])
  {
    seq(|subjects|, k requires 0 <= k < |subjects| => LabelRecord(subjects[k], subjects[k]))
  }

  /** `fetch_labels`: one query over the URL-valued subjects. A non-empty result gives one
      record per binding in binding order; an empty one labels every subject (URL or not)
      by itself. */
  function FetchLabels(subjects: seq<string>, isUrl: string -> bool, endpoint: Endpoint)
    : (r: Result<seq<LabelRecord>>)
    ensures var q := Query(endpoint(SparqlQuery.LabelsQuery(Filter(isUrl, subjects))));
      && (q.Err? ==> r == Err(q.message))
      && (q.Ok? && |q.value| > 0 ==> r == MapAll(LabelRecordOf, q.value))
      && (q.Ok? && |q.value| == 0 ==> r == Ok(SelfLabels(subjects)))
  {
    match Query(endpoint(SparqlQuery.LabelsQuery(Filter(isUrl, subjects))))
    case Err(m) => Err(m)
    case Ok(result) =>
      if |result| > 0 then MapAll(LabelRecordOf, result) else Ok(SelfLabels(subjects))
  }

  /** With a successful label lookup, every subject has a label to find: the label of the
      first binding about it, or itself when the endpoint returned nothing. */
  lemma FetchLabelsEmptyFallback(subjects: seq<string>, isUrl: string -> bool, endpoint: Endpoint, s: string)
    requires s in subjects
    requires Query(endpoint(SparqlQuery.LabelsQuery(Filter(isUrl, subjects)))) == Ok([])
    ensures FetchLabels(subjects, isUrl, endpoint).Ok?
    ensures LabelOf(FetchLabels(subjects, isUrl, endpoint).value, s) == s
  {
    var labels := FetchLabels(subjects, isUrl, endpoint).value;
    var k :| 0 <= k < |subjects| && subjects[k] == s;
    assert labels[k].uri == s;
  }

  /** `fetch_label`: a non-URL subject is its own label, without a query; otherwise the
      first label found, or the subject itself when there is none. */
  function FetchLabel(subject: string, isUrl: string -> bool, endpoint: Endpoint): (r: Result<string>)
    ensures !isUrl(subject) ==> r == Ok(subject)
    ensures isUrl(subject) ==>
      var q := Query(endpoint(SparqlQuery.LabelQuery(subject)));
      && (q.Err? ==> r == Err(q.message))
      && (q.Ok? && q.value == [] ==> r == Ok(subject))
      && (q.Ok? && q.value != [] ==> r == Value(q.value[0], "subjectLabel"))
  {
    if !isUrl(subject) then Ok(subject)
    else
      match Query(endpoint(SparqlQuery.LabelQuery(subject)))
      case Err(m) => Err(m)
      case Ok(result) => if |result| > 0 then Value(result[0], "subjectLabel") else Ok(subject)
  }

  /** `fetch_image`: none for a non-URL subject; otherwise the first image, if any. */
  function FetchImage(subject: string, isUrl: string -> bool, endpoint: Endpoint): (r: Result<Option<string>>)
    ensures !isUrl(subject) ==> r == Ok(None)
    ensures isUrl(subject) ==>
      var q := Query(endpoint(SparqlQuery.ImageQuery(subject)));
      && (q.Err? ==> r == Err(q.message))
      && (q.Ok? && q.value == [] ==> r == Ok(None))
      && (q.Ok? && q.value != [] ==> (r.Ok? <==> "image" in q.value[0]))
      && (q.Ok? && q.value != [] && r.Ok? ==> r.value == Some(q.value[0]["image"].value))
  {
    if !isUrl(subject) then Ok(None)
    else
      match Query(endpoint(SparqlQuery.ImageQuery(subject)))
      case Err(m) => Err(m)
      case Ok(result) =>
        if |result| > 0 then
          match Value(result[0], "image")
          case Err(m) => Err(m)
          case Ok(v) => Ok(Some(v))
        else Ok(None)
  }

  function ImageRecordOf(b: Binding): (r: Result<ImageRecord>)
    ensures r.Ok? <==> "image" in b && "subject" in b
    ensures r.Ok? ==> r.value == ImageRecord(b["image"].value, b["subject"].value)
  {
    match Value(b, "image")
    case Err(m) => Err(m)
    case Ok(i) =>
      match Value(b, "subject")
      case Err(m) => Err(m)
      case Ok(u) => Ok(ImageRecord(i, u))
  }

  /** `fetch_images`: one `{image, uri}` per binding of a query over the URL-valued subjects. */
  function FetchImages(subjects: seq<string>, isUrl: string -> bool, endpoint: Endpoint)
    : (r: Result<seq<ImageRecord>>)
    ensures var q := Query(endpoint(SparqlQuery.ImagesQuery(Filter(isUrl, subjects))));
      && (q.Err? ==> r == Err(q.message))
      && (q.Ok? ==> r == MapAll(ImageRecordOf, q.value))
  {
    match Query(endpoint(SparqlQuery.ImagesQuery(Filter(isUrl, subjects))))
    case Err(m) => Err(m)
    case Ok(result) => MapAll(ImageRecordOf, result)
  }

  // ---------------------------------------------------------------- properties

  /** `fetch_property`: the property built from the first binding; an empty result throws. */
  function FetchProperty(subject: string, property: string, sizeLimit: nat, endpoint: Endpoint)
    : (r: Result<Property>)
    ensures r.Ok? ==> r.value.uri == property
    ensures var q := Query(endpoint(SparqlQuery.PropertyQuery(subject, property, sizeLimit)));
      && (q.Ok? && q.value == [] ==> r == Err("Unable to fetch Property: "))
      && (q.Ok? && q.value != [] ==> r == PropertyFrom(q.value[0], property))
      && (q.Err? ==> r == Err(q.message))
  {
    match Query(endpoint(SparqlQuery.PropertyQuery(subject, property, sizeLimit)))
    case Err(m) => Err(m)
    case Ok(result) =>
      if |result| > 0 then PropertyFrom(result[0], property) else Err("Unable to fetch Property: ")
  }

  /** One listed predicate turned into its `Property`: read `c.property.value`, then fetch it. */
  function PropertyOfBinding(subject: string, sizeLimit: nat, endpoint: Endpoint, b: Binding)
    : (r: Result<Property>)
    ensures r.Ok? ==> "property" in b && r.value.uri == b["property"].value
  {
    match Value(b, "property")
    case Err(m) => Err(m)
    case Ok(p) => FetchProperty(subject, p, sizeLimit, endpoint)
  }

  /** `fetch_property(subject, c.property.value)` for one listed predicate `c`. */
  function PropertyFetcher(subject: string, sizeLimit: nat, endpoint: Endpoint): Binding -> Result<Property>
  {
    (b: Binding) => PropertyOfBinding(subject, sizeLimit, endpoint, b)
  }

  /** The properties of a list of predicate bindings, one per binding and in order. */
  function PropertiesOf(subject: string, sizeLimit: nat, endpoint: Endpoint, bs: seq<Binding>): Result<seq<Property>>
  {
    MapAll(PropertyFetcher(subject, sizeLimit, endpoint), bs)
  }

  /** The properties of a list succeed exactly when every binding yields one; the
      `k`-th property is then the one of the `k`-th binding and carries its predicate. */
  lemma PropertiesOfMeaning(subject: string, sizeLimit: nat, endpoint: Endpoint, bs: seq<Binding>)
    ensures PropertiesOf(subject, sizeLimit, endpoint, bs).Ok? <==>
      forall k :: 0 <= k < |bs| ==> PropertyOfBinding(subject, sizeLimit, endpoint, bs[k]).Ok?
    ensures PropertiesOf(subject, sizeLimit, endpoint, bs).Ok? ==>
      var ps := PropertiesOf(subject, sizeLimit, endpoint, bs).value;
      && |ps| == |bs|
      && forall k :: 0 <= k < |bs| ==>
           ps[k] == PropertyOfBinding(subject, sizeLimit, endpoint, bs[k]).value
           && "property" in bs[k] && ps[k].uri == bs[k]["property"].value
  {
  }

  /** The batch loop of `fetch_properties`: `xs` is mapped through `f` in consecutive
      rounds of `size` concurrent calls, with a progress report after each round. */
  method FetchInRounds<A, B>(f: A -> Result<B>, xs: seq<A>, size: nat) returns (r: Result<seq<B>>, progress: seq<int>)
    requires size >= 1
    ensures r.Ok? <==> MapAll(f, xs).Ok?
    ensures r.Ok? ==> r.value == MapAll(f, xs).value
    ensures r.Ok? ==> progress == ProgressReports(|xs|, size)
    ensures forall k :: 0 <= k < |progress| ==> 0 <= progress[k] < 100
  {
    progress := [];
    var results: seq<B> := [];
    var i := 0;
    while i < |xs|
      invariant 0 <= i <= |xs|
      invariant MapAll(f, xs[..i]) == Ok(results)
      invariant ProgressReports(|xs|, size) == progress + ProgressFrom(i, |xs|, size)
      invariant forall k :: 0 <= k < |progress| ==> 0 <= progress[k] < 100
    {
      var end := Min(i + size, |xs|);
      var round := MapAll(f, xs[i..end]);
      SliceJoin(xs, i, end);
      MapAllAppend(f, xs[..i], xs[i..end]);
      if round.Err? {
        SplitAt(xs, end);
        MapAllAppend(f, xs[..end], xs[end..]);
        return Err(round.message), progress;
      }
      results := results + round.value;
      ProgressStep(|xs|, size, i, progress);
      progress := progress + [Progress(i, |xs|)];
      i := end;
    }
    assert xs[..i] == xs;
    r := Ok(results);
  }

  /** `fetch_properties`: list the predicates of `subject`, then fetch them in rounds of
      `rateLimit`, reporting progress after each round. It succeeds exactly when every
      listed predicate yields its `Property` (`PropertiesOf`); then there is one per
      predicate, in order, and one progress report per round, `floor(i / len * 100)` for
      the round start `i`. */
  method FetchProperties(subject: string, rateLimit: nat, sizeLimit: nat, endpoint: Endpoint)
    returns (r: Result<seq<Property>>, progress: seq<int>)
    requires rateLimit >= 1
    ensures var q := Query(endpoint(SparqlQuery.PropertiesQuery(subject)));
      && (q.Err? ==> r == Err(q.message))
      && (q.Ok? ==> (r.Ok? <==> PropertiesOf(subject, sizeLimit, endpoint, q.value).Ok?))
      && (q.Ok? && r.Ok? ==> r.value == PropertiesOf(subject, sizeLimit, endpoint, q.value).value)
      && (q.Ok? && r.Ok? ==> progress == ProgressReports(|q.value|, rateLimit))
    ensures forall k :: 0 <= k < |progress| ==> 0 <= progress[k] < 100
  {
    var q := Query(endpoint(SparqlQuery.PropertiesQuery(subject)));
    if q.Err? {
      return Err(q.message), [];
    }
    r, progress := FetchInRounds(PropertyFetcher(subject, sizeLimit, endpoint), q.value, rateLimit);
  }

  // ---------------------------------------------------------------- related nodes

  /** One element of the result of `fetch_data`. */
  datatype DataResult = DataResult(uri: string, labelText: string, kind: TermType, relations: seq<Binding>)

  /** `c.object` of a binding of the data query. */
  function ObjectOf(b: Binding): (r: Result<Term>)
    ensures r.Ok? <==> "object" in b
    ensures r.Ok? ==> r.value == b["object"]
  {
    if "object" in b then Ok(b["object"]) else Err("TypeError: cannot read 'value' of undefined")
  }

  /** `result.map((c) => c.object.value)`. */
  function ValuesOf(objects: seq<Term>): (r: seq<string>)
    ensures |r| == |objects| && forall k :: 0 <= k < |r| ==> r[k] == objects[k].value
  {
    seq(|objects|, k requires 0 <= k < |objects| => objects[k].value)
  }

  /** `fetch_relations(_, otherNodes)` as a function of the subject. */
  function RelationsFetcher(otherNodes: seq<string>, isUrl: string -> bool, endpoint: Endpoint)
    : string -> Result<seq<Binding>>
  {
    (s: string) => RelationsOf(s, otherNodes, isUrl, endpoint)
  }

  /** The first `n` entries of `fetch_data` before labelling: for each object its value,
      the term type of the first object of its batch, and its relations `rel(value)`; the
      first failing relation lookup, in order, fails the call. */
  function Entries(objects: seq<Term>, n: nat, size: nat, rel: string -> Result<seq<Binding>>)
    : Result<seq<DataResult>>
    requires n <= |objects| && size >= 1
  {
    if n == 0 then Ok([])
    else
      match Entries(objects, n - 1, size, rel)
      case Err(m) => Err(m)
      case Ok(es) =>
        match rel(objects[n - 1].value)
        case Err(m) => Err(m)
        case Ok(rs) => Ok(es + [DataResult(objects[n - 1].value, "", objects[BatchStart(n - 1, size)].kind, rs)])
  }

  /** A failed prefix fails every longer prefix with the same error. */
  lemma {:induction false} EntriesErrPersists(objects: seq<Term>, n: nat, m: nat, size: nat,
                                              rel: string -> Result<seq<Binding>>)
    requires n <= m <= |objects| && size >= 1
    requires Entries(objects, n, size, rel).Err?
    ensures Entries(objects, m, size, rel) == Entries(objects, n, size, rel)
    decreases m
  {
    if m > n {
      EntriesErrPersists(objects, n, m - 1, size, rel);
    }
  }

  /** One more entry: the prefix grows by the next object's entry, or fails with its lookup. */
  lemma EntriesSnoc(objects: seq<Term>, j: nat, size: nat, rel: string -> Result<seq<Binding>>)
    requires j < |objects| && size >= 1
    requires Entries(objects, j, size, rel).Ok?
    ensures rel(objects[j].value).Err? ==> Entries(objects, j + 1, size, rel) == Err(rel(objects[j].value).message)
    ensures rel(objects[j].value).Ok? ==>
      Entries(objects, j + 1, size, rel) ==
        Ok(Entries(objects, j, size, rel).value +
           [DataResult(objects[j].value, "", objects[BatchStart(j, size)].kind, rel(objects[j].value).value)])
  {
  }

  /** What the entries say: they succeed exactly when every relation lookup does, and
      entry `k` is then about object `k`, with the type of its batch's first object and
      its own relations. */
  lemma {:induction false} EntriesMeaning(objects: seq<Term>, n: nat, size: nat, rel: string -> Result<seq<Binding>>)
    requires n <= |objects| && size >= 1
    ensures Entries(objects, n, size, rel).Ok? <==> forall k :: 0 <= k < n ==> rel(objects[k].value).Ok?
    ensures Entries(objects, n, size, rel).Ok? ==>
      var es := Entries(objects, n, size, rel).value;
      && |es| == n
      && forall k :: 0 <= k < n ==>
           && es[k].uri == objects[k].value
           && es[k].labelText == ""
           && es[k].kind == objects[BatchStart(k, size)].kind
           && Ok(es[k].relations) == rel(objects[k].value)
    decreases n
  {
    if n > 0 {
      EntriesMeaning(objects, n - 1, size, rel);
      var prev := Entries(objects, n - 1, size, rel);
      var v := objects[n - 1].value;
      if prev.Err? {
        assert Entries(objects, n, size, rel) == prev;
      } else if rel(v).Err? {
        assert Entries(objects, n, size, rel) == Err(rel(v).message);
      } else {
        var es := prev.value + [DataResult(v, "", objects[BatchStart(n - 1, size)].kind, rel(v).value)];
        assert Entries(objects, n, size, rel) == Ok(es);
        forall k | 0 <= k < n
          ensures es[k].uri == objects[k].value && es[k].labelText == ""
          ensures es[k].kind == objects[BatchStart(k, size)].kind
          ensures Ok(es[k].relations) == rel(objects[k].value)
        {
          if k < n - 1 {
            assert es[k] == prev.value[k];
          }
        }
      }
    }
  }

  /** Every entry with its label: the first label record about its uri, else `''`. */
  function Labelled(entries: seq<DataResult>, labels: seq<LabelRecord>): (r: seq<DataResult>)
    ensures |r| == |entries|
    ensures forall k :: 0 <= k < |r| ==> r[k] == entries[k].(labelText := LabelOf(labels, entries[k].uri))
  {
    seq(|entries|, k requires 0 <= k < |entries| => entries[k].(labelText := LabelOf(labels, entries[k].uri)))
  }

  /** What `fetch_data(subject, property, nodes)` yields: the data query, the objects of
      its bindings, their entries, then one label lookup over all their values. */
  function DataOf(subject: string, property: string, nodes: seq<string>, rateLimit: nat, sizeLimit: nat,
                  isUrl: string -> bool, endpoint: Endpoint): Result<seq<DataResult>>
    requires rateLimit >= 1
  {
    match DataObjects(subject, property, sizeLimit, endpoint)
    case Err(m) => Err(m)
    case Ok(objects) =>
      match Entries(objects, |objects|, rateLimit, RelationsFetcher(nodes + ValuesOf(objects), isUrl, endpoint))
      case Err(m) => Err(m)
      case Ok(entries) =>
        match FetchLabels(ValuesOf(objects), isUrl, endpoint)
        case Err(m) => Err(m)
        case Ok(labels) => Ok(Labelled(entries, labels))
  }

  /** The objects of the data query's bindings, when the query and every `c.object` succeed. */
  function DataObjects(subject: string, property: string, sizeLimit: nat, endpoint: Endpoint): Result<seq<Term>>
  {
    match Query(endpoint(SparqlQuery.DataQuery(subject, property, sizeLimit)))
    case Err(m) => Err(m)
    case Ok(result) => MapAll(ObjectOf, result)
  }

  /** `fetch_data` succeeds exactly when the query, every `c.object`, every relation
      lookup and the label lookup do. */
  lemma DataOfSucceeds(subject: string, property: string, nodes: seq<string>, rateLimit: nat, sizeLimit: nat,
                       isUrl: string -> bool, endpoint: Endpoint)
    requires rateLimit >= 1
    ensures DataOf(subject, property, nodes, rateLimit, sizeLimit, isUrl, endpoint).Ok? <==>
      && DataObjects(subject, property, sizeLimit, endpoint).Ok?
      && var objects := DataObjects(subject, property, sizeLimit, endpoint).value;
         && (forall k :: 0 <= k < |objects| ==> RelationsOf(objects[k].value, nodes + ValuesOf(objects), isUrl, endpoint).Ok?)
         && FetchLabels(ValuesOf(objects), isUrl, endpoint).Ok?
  {
    var objs := DataObjects(subject, property, sizeLimit, endpoint);
    if objs.Ok? {
      EntriesMeaning(objs.value, |objs.value|, rateLimit, RelationsFetcher(nodes + ValuesOf(objs.value), isUrl, endpoint));
    }
  }

  /** A successful `fetch_data` has one result per object, in order: about that object,
      typed by the first object of its batch, with its own relations and its label. */
  lemma DataOfResults(subject: string, property: string, nodes: seq<string>, rateLimit: nat, sizeLimit: nat,
                      isUrl: string -> bool, endpoint: Endpoint)
    requires rateLimit >= 1
    requires DataOf(subject, property, nodes, rateLimit, sizeLimit, isUrl, endpoint).Ok?
    ensures DataObjects(subject, property, sizeLimit, endpoint).Ok?
    ensures var objects := DataObjects(subject, property, sizeLimit, endpoint).value;
      var uris := ValuesOf(objects);
      var r := DataOf(subject, property, nodes, rateLimit, sizeLimit, isUrl, endpoint).value;
      && FetchLabels(uris, isUrl, endpoint).Ok?
      && |r| == |objects|
      && forall k :: 0 <= k < |r| ==>
           && r[k].uri == uris[k]
           && r[k].kind == objects[BatchStart(k, rateLimit)].kind
           && Ok(r[k].relations) == RelationsOf(uris[k], nodes + uris, isUrl, endpoint)
           && r[k].labelText == LabelOf(FetchLabels(uris, isUrl, endpoint).value, uris[k])
  {
    var objects := DataObjects(subject, property, sizeLimit, endpoint).value;
    EntriesMeaning(objects, |objects|, rateLimit, RelationsFetcher(nodes + ValuesOf(objects), isUrl, endpoint));
  }

  // ------------------------------------------------ the call `load_related_nodes` makes

  /** What `fetch_data(subject, property)` yields when called, as `load_related_nodes`
      calls it, without its `nodes` argument: `nodes` is `undefined`, so the spread
      `[...nodes, ...all_new_nodes]` throws a TypeError for the first object, before any
      relation lookup. Only an empty data result gets past the loop, to the label lookup. */
  function DataOfUndefinedNodes(subject: string, property: string, sizeLimit: nat,
                                isUrl: string -> bool, endpoint: Endpoint): Result<seq<DataResult>>
  {
    match DataObjects(subject, property, sizeLimit, endpoint)
    case Err(m) => Err(m)
    case Ok(objects) =>
      if objects != [] then Err("TypeError: nodes is not iterable")
      else
        match FetchLabels([], isUrl, endpoint)
        case Err(m) => Err(m)
        case Ok(labels) => Ok(Labelled([], labels))
  }

  /** Called without `nodes`, `fetch_data` never yields a related node: it fails whenever
      the data query finds an object, and otherwise yields nothing. */
  lemma UndefinedNodesYieldNothing(subject: string, property: string, sizeLimit: nat,
                                   isUrl: string -> bool, endpoint: Endpoint)
    ensures var r := DataOfUndefinedNodes(subject, property, sizeLimit, isUrl, endpoint);
      && (r.Ok? ==> r.value == [])
      && (DataObjects(subject, property, sizeLimit, endpoint).Ok? && DataObjects(subject, property, sizeLimit, endpoint).value != [] ==> r.Err?)
  {
  }

  /** An endpoint whose data query finds the one object `Q5` and whose other queries
      find nothing. */
  function OneObjectEndpoint(): Endpoint
  {
    (q: SparqlQuery) => if q.DataQuery? then Response(200, "", [map["object" := Term(Uri, "Q5")]]) else Response(200, "", [])
  }

  /** A URL test that accepts nothing, so that no VALUES block is written. */
  predicate NoUrl(s: string)
  {
    false
  }

  /** The input that shows the difference: against `OneObjectEndpoint`, the call without
      `nodes` fails, while the call with the graph's ids (here none) yields `Q5`, labelled
      by itself, with no relations. */
  lemma UndefinedNodesCounterexample(subject: string, property: string)
    ensures DataOfUndefinedNodes(subject, property, 100, NoUrl, OneObjectEndpoint()).Err?
    ensures DataOf(subject, property, [], 5, 100, NoUrl, OneObjectEndpoint()) == Ok([DataResult("Q5", "Q5", Uri, [])])
  {
    var ep := OneObjectEndpoint();
    var isUrl: string -> bool := NoUrl;
    var b: Binding := map["object" := Term(Uri, "Q5")];
    assert ep(SparqlQuery.DataQuery(subject, property, 100)).bindings == [b];
    assert ObjectOf(b) == Ok(Term(Uri, "Q5"));
    assert [b][1..] == [] && [b][0] == b;
    assert MapAll(ObjectOf, [b][1..]) == Ok([]);
    assert [Term(Uri, "Q5")] + [] == [Term(Uri, "Q5")];
    assert MapAll(ObjectOf, [b]) == Ok([Term(Uri, "Q5")]);
    var objects := [Term(Uri, "Q5")];
    assert DataObjects(subject, property, 100, ep) == Ok(objects);
    assert ValuesOf(objects) == ["Q5"];
    var rel := RelationsFetcher([] + ["Q5"], isUrl, ep);
    assert rel("Q5") == Ok([]);
    assert Entries(objects, 0, 5, rel) == Ok([]);
    assert BatchStart(0, 5) == 0;
    assert objects[0].value == "Q5" && objects[0].kind == Uri;
    assert [] + [DataResult("Q5", "", Uri, [])] == [DataResult("Q5", "", Uri, [])];
    assert Entries(objects, 1, 5, rel) == Ok([DataResult("Q5", "", Uri, [])]);
    assert FetchLabels(["Q5"], isUrl, ep) == Ok(SelfLabels(["Q5"]));
    assert SelfLabels(["Q5"]) == [LabelRecord("Q5", "Q5")];
    assert LabelOf([LabelRecord("Q5", "Q5")], "Q5") == "Q5";
    assert Labelled([DataResult("Q5", "", Uri, [])], [LabelRecord("Q5", "Q5")]) == [DataResult("Q5", "Q5", Uri, [])];
  }

  /** One round of `fetch_data`: the entries of `objects[i..end]`, appended in order. */
  method FetchDataRound(objects: seq<Term>, i: nat, end: nat, entries: seq<DataResult>, others: seq<string>,
                        size: nat, isUrl: string -> bool, endpoint: Endpoint)
    returns (r: Result<seq<DataResult>>)
    requires i < end <= |objects| && size >= 1 && end - i <= size && IsBatchStart(i, size)
    requires Entries(objects, i, size, RelationsFetcher(others, isUrl, endpoint)) == Ok(entries)
    ensures r == Entries(objects, end, size, RelationsFetcher(others, isUrl, endpoint))
  {
    ghost var rf := RelationsFetcher(others, isUrl, endpoint);
    var kind := objects[i].kind;
    var results := entries;
    var j := i;
    while j < end
      invariant i <= j <= end
      invariant Entries(objects, j, size, rf) == Ok(results)
    {
      var rel := FetchRelations(objects[j].value, others, isUrl, endpoint);
      BatchStartInBatch(i, j - i, size);
      EntriesSnoc(objects, j, size, rf);
      if rel.Err? {
        EntriesErrPersists(objects, j + 1, end, size, rf);
        return Err(rel.message);
      }
      results := results + [DataResult(objects[j].value, "", kind, rel.value)];
      j := j + 1;
    }
    r := Ok(results);
  }

  /** One pass of the batch loop: the round of relation lookups from `i`; a failure is the
      failure of the whole loop. */
  method FetchRound(objects: seq<Term>, i: nat, entries: seq<DataResult>, others: seq<string>, size: nat,
                    isUrl: string -> bool, endpoint: Endpoint)
    returns (r: Result<seq<DataResult>>, end: nat)
    requires i < |objects| && size >= 1 && IsBatchStart(i, size)
    requires Entries(objects, i, size, RelationsFetcher(others, isUrl, endpoint)) == Ok(entries)
    ensures end == Min(i + size, |objects|) && (IsBatchStart(end, size) || end == |objects|)
    ensures r.Ok? ==> r == Entries(objects, end, size, RelationsFetcher(others, isUrl, endpoint))
    ensures r.Err? ==> r == Entries(objects, |objects|, size, RelationsFetcher(others, isUrl, endpoint))
  {
    end := Min(i + size, |objects|);
    NextBatchStart(i, size);
    r := FetchDataRound(objects, i, end, entries, others, size, isUrl, endpoint);
    if r.Err? {
      EntriesErrPersists(objects, end, |objects|, size, RelationsFetcher(others, isUrl, endpoint));
    }
  }

  /** The entries of the first `k + 1` entries: those of the first `k`, and entry `k`
      with its label. */
  lemma LabelledPrefix(entries: seq<DataResult>, labels: seq<LabelRecord>, k: nat)
    requires k < |entries|
    ensures Labelled(entries[..k + 1], labels) ==
              Labelled(entries[..k], labels) + [entries[k].(labelText := LabelOf(labels, entries[k].uri))]
  {
    var a := Labelled(entries[..k + 1], labels);
    var b := Labelled(entries[..k], labels) + [entries[k].(labelText := LabelOf(labels, entries[k].uri))];
    assert |a| == |b|;
    forall j | 0 <= j < |a| ensures a[j] == b[j] {
      if j < k {
        assert entries[..k + 1][j] == entries[..k][j];
      }
    }
  }

  /** The loop that fills in the labels of the entries. */
  method LabelAll(entries: seq<DataResult>, labels: seq<LabelRecord>) returns (r: seq<DataResult>)
    ensures r == Labelled(entries, labels)
  {
    r := [];
    var k := 0;
    while k < |entries|
      invariant 0 <= k <= |entries|
      invariant r == Labelled(entries[..k], labels)
    {
      LabelledPrefix(entries, labels, k);
      r := r + [entries[k].(labelText := LabelOf(labels, entries[k].uri))];
      k := k + 1;
    }
    assert entries[..k] == entries;
  }

  /** The batch loop of `fetch_data`: the entries of all `objects`, computed in rounds of
      `rateLimit` relation lookups (`rounds`). */
  method FetchEntries(objects: seq<Term>, nodes: seq<string>, rateLimit: nat, isUrl: string -> bool, endpoint: Endpoint)
    returns (r: Result<seq<DataResult>>, ghost rounds: seq<seq<string>>)
    requires rateLimit >= 1
    ensures r == Entries(objects, |objects|, rateLimit, RelationsFetcher(nodes + ValuesOf(objects), isUrl, endpoint))
    ensures r.Ok? ==> rounds == Batches(ValuesOf(objects), rateLimit)
  {
    var allNewNodes := ValuesOf(objects);
    ghost var rf := RelationsFetcher(nodes + allNewNodes, isUrl, endpoint);
    rounds := [];
    var results: seq<DataResult> := [];
    var i := 0;
    while i < |objects|
      invariant 0 <= i <= |objects|
      invariant IsBatchStart(i, rateLimit) || i == |objects|
      invariant Entries(objects, i, rateLimit, rf) == Ok(results)
      invariant Batches(allNewNodes, rateLimit) == rounds + Batches(allNewNodes[i..], rateLimit)
    {
      var end: nat;
      r, end := FetchRound(objects, i, results, nodes + allNewNodes, rateLimit, isUrl, endpoint);
      RoundsStep(allNewNodes, i, rateLimit, rounds);
      rounds := rounds + [allNewNodes[i..end]];
      if r.Err? {
        return;
      }
      results := r.value;
      i := end;
    }
    r := Ok(results);
  }

  /** `fetch_data`: the related objects of `(subject, property)`, sent in rounds of
      `rateLimit` relation lookups (`rounds`), then labelled in one lookup. */
  method FetchData(subject: string, property: string, nodes: seq<string>, rateLimit: nat, sizeLimit: nat,
                   isUrl: string -> bool, endpoint: Endpoint)
    returns (r: Result<seq<DataResult>>, ghost rounds: seq<seq<string>>)
    requires rateLimit >= 1
    ensures r == DataOf(subject, property, nodes, rateLimit, sizeLimit, isUrl, endpoint)
    ensures r.Ok? ==> rounds == Batches(ValuesOf(DataObjects(subject, property, sizeLimit, endpoint).value), rateLimit)
  {
    rounds := [];
    var q := Query(endpoint(SparqlQuery.DataQuery(subject, property, sizeLimit)));
    if q.Err? {
      return Err(q.message), rounds;
    }
    var objs := MapAll(ObjectOf, q.value);
    assert objs == DataObjects(subject, property, sizeLimit, endpoint);
    if objs.Err? {
      return Err(objs.message), rounds;
    }
    var objects := objs.value;
    var results;
    results, rounds := FetchEntries(objects, nodes, rateLimit, isUrl, endpoint);
    if results.Err? {
      return Err(results.message), rounds;
    }
    var labels := FetchLabels(ValuesOf(objects), isUrl, endpoint);
    if labels.Err? {
      return Err(labels.message), rounds;
    }
    var labelled := LabelAll(results.value, labels.value);
    r := Ok(labelled);
  }
}
