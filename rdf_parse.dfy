// The client-side helpers of src/lib/api/rdf.ts: `parse_data`, which expands triples into
// simulation nodes and links, and the binding projections of `fetch_data` and
// `fetch_properties`.

module RdfParse {
  import opened Common
  import opened D3Graph

  // ---------------------------------------------------------------------------------
  // parse_data

  /** The values of the nodes `parse_data` returns: for each triple, its object and then
      its subject. */
  function NodeValues(data: seq<Triple>): (r: seq<string>)
    ensures |r| == 2 * |data|
    ensures forall i :: 0 <= i < |data| ==> r[2 * i] == data[i].o && r[2 * i + 1] == data[i].s
  {
    if data == [] then []
    else
      var init := data[..|data| - 1];
      var t := data[|data| - 1];
      assert forall i :: 0 <= i < |init| ==> init[i] == data[i];
      NodeValues(init) + [t.o, t.s]
  }

  /** The links `parse_data` returns, by value: one per triple, labelled with its
      property, from the origin to its object. */
  function ParsedLinks(data: seq<Triple>, origin: string): (r: seq<LinkKey>)
    ensures |r| == |data|
    ensures forall i :: 0 <= i < |data| ==> r[i] == LinkKey(data[i].p, origin, data[i].o)
  {
    if data == [] then []
    else
      var init := data[..|data| - 1];
      assert forall i :: 0 <= i < |init| ==> init[i] == data[i];
      ParsedLinks(init, origin) + [LinkKey(data[|data| - 1].p, origin, data[|data| - 1].o)]
  }

  lemma NodeValuesPrefix(data: seq<Triple>, i: int)
    requires 0 <= i < |data|
    ensures NodeValues(data[..i + 1]) == NodeValues(data[..i]) + [data[i].o, data[i].s]
  {
    assert data[..i + 1][..i] == data[..i];
  }

  lemma ParsedLinksPrefix(data: seq<Triple>, origin: string, i: int)
    requires 0 <= i < |data|
    ensures ParsedLinks(data[..i + 1], origin) == ParsedLinks(data[..i], origin) + [LinkKey(data[i].p, origin, data[i].o)]
  {
    assert data[..i + 1][..i] == data[..i];
  }

  /** Parsing two batches one after the other gives the nodes of both, in order. */
  lemma {:induction false} NodeValuesAppend(a: seq<Triple>, b: seq<Triple>)
    ensures NodeValues(a + b) == NodeValues(a) + NodeValues(b)
  {
    if b != [] {
      var init := b[..|b| - 1];
      assert (a + b)[..|a + b| - 1] == a + init;
      NodeValuesAppend(a, init);
    } else {
      assert a + b == a;
    }
  }

  /** Parsing two batches one after the other gives the links of both, in order. */
  lemma {:induction false} ParsedLinksAppend(a: seq<Triple>, b: seq<Triple>, origin: string)
    ensures ParsedLinks(a + b, origin) == ParsedLinks(a, origin) + ParsedLinks(b, origin)
  {
    if b != [] {
      var init := b[..|b| - 1];
      assert (a + b)[..|a + b| - 1] == a + init;
      ParsedLinksAppend(a, init, origin);
    } else {
      assert a + b == a;
    }
  }

  /** Every parsed link ends at the node created for its triple's object, and the node
      after that one carries the triple's subject. */
  lemma ParsedLinkTargets(data: seq<Triple>, origin: string, i: int)
    requires 0 <= i < |data|
    ensures ParsedLinks(data, origin)[i].target == NodeValues(data)[2 * i]
    ensures ParsedLinks(data, origin)[i].value == data[i].p && NodeValues(data)[2 * i + 1] == data[i].s
  {
  }

  lemma SimValuesPair(ns: seq<SimNode>, a: SimNode, b: SimNode)
    ensures SimValuesOf(ns + [a, b]) == SimValuesOf(ns) + [a.value, b.value]
  {
  }

  lemma LinkKeysSnoc(ls: seq<SimLink>, l: SimLink)
    ensures LinkKeys(ls + [l]) == LinkKeys(ls) + [KeyOf(l)]
  {
  }

  /** The body of the `parse_data` loop: a fresh origin node, a node for the object, one
      for the subject, and the link from the origin to the object node. */
  method ParseTriple(triple: Triple, originUri: string)
    returns (origin: SimNode, source: SimNode, target: SimNode, link: SimLink)
    ensures fresh(origin) && fresh(source) && fresh(target) && fresh(link)
    ensures origin != source && origin != target && source != target
    ensures origin.value == originUri && source.value == triple.o && target.value == triple.s
    ensures link.value == triple.p && link.source == origin && link.target == source
  {
    origin := new SimNode(originUri);
    source := new SimNode(triple.o);
    target := new SimNode(triple.s);
    link := new SimLink(triple.p, origin, source);
  }

  /** How the nodes and links of `parse_data` fit together: link `j` ends at node `2 * j`,
      and its origin is neither a returned node nor the origin of another link. */
  predicate ParsedShape(ns: seq<SimNode>, ls: seq<SimLink>)
  {
    && |ns| == 2 * |ls|
    && (forall j :: 0 <= j < |ls| ==> ls[j].target == ns[2 * j])
    && (forall j, k :: 0 <= j < |ls| && 0 <= k < |ns| ==> ls[j].source != ns[k])
    && (forall j, m :: 0 <= j < m < |ls| ==> ls[j].source != ls[m].source)
  }

  /** One more iteration keeps the shape when its three nodes are new. */
  lemma ParsedShapePushed(ns: seq<SimNode>, ls: seq<SimLink>, o: SimNode, a: SimNode, b: SimNode, l: SimLink)
    requires ParsedShape(ns, ls)
    requires l.source == o && l.target == a && o != a && o != b
    requires forall k :: 0 <= k < |ns| ==> ns[k] != o
    requires forall j :: 0 <= j < |ls| ==> ls[j].source != a && ls[j].source != b && ls[j].source != o
    ensures ParsedShape(ns + [a, b], ls + [l])
  {
    var ns2, ls2 := ns + [a, b], ls + [l];
    forall j | 0 <= j < |ls2| ensures ls2[j].target == ns2[2 * j] {
      if j < |ls| {
        assert ls2[j] == ls[j] && ns2[2 * j] == ns[2 * j];
      }
    }
    forall j, k | 0 <= j < |ls2| && 0 <= k < |ns2| ensures ls2[j].source != ns2[k] {
      if j < |ls| && k < |ns| {
        assert ls2[j] == ls[j] && ns2[k] == ns[k];
      } else if j < |ls| {
        assert ls2[j] == ls[j];
      } else if k < |ns| {
        assert ns2[k] == ns[k];
      }
    }
    forall j, m | 0 <= j < m < |ls2| ensures ls2[j].source != ls2[m].source {
      assert ls2[j] == ls[j];
    }
  }

  /** `parse_data`: for each triple, a fresh origin node with value `originUri`, a node for
      its object and one for its subject (pushed in that order), and a link from the origin
      to the object node. The origin nodes are not among the returned nodes. */
  method ParseData(data: seq<Triple>, originUri: string) returns (nodes: seq<SimNode>, links: seq<SimLink>)
    ensures SimValuesOf(nodes) == NodeValues(data)
    ensures LinkKeys(links) == ParsedLinks(data, originUri)
    ensures ParsedShape(nodes, links)
  {
    nodes, links := [], [];
    for i := 0 to |data|
      invariant |links| == i && ParsedShape(nodes, links)
      invariant SimValuesOf(nodes) == NodeValues(data[..i])
      invariant LinkKeys(links) == ParsedLinks(data[..i], originUri)
    {
      var origin, source, target, link := ParseTriple(data[i], originUri);
      SimValuesPair(nodes, source, target);
      NodeValuesPrefix(data, i);
      LinkKeysSnoc(links, link);
      ParsedLinksPrefix(data, originUri, i);
      ParsedShapePushed(nodes, links, origin, source, target, link);
      nodes := nodes + [source, target];
      links := links + [link];
    }
    assert data[..|data|] == data;
  }

  // ---------------------------------------------------------------------------------
  // Binding projections

  /** A solution streamed by the endpoint: the values of the variables it binds. */
  type Chunk = map<string, string>

  /** The value bound to `name` in a chunk; `None` plays JavaScript's `undefined`. */
  function Bound(c: Chunk, name: string): (r: Option<string>)
    ensures r.Some? <==> name in c
    ensures r.Some? ==> r.value == c[name]
  {
    if name in c then Some(c[name]) else None
  }

  /** A triple as returned by `fetch_data` and `fetch_properties`; a position holding
      `undefined` is `None`. */
  datatype Fetched = Fetched(s: Option<string>, p: Option<string>, o: Option<string>)

  /** `fetch_data`'s `chunks.map(...)`: the subject is `uri`, the property `property` and
      the object the chunk's `?s`, one triple per chunk, in order. */
  function DataTriples(uri: string, property: string, chunks: seq<Chunk>): (r: seq<Fetched>)
    ensures |r| == |chunks|
    ensures forall i :: 0 <= i < |chunks| ==> r[i] == Fetched(Some(uri), Some(property), Bound(chunks[i], "s"))
  {
    if chunks == [] then []
    else [Fetched(Some(uri), Some(property), Bound(chunks[0], "s"))] + DataTriples(uri, property, chunks[1..])
  }

  /** Chunks stream in one `data` event at a time; projecting what arrived so far and then
      the rest gives the projection of everything. */
  lemma {:induction false} DataTriplesAppend(uri: string, property: string, a: seq<Chunk>, b: seq<Chunk>)
    ensures DataTriples(uri, property, a + b) == DataTriples(uri, property, a) + DataTriples(uri, property, b)
  {
    if a != [] {
      assert (a + b)[1..] == a[1..] + b;
      DataTriplesAppend(uri, property, a[1..], b);
    } else {
      assert a + b == b;
    }
  }

  /** The triple `fetch_properties` pushes for one chunk: subject `uri`, the chunk's `?p`,
      and the fixed object `'test'`. */
  function PropertyTriple(uri: string, c: Chunk): Fetched
  {
    Fetched(Some(uri), Bound(c, "p"), Some(Placeholder))
  }

  /** `fetch_properties`: the triples pushed by the `data` handler, in arrival order. */
  function PropertyTriples(uri: string, chunks: seq<Chunk>): (r: seq<Fetched>)
    ensures |r| == |chunks|
    ensures forall i :: 0 <= i < |chunks| ==> r[i] == Fetched(Some(uri), Bound(chunks[i], "p"), Some("test"))
  {
    if chunks == [] then []
    else
      var init := chunks[..|chunks| - 1];
      assert forall i :: 0 <= i < |init| ==> init[i] == chunks[i];
      PropertyTriples(uri, init) + [PropertyTriple(uri, chunks[|chunks| - 1])]
  }

  /** One more `data` event pushes exactly one more triple and changes none before it. */
  lemma PropertyTriplesSnoc(uri: string, chunks: seq<Chunk>, c: Chunk)
    ensures PropertyTriples(uri, chunks + [c]) == PropertyTriples(uri, chunks) + [PropertyTriple(uri, c)]
  {
    assert (chunks + [c])[..|chunks|] == chunks;
  }
}
