/** The graph of the earlier graph package (ui/packages/graph/src/types.ts): the same
    node list deduplicated by id and edge list deduplicated by predicate and unordered
    endpoints as the current graph, with a render view that holds the node and edge
    OBJECTS themselves, so that deciding what leaves the view is a matter of identity.

    `load_data` differs from the current `load_related_nodes`: every fetched node is
    moved to the given position and shown, and the edges drawn for a fetched node are
    its relations when it has any, the subject-property edge only when it has none.
    The SPARQL calls are those of `DraftApi`; the image records, which that client has
    no function for, are an input of the continuation that applies them. */
module DraftGraph {
  import opened Common
  import opened Bindings
  import GraphModel
  import DraftApi

  /** Every mutable field of a draft `Node` at one moment. */
  datatype NodeFields = NodeFields(labelText: string, visible: bool, isFetched: bool, image: Option<string>,
                                   x: real, y: real, properties: seq<Property>, shape: GraphModel.Shape)

  /** The position a node gets when none is given. */
  const Origin: GraphModel.Position := GraphModel.Position(0.0, 0.0)

  /** The fields of a new node: unfetched, no properties, drawn as a dot unless an image
      that is given and non-empty is shown. */
  function Initial(labelText: string, visible: bool, image: Option<string>, position: GraphModel.Position)
    : NodeFields
  {
    var f := NodeFields(labelText, visible, false, None, position.x, position.y, [], GraphModel.Dot);
    if GraphModel.ShownImage(image).Some? then f.(image := GraphModel.ShownImage(image), shape := GraphModel.CircularImage)
    else f
  }

  class Node {
    const id: string
    var labelText: string
    var visible: bool
    var isFetched: bool
    var image: Option<string>
    var x: real
    var y: real
    var properties: seq<Property>
    var shape: GraphModel.Shape

    function Fields(): NodeFields
      reads this
    {
      NodeFields(labelText, visible, isFetched, image, x, y, properties, shape)
    }

    constructor(uri: string, labelText: string, visible: bool, image: Option<string>, position: GraphModel.Position)
      ensures id == uri
      ensures Fields() == Initial(labelText, visible, image, position)
    {
      id := uri;
      this.labelText := labelText;
      this.visible := visible;
      isFetched := false;
      x := position.x;
      y := position.y;
      properties := [];
      this.image := None;
      shape := GraphModel.Dot;
      new;
      if image.Some? && image.value != "" {
        this.image := image;
        shape := GraphModel.CircularImage;
      }
    }

    /** Shows the image at `url`: nothing else about the node changes. */
    method UpdateImage(url: string)
      modifies this
      ensures Fields() == old(Fields()).(image := Some(url), shape := GraphModel.CircularImage)
    {
      image := Some(url);
      shape := GraphModel.CircularImage;
    }
  }

  /** A draft edge object; its fields never change. */
  class Edge {
    const from: string
    const uri: string
    const to: string
    const labelText: string

    constructor(source: string, uri: string, target: string, labelText: string)
      ensures from == source && this.uri == uri && to == target && this.labelText == labelText
    {
      from := source;
      this.uri := uri;
      to := target;
      this.labelText := labelText;
    }

    /** The edge as a value, for the edge-list functions it shares with the current graph. */
    function Value(): GraphModel.Edge
    {
      GraphModel.Edge(from, uri, to, labelText)
    }
  }

  function EdgesOf(es: seq<Edge>): (r: seq<GraphModel.Edge>)
    ensures |r| == |es| && forall k :: 0 <= k < |es| ==> r[k] == es[k].Value()
  {
    seq(|es|, k requires 0 <= k < |es| => es[k].Value())
  }

  lemma EdgesOfSnoc(es: seq<Edge>, e: Edge)
    ensures EdgesOf(es + [e]) == EdgesOf(es) + [e.Value()]
  {
  }

  // ---------------------------------------------------------------------------------
  // Nodes by id

  predicate UniqueIds(ns: seq<Node>)
  {
    forall i, j :: 0 <= i < j < |ns| ==> ns[i].id != ns[j].id
  }

  /** Position of the first node with id `uri` (`nodes.find`), or -1. */
  function IndexOf(ns: seq<Node>, uri: string): (r: int)
    ensures -1 <= r < |ns|
    ensures r == -1 <==> forall j :: 0 <= j < |ns| ==> ns[j].id != uri
    ensures r >= 0 ==> ns[r].id == uri && forall j :: 0 <= j < r ==> ns[j].id != uri
  {
    if ns == [] then -1
    else
      var r := IndexOf(ns[..|ns| - 1], uri);
      if r >= 0 then r
      else if ns[|ns| - 1].id == uri then |ns| - 1
      else -1
  }

  /** Appending a node with a fresh id keeps the ids unique. */
  lemma IndexOfSnoc(ns: seq<Node>, n: Node)
    requires IndexOf(ns, n.id) == -1
    ensures UniqueIds(ns) ==> UniqueIds(ns + [n])
  {
  }

  function IdsOf(ns: seq<Node>): (r: seq<string>)
    ensures |r| == |ns| && forall k :: 0 <= k < |ns| ==> r[k] == ns[k].id
  {
    seq(|ns|, k requires 0 <= k < |ns| => ns[k].id)
  }

  // ---------------------------------------------------------------------------------
  // Visibility

  /** In the snapshot `ss`, node `i` has id `e.from`, a different node `j` has id `e.to`,
      and both are visible. */
  predicate VisibleVia(ss: seq<NodeState>, e: Edge, i: int, j: int)
    requires 0 <= i < |ss| && 0 <= j < |ss|
  {
    ss[i].id == e.from && ss[i].fields.visible && j != i && ss[j].id == e.to && ss[j].fields.visible
  }

  /** What `is_edge_visible` decides, on a snapshot of the nodes. */
  predicate EdgeVisible(ss: seq<NodeState>, e: Edge)
  {
    exists i, j :: 0 <= i < |ss| && 0 <= j < |ss| && VisibleVia(ss, e, i, j)
  }

  function VisibleIds(ss: seq<NodeState>): set<string>
  {
    set i | 0 <= i < |ss| && ss[i].fields.visible :: ss[i].id
  }

  /** The node objects `this.nodes.filter((node) => node.visible)` keeps, where `ss` is
      the snapshot of `ns`. */
  function VisibleNodes(ns: seq<Node>, ss: seq<NodeState>): set<Node>
  {
    set i | 0 <= i < |ns| && i < |ss| && ss[i].fields.visible :: ns[i]
  }

  /** The edge objects `this.edges.filter((edge) => this.is_edge_visible(edge))` keeps. */
  function VisibleEdges(ss: seq<NodeState>, es: seq<Edge>): set<Edge>
  {
    set m | 0 <= m < |es| && EdgeVisible(ss, es[m]) :: es[m]
  }

  /** With unique ids an edge is visible exactly when both endpoints are visible and
      differ; in particular a self-loop is never visible. */
  lemma EdgeVisibleIff(ss: seq<NodeState>, e: Edge)
    requires UniqueStates(ss)
    ensures EdgeVisible(ss, e) <==> e.from != e.to && e.from in VisibleIds(ss) && e.to in VisibleIds(ss)
  {
    if e.from != e.to && e.from in VisibleIds(ss) && e.to in VisibleIds(ss) {
      var i :| 0 <= i < |ss| && ss[i].fields.visible && ss[i].id == e.from;
      var j :| 0 <= j < |ss| && ss[j].fields.visible && ss[j].id == e.to;
      assert VisibleVia(ss, e, i, j);
    }
  }

  // ---------------------------------------------------------------------------------
  // Node snapshots

  /** A node's id and fields at one moment. */
  datatype NodeState = NodeState(id: string, fields: NodeFields)

  function Snapshot(ns: seq<Node>): (r: seq<NodeState>)
    reads ns
    ensures |r| == |ns| && forall k :: 0 <= k < |ns| ==> r[k] == NodeState(ns[k].id, ns[k].Fields())
  {
    seq(|ns|, k requires 0 <= k < |ns| reads ns => NodeState(ns[k].id, ns[k].Fields()))
  }

  predicate UniqueStates(ss: seq<NodeState>)
  {
    forall i, j :: 0 <= i < j < |ss| ==> ss[i].id != ss[j].id
  }

  /** `IndexOf` on snapshots. */
  function Lookup(ss: seq<NodeState>, uri: string): (r: int)
    ensures -1 <= r < |ss|
    ensures r == -1 <==> forall j :: 0 <= j < |ss| ==> ss[j].id != uri
    ensures r >= 0 ==> ss[r].id == uri && forall j :: 0 <= j < r ==> ss[j].id != uri
  {
    if ss == [] then -1
    else
      var r := Lookup(ss[..|ss| - 1], uri);
      if r >= 0 then r
      else if ss[|ss| - 1].id == uri then |ss| - 1
      else -1
  }

  lemma LookupSnapshot(ns: seq<Node>, uri: string)
    ensures Lookup(Snapshot(ns), uri) == IndexOf(ns, uri)
    ensures UniqueIds(ns) <==> UniqueStates(Snapshot(ns))
  {
  }

  lemma SnapshotReplaced(ns: seq<Node>, ss: seq<NodeState>, k: int)
    requires 0 <= k < |ns| == |ss|
    requires forall j :: 0 <= j < |ns| && j != k ==> ss[j] == NodeState(ns[j].id, ns[j].Fields())
    ensures Snapshot(ns) == ss[k := NodeState(ns[k].id, ns[k].Fields())]
  {
  }

  lemma SnapshotAppended(ns: seq<Node>, ss: seq<NodeState>)
    requires |ns| == |ss| + 1
    requires forall j :: 0 <= j < |ss| ==> ss[j] == NodeState(ns[j].id, ns[j].Fields())
    ensures Snapshot(ns) == ss + [NodeState(ns[|ss|].id, ns[|ss|].Fields())]
  {
  }

  /** The fields of the node with id `uri`, if there is one. */
  function StateOf(ss: seq<NodeState>, uri: string): Option<NodeFields>
  {
    var k := Lookup(ss, uri);
    if k < 0 then None else Some(ss[k].fields)
  }

  /** The snapshot after giving the node with id `uri` the fields `f`, appending it when
      there is none. */
  function Put(ss: seq<NodeState>, uri: string, f: NodeFields): seq<NodeState>
  {
    var k := Lookup(ss, uri);
    if k < 0 then ss + [NodeState(uri, f)] else ss[k := NodeState(uri, f)]
  }

  /** `Put` keeps ids unique and appends only for an id that is not there yet. */
  lemma PutShape(ss: seq<NodeState>, uri: string, f: NodeFields)
    requires UniqueStates(ss)
    ensures UniqueStates(Put(ss, uri, f))
    ensures |Put(ss, uri, f)| == |ss| + (if StateOf(ss, uri).None? then 1 else 0)
    ensures forall k :: 0 <= k < |ss| ==> Put(ss, uri, f)[k].id == ss[k].id
  {
  }

  /** `Put` gives the node with id `uri` the fields `f` and changes no other node. */
  lemma PutAt(ss: seq<NodeState>, uri: string, f: NodeFields, u: string)
    requires UniqueStates(ss)
    ensures StateOf(Put(ss, uri, f), u) == if u == uri then Some(f) else StateOf(ss, u)
  {
    var r := Put(ss, uri, f);
    var k := Lookup(ss, u);
    if k >= 0 {
      assert r[k].id == u;
      assert Lookup(r, u) == k;
    } else if u == uri {
      assert Lookup(r, u) == |ss|;
    } else {
      assert forall j :: 0 <= j < |r| ==> r[j].id != u;
    }
  }

  /** `Lookup` finds the first position with the id. */
  lemma LookupFirst(ss: seq<NodeState>, uri: string, k: int)
    requires 0 <= k < |ss| && ss[k].id == uri && forall j :: 0 <= j < k ==> ss[j].id != uri
    ensures Lookup(ss, uri) == k
  {
  }

  /** A second `Put` for the same id overrides the first. */
  lemma PutTwice(ss: seq<NodeState>, uri: string, f: NodeFields, g: NodeFields)
    ensures Put(Put(ss, uri, f), uri, g) == Put(ss, uri, g)
  {
    var k := Lookup(ss, uri);
    if k < 0 {
      LookupFirst(ss + [NodeState(uri, f)], uri, |ss|);
    } else {
      var t := ss[k := NodeState(uri, f)];
      assert forall j :: 0 <= j < k ==> t[j] == ss[j];
      LookupFirst(t, uri, k);
    }
  }

  /** `Put` on the snapshot where `find_or_create_node` has found or appended the node
      with fields `g`, replacing them by `f`. */
  lemma PutFound(ss: seq<NodeState>, uri: string, g: NodeFields, f: NodeFields)
    ensures var k := Lookup(ss, uri);
      var created := if k >= 0 then ss else ss + [NodeState(uri, g)];
      var idx := if k >= 0 then k else |ss|;
      Put(ss, uri, f) == created[idx := NodeState(uri, f)]
  {
  }

  /** `get_properties` on values: after `find_or_create_node` has left the snapshot at
      `Put(ss, uri, g)`, the node `load_properties` finds again is the one with fields `g`,
      and its update overrides the first `Put`. */
  lemma FoundAgain(ss: seq<NodeState>, uri: string, g: NodeFields, fetched: Result<seq<Property>>)
    requires UniqueStates(ss) && g == Found(StateOf(ss, uri), "", Origin)
    ensures var k := Lookup(ss, uri);
      Put(ss, uri, g) == if k >= 0 then ss else ss + [NodeState(uri, g)]
    ensures UniqueStates(Put(ss, uri, g)) && StateOf(Put(ss, uri, g), uri) == Some(g)
    ensures fetched.Ok? && fetched.value != [] ==>
              var h := Found(StateOf(Put(ss, uri, g), uri), uri, Origin).(isFetched := true, properties := fetched.value);
              Put(Put(ss, uri, g), uri, h) == Put(ss, uri, h)
  {
    var k := Lookup(ss, uri);
    if k >= 0 {
      assert ss[k := NodeState(uri, g)] == ss;
    }
    PutShape(ss, uri, g);
    PutAt(ss, uri, g, uri);
    if fetched.Ok? && fetched.value != [] {
      PutTwice(ss, uri, g, g.(isFetched := true, properties := fetched.value));
    }
  }

  /** The snapshot `get_properties` leaves: the node with id `uri` found or created, and
      given the fetched properties when it had none fetched and the list is not empty. */
  function PropertiesAfter(ss: seq<NodeState>, uri: string, fetched: Result<seq<Property>>): seq<NodeState>
  {
    var g := Found(StateOf(ss, uri), "", Origin);
    Put(ss, uri, if !g.isFetched && fetched.Ok? && fetched.value != [] then g.(isFetched := true, properties := fetched.value) else g)
  }

  /** `PropertiesAfter` in the two steps `get_properties` takes: `find_or_create_node`,
      then `load_properties` on the node it found. */
  lemma PropertiesAfterCases(ss: seq<NodeState>, uri: string, fetched: Result<seq<Property>>, g: NodeFields)
    requires UniqueStates(ss) && g == Found(StateOf(ss, uri), "", Origin)
    ensures var ss1 := Put(ss, uri, g);
      PropertiesAfter(ss, uri, fetched) ==
        if !g.isFetched && fetched.Ok? && fetched.value != []
        then Put(ss1, uri, Found(StateOf(ss1, uri), uri, Origin).(isFetched := true, properties := fetched.value))
        else ss1
  {
    FoundAgain(ss, uri, g, fetched);
  }

  /** The fields of the node `find_or_create_node(uri, labelText, true, undefined,
      position)` yields: the existing node's, or a new visible one's. */
  function Found(before: Option<NodeFields>, labelText: string, position: GraphModel.Position): NodeFields
  {
    if before.Some? then before.value else Initial(labelText, true, None, position)
  }

  // ---------------------------------------------------------------------------------
  // What `load_data` does, on values

  /** The fields of a fetched node after its pass of the loop: found or created, then
      moved to `position` and shown. */
  function Placed(before: Option<NodeFields>, labelText: string, position: GraphModel.Position): NodeFields
  {
    Found(before, labelText, position).(x := position.x, y := position.y, visible := true)
  }

  /** Placing a placed node again, whatever label the later entry carries, changes nothing. */
  lemma PlacedAgain(before: Option<NodeFields>, l: string, l2: string, position: GraphModel.Position)
    ensures Placed(Some(Placed(before, l, position)), l2, position) == Placed(before, l, position)
  {
    var f := Placed(before, l, position);
    assert f.(x := position.x, y := position.y, visible := true) == f;
  }

  /** Every relation binding has the four variables the loop reads. */
  predicate Complete(bs: seq<Binding>)
  {
    forall k :: 0 <= k < |bs| ==> RelationOf(bs[k]).Ok?
  }

  /** The edge list after the edge step for fetched node `d`: the subject-property edge
      when `d` has no relations, one `create_edge` per relation otherwise (up to the first
      incomplete binding, which throws). */
  function EntryEdges(es: seq<GraphModel.Edge>, subject: string, property: Property, d: DraftApi.DataResult)
    : seq<GraphModel.Edge>
  {
    if d.relations == [] then GraphModel.WithEdge(es, subject, property.uri, d.uri, GraphModel.EdgeLabel(property))
    else GraphModel.WithRelationEdges(es, d.relations)
  }

  /** The graph as values during `load_data`; `failed` records that a relation binding
      threw, which ends the loop. */
  datatype Loaded = Loaded(states: seq<NodeState>, edges: seq<GraphModel.Edge>, failed: bool)

  /** One pass of the `load_data` loop. */
  function LoadStep(s: Loaded, subject: string, property: Property, d: DraftApi.DataResult,
                    position: GraphModel.Position): Loaded
  {
    if s.failed then s
    else Loaded(Put(s.states, d.uri, Placed(StateOf(s.states, d.uri), d.labelText, position)),
                EntryEdges(s.edges, subject, property, d), !Complete(d.relations))
  }

  /** The whole loop over the fetched nodes, in order. */
  function LoadAll(s: Loaded, subject: string, property: Property, ds: seq<DraftApi.DataResult>,
                   position: GraphModel.Position): Loaded
    decreases |ds|
  {
    if ds == [] then s
    else LoadStep(LoadAll(s, subject, property, ds[..|ds| - 1], position), subject, property, ds[|ds| - 1], position)
  }

  lemma LoadAllStep(s: Loaded, subject: string, property: Property, ds: seq<DraftApi.DataResult>,
                    position: GraphModel.Position, i: nat)
    requires i < |ds|
    ensures LoadAll(s, subject, property, ds[..i + 1], position) ==
            LoadStep(LoadAll(s, subject, property, ds[..i], position), subject, property, ds[i], position)
  {
    assert ds[..i + 1][..i] == ds[..i];
  }

  /** Once a pass has thrown, the rest of the loop does not run. */
  lemma {:induction false} LoadAllFrozen(s: Loaded, subject: string, property: Property, ds: seq<DraftApi.DataResult>,
                                         position: GraphModel.Position, i: nat)
    requires i <= |ds| && LoadAll(s, subject, property, ds[..i], position).failed
    ensures LoadAll(s, subject, property, ds, position) == LoadAll(s, subject, property, ds[..i], position)
    decreases |ds| - i
  {
    if i < |ds| {
      LoadAllStep(s, subject, property, ds, position, i);
      LoadAllFrozen(s, subject, property, ds, position, i + 1);
    } else {
      assert ds[..i] == ds;
    }
  }

  function DataUris(ds: seq<DraftApi.DataResult>): (r: seq<string>)
    ensures |r| == |ds| && forall k :: 0 <= k < |ds| ==> r[k] == ds[k].uri
  {
    seq(|ds|, k requires 0 <= k < |ds| => ds[k].uri)
  }

  /** The label of the first fetched node with id `u`. */
  function FirstLabel(ds: seq<DraftApi.DataResult>, u: string): (r: string)
    ensures u in DataUris(ds) ==>
      exists k :: 0 <= k < |ds| && ds[k].uri == u && r == ds[k].labelText && forall j :: 0 <= j < k ==> ds[j].uri != u
    decreases |ds|
  {
    if ds == [] then ""
    else
      var init := ds[..|ds| - 1];
      assert forall k :: 0 <= k < |init| ==> init[k] == ds[k];
      if u in DataUris(init) then FirstLabel(init, u)
      else if ds[|ds| - 1].uri == u then ds[|ds| - 1].labelText
      else ""
  }

  /** Some fetched node has an incomplete relation binding. */
  predicate AnyIncomplete(ds: seq<DraftApi.DataResult>)
  {
    exists k :: 0 <= k < |ds| && !Complete(ds[k].relations)
  }

  lemma AnyIncompleteSnoc(ds: seq<DraftApi.DataResult>)
    requires ds != []
    ensures AnyIncomplete(ds) <==> AnyIncomplete(ds[..|ds| - 1]) || !Complete(ds[|ds| - 1].relations)
  {
    var init := ds[..|ds| - 1];
    if AnyIncomplete(ds) {
      var k :| 0 <= k < |ds| && !Complete(ds[k].relations);
      if k < |init| {
        assert init[k] == ds[k];
      }
    }
    if AnyIncomplete(init) {
      var k :| 0 <= k < |init| && !Complete(init[k].relations);
      assert init[k] == ds[k];
    }
  }

  /** The uris and first labels of a longer list of fetched nodes. */
  lemma FirstLabelSnoc(ds: seq<DraftApi.DataResult>, u: string)
    requires ds != []
    ensures var init := ds[..|ds| - 1];
      && DataUris(ds) == DataUris(init) + [ds[|ds| - 1].uri]
      && (u in DataUris(ds) <==> u in DataUris(init) || u == ds[|ds| - 1].uri)
      && FirstLabel(ds, u) == if u in DataUris(init) then FirstLabel(init, u)
                              else if u == ds[|ds| - 1].uri then ds[|ds| - 1].labelText else ""
  {
    assert DataUris(ds) == DataUris(ds[..|ds| - 1]) + [ds[|ds| - 1].uri];
  }

  /** The loop fails exactly when some fetched node has an incomplete relation binding. */
  lemma {:induction false} LoadAllFails(s: Loaded, subject: string, property: Property, ds: seq<DraftApi.DataResult>,
                                        position: GraphModel.Position)
    ensures LoadAll(s, subject, property, ds, position).failed <==> s.failed || AnyIncomplete(ds)
    decreases |ds|
  {
    if ds != [] {
      var init := ds[..|ds| - 1];
      var p := LoadAll(s, subject, property, init, position);
      LoadAllFails(s, subject, property, init, position);
      AnyIncompleteSnoc(ds);
      assert LoadAll(s, subject, property, ds, position).failed == (p.failed || !Complete(ds[|ds| - 1].relations));
    }
  }

  /** The loop keeps ids unique and in place, and edges unique and in place. */
  lemma {:induction false} LoadAllShape(s: Loaded, subject: string, property: Property, ds: seq<DraftApi.DataResult>,
                                        position: GraphModel.Position)
    requires UniqueStates(s.states) && GraphModel.UniqueEdges(s.edges)
    ensures var r := LoadAll(s, subject, property, ds, position);
      && UniqueStates(r.states) && GraphModel.UniqueEdges(r.edges)
      && |s.states| <= |r.states| && (forall k :: 0 <= k < |s.states| ==> r.states[k].id == s.states[k].id)
      && s.edges <= r.edges
    decreases |ds|
  {
    if ds != [] {
      var init := ds[..|ds| - 1];
      var d := ds[|ds| - 1];
      var p := LoadAll(s, subject, property, init, position);
      LoadAllShape(s, subject, property, init, position);
      if !p.failed {
        PutShape(p.states, d.uri, Placed(StateOf(p.states, d.uri), d.labelText, position));
        if d.relations == [] {
          GraphModel.WithEdgeKeepsUnique(p.edges, subject, property.uri, d.uri, GraphModel.EdgeLabel(property));
          GraphModel.WithEdgeConnects(p.edges, subject, property.uri, d.uri, GraphModel.EdgeLabel(property));
        } else {
          GraphModel.WithRelationEdgesKeeps(p.edges, d.relations);
        }
      }
    }
  }

  /** When the loop runs to the end, every fetched node is shown at `position`: an
      existing node keeps everything else, a missing one is created with the label of
      the first entry about it; a node that was not fetched is left as it was. */
  lemma {:induction false} LoadAllAt(s: Loaded, subject: string, property: Property, ds: seq<DraftApi.DataResult>,
                                     position: GraphModel.Position, u: string)
    requires UniqueStates(s.states) && GraphModel.UniqueEdges(s.edges)
    requires !LoadAll(s, subject, property, ds, position).failed
    ensures StateOf(LoadAll(s, subject, property, ds, position).states, u) ==
              if u in DataUris(ds) then Some(Placed(StateOf(s.states, u), FirstLabel(ds, u), position))
              else StateOf(s.states, u)
    decreases |ds|
  {
    if ds != [] {
      var init := ds[..|ds| - 1];
      var d := ds[|ds| - 1];
      var p := LoadAll(s, subject, property, init, position);
      assert !p.failed;
      LoadAllAt(s, subject, property, init, position, u);
      LoadAllShape(s, subject, property, init, position);
      FirstLabelSnoc(ds, u);
      var f := Placed(StateOf(p.states, d.uri), d.labelText, position);
      PutAt(p.states, d.uri, f, u);
      if u == d.uri && u in DataUris(init) {
        PlacedAgain(StateOf(s.states, u), FirstLabel(init, u), d.labelText, position);
      }
    }
  }

  /** An edge the step for `d` may add: the subject-property edge of a node without
      relations, or the edge of one of its complete relation bindings. */
  predicate FromEntry(e: GraphModel.Edge, subject: string, property: Property, d: DraftApi.DataResult)
  {
    if d.relations == [] then e == GraphModel.Edge(subject, property.uri, d.uri, GraphModel.EdgeLabel(property))
    else exists j :: 0 <= j < |d.relations| && RelationOf(d.relations[j]) == Ok(Relation(e.from, e.uri, e.to, e.labelText))
  }

  /** `create_edge` adds nothing but the edge it was asked for. */
  lemma WithEdgeAdds(es: seq<GraphModel.Edge>, s: string, u: string, t: string, name: string)
    ensures forall m :: |es| <= m < |GraphModel.WithEdge(es, s, u, t, name)| ==>
              GraphModel.WithEdge(es, s, u, t, name)[m] == GraphModel.Edge(s, u, t, name)
  {
  }

  /** The relation edges add nothing but edges of complete relation bindings. */
  lemma {:induction false} WithRelationEdgesAdds(es: seq<GraphModel.Edge>, bs: seq<Binding>)
    ensures es <= GraphModel.WithRelationEdges(es, bs)
    ensures var r := GraphModel.WithRelationEdges(es, bs);
      forall m :: |es| <= m < |r| ==>
        exists j :: 0 <= j < |bs| && RelationOf(bs[j]) == Ok(Relation(r[m].from, r[m].uri, r[m].to, r[m].labelText))
    decreases |bs|
  {
    if bs != [] {
      match RelationOf(bs[0])
      case Err(_) =>
      case Ok(rel) =>
        var next := GraphModel.WithEdge(es, rel.subject, rel.property, rel.objectValue, rel.propLabel);
        WithEdgeAdds(es, rel.subject, rel.property, rel.objectValue, rel.propLabel);
        GraphModel.WithEdgeConnects(es, rel.subject, rel.property, rel.objectValue, rel.propLabel);
        WithRelationEdgesAdds(next, bs[1..]);
        var r := GraphModel.WithRelationEdges(es, bs);
        assert r == GraphModel.WithRelationEdges(next, bs[1..]);
        forall m | |es| <= m < |r|
          ensures exists j :: 0 <= j < |bs| && RelationOf(bs[j]) == Ok(Relation(r[m].from, r[m].uri, r[m].to, r[m].labelText))
        {
          if m < |next| {
            assert r[m] == next[m];
            assert RelationOf(bs[0]) == Ok(Relation(r[m].from, r[m].uri, r[m].to, r[m].labelText));
          } else {
            var j :| 0 <= j < |bs[1..]| && RelationOf(bs[1..][j]) == Ok(Relation(r[m].from, r[m].uri, r[m].to, r[m].labelText));
            assert bs[1..][j] == bs[j + 1];
          }
        }
    }
  }

  /** Every edge the loop adds comes from one of the fetched nodes (`FromEntry`): no
      subject-property edge is drawn for a node that has relations. */
  lemma {:induction false} LoadAllEdgesFrom(s: Loaded, subject: string, property: Property, ds: seq<DraftApi.DataResult>,
                                            position: GraphModel.Position)
    ensures var r := LoadAll(s, subject, property, ds, position);
      && s.edges <= r.edges
      && forall m :: |s.edges| <= m < |r.edges| ==>
           exists k :: 0 <= k < |ds| && FromEntry(r.edges[m], subject, property, ds[k])
    decreases |ds|
  {
    if ds != [] {
      var init := ds[..|ds| - 1];
      var d := ds[|ds| - 1];
      var p := LoadAll(s, subject, property, init, position);
      var r := LoadAll(s, subject, property, ds, position);
      LoadAllEdgesFrom(s, subject, property, init, position);
      if !p.failed {
        if d.relations == [] {
          WithEdgeAdds(p.edges, subject, property.uri, d.uri, GraphModel.EdgeLabel(property));
          GraphModel.WithEdgeConnects(p.edges, subject, property.uri, d.uri, GraphModel.EdgeLabel(property));
        } else {
          WithRelationEdgesAdds(p.edges, d.relations);
        }
        forall m | |s.edges| <= m < |r.edges|
          ensures exists k :: 0 <= k < |ds| && FromEntry(r.edges[m], subject, property, ds[k])
        {
          if m < |p.edges| {
            assert r.edges[m] == p.edges[m];
            var k :| 0 <= k < |init| && FromEntry(p.edges[m], subject, property, init[k]);
            assert init[k] == ds[k];
          } else {
            assert FromEntry(r.edges[m], subject, property, ds[|ds| - 1]);
          }
        }
      }
    }
  }

  /** A relation binding whose edge is in `es`. */
  predicate RelationJoined(es: seq<GraphModel.Edge>, b: Binding)
  {
    RelationOf(b).Ok? &&
    GraphModel.Connected(es, RelationOf(b).value.subject, RelationOf(b).value.property, RelationOf(b).value.objectValue)
  }

  lemma ConnectedGrows(es: seq<GraphModel.Edge>, es2: seq<GraphModel.Edge>, s: string, u: string, t: string)
    requires es <= es2 && GraphModel.Connected(es, s, u, t)
    ensures GraphModel.Connected(es2, s, u, t)
  {
    var m :| 0 <= m < |es| && GraphModel.Joins(es[m], s, u, t);
    assert es2[m] == es[m];
  }

  /** The step for one fetched node joins what it should: the subject and the node when
      the node has no relations, each relation's subject and object otherwise. */
  predicate EntryJoined(es: seq<GraphModel.Edge>, subject: string, property: Property, d: DraftApi.DataResult)
  {
    if d.relations == [] then GraphModel.Connected(es, subject, property.uri, d.uri)
    else forall j :: 0 <= j < |d.relations| ==> RelationJoined(es, d.relations[j])
  }

  lemma EntryJoinedGrows(es: seq<GraphModel.Edge>, es2: seq<GraphModel.Edge>, subject: string, property: Property,
                         d: DraftApi.DataResult)
    requires es <= es2 && EntryJoined(es, subject, property, d)
    ensures EntryJoined(es2, subject, property, d)
  {
    if d.relations == [] {
      ConnectedGrows(es, es2, subject, property.uri, d.uri);
    } else {
      forall j | 0 <= j < |d.relations| ensures RelationJoined(es2, d.relations[j]) {
        var rel := RelationOf(d.relations[j]).value;
        ConnectedGrows(es, es2, rel.subject, rel.property, rel.objectValue);
      }
    }
  }

  /** The edge step for a node whose relation bindings are all complete joins what it
      should and keeps the earlier edges. */
  lemma EntryEdgesJoin(es: seq<GraphModel.Edge>, subject: string, property: Property, d: DraftApi.DataResult)
    requires Complete(d.relations)
    ensures es <= EntryEdges(es, subject, property, d)
    ensures EntryJoined(EntryEdges(es, subject, property, d), subject, property, d)
  {
    var r := EntryEdges(es, subject, property, d);
    if d.relations == [] {
      GraphModel.WithEdgeConnects(es, subject, property.uri, d.uri, GraphModel.EdgeLabel(property));
    } else {
      GraphModel.WithRelationEdgesKeeps(es, d.relations);
      assert MapAll(RelationOf, d.relations).Ok?;
      GraphModel.WithRelationEdgesMeaning(es, d.relations);
      forall j | 0 <= j < |d.relations| ensures RelationJoined(r, d.relations[j]) {
        assert RelationOf(d.relations[j]).Ok?;
      }
    }
  }

  /** When the loop runs to the end, every fetched node's edges are there. */
  lemma {:induction false} LoadAllEdges(s: Loaded, subject: string, property: Property, ds: seq<DraftApi.DataResult>,
                                        position: GraphModel.Position, k: nat)
    requires k < |ds| && !LoadAll(s, subject, property, ds, position).failed
    ensures EntryJoined(LoadAll(s, subject, property, ds, position).edges, subject, property, ds[k])
    decreases |ds|
  {
    var init := ds[..|ds| - 1];
    var d := ds[|ds| - 1];
    var p := LoadAll(s, subject, property, init, position);
    var r := LoadAll(s, subject, property, ds, position);
    assert !p.failed && r.edges == EntryEdges(p.edges, subject, property, d);
    EntryEdgesJoin(p.edges, subject, property, d);
    if k < |init| {
      LoadAllEdges(s, subject, property, init, position, k);
      assert init[k] == ds[k];
      EntryJoinedGrows(p.edges, r.edges, subject, property, ds[k]);
    }
  }

  // ---------------------------------------------------------------------------------
  // What the image continuation does, on values

  /** One image record: the node with that id, if any, shows the image. */
  function ImageStep(ss: seq<NodeState>, rec: ImageRecord): seq<NodeState>
  {
    match StateOf(ss, rec.uri)
    case None => ss
    case Some(f) => Put(ss, rec.uri, f.(image := Some(rec.image), shape := GraphModel.CircularImage))
  }

  function ImagesApplied(ss: seq<NodeState>, images: seq<ImageRecord>): seq<NodeState>
    decreases |images|
  {
    if images == [] then ss else ImageStep(ImagesApplied(ss, images[..|images| - 1]), images[|images| - 1])
  }

  /** Applying the records keeps the ids; a node ends with the image of the last record
      for its id, drawn as a circular image, and a node without a record, or a record
      without a node, changes nothing. */
  lemma {:induction false} ImagesAppliedAt(ss: seq<NodeState>, images: seq<ImageRecord>, u: string)
    requires UniqueStates(ss)
    ensures var r := ImagesApplied(ss, images);
      && UniqueStates(r) && |r| == |ss| && (forall k :: 0 <= k < |ss| ==> r[k].id == ss[k].id)
      && StateOf(r, u) == if StateOf(ss, u).Some? && GraphModel.LastImageOf(images, u).Some?
                          then Some(StateOf(ss, u).value.(image := GraphModel.LastImageOf(images, u),
                                                          shape := GraphModel.CircularImage))
                          else StateOf(ss, u)
    decreases |images|
  {
    if images != [] {
      var init := images[..|images| - 1];
      var rec := images[|images| - 1];
      var p := ImagesApplied(ss, init);
      ImagesAppliedAt(ss, init, u);
      ImagesAppliedAt(ss, init, rec.uri);
      match StateOf(p, rec.uri)
      case None =>
      case Some(f) =>
        PutShape(p, rec.uri, f.(image := Some(rec.image), shape := GraphModel.CircularImage));
        PutAt(p, rec.uri, f.(image := Some(rec.image), shape := GraphModel.CircularImage), u);
    }
  }

  lemma ImagesAppliedStep(ss: seq<NodeState>, images: seq<ImageRecord>, i: nat)
    requires i < |images|
    ensures ImagesApplied(ss, images[..i + 1]) == ImageStep(ImagesApplied(ss, images[..i]), images[i])
  {
    assert images[..i + 1][..i] == images[..i];
  }

  /** `ImageStep` replaces the entry `Lookup` finds, if any. */
  lemma ImageStepAt(ss: seq<NodeState>, rec: ImageRecord)
    ensures var k := Lookup(ss, rec.uri);
      ImageStep(ss, rec) ==
        if k < 0 then ss
        else ss[k := NodeState(rec.uri, ss[k].fields.(image := Some(rec.image), shape := GraphModel.CircularImage))]
  {
  }

  function RecordUris(images: seq<ImageRecord>): set<string>
  {
    set k | 0 <= k < |images| :: images[k].uri
  }

  /** The listed nodes whose id is in `ids`. */
  function NodesWithIds(ns: seq<Node>, ids: set<string>): set<Node>
  {
    set k | 0 <= k < |ns| && ns[k].id in ids :: ns[k]
  }

  lemma NodesWithIdsStep(ns: seq<Node>, images: seq<ImageRecord>, i: nat)
    requires i < |images|
    ensures NodesWithIds(ns, RecordUris(images[..i + 1])) ==
              NodesWithIds(ns, RecordUris(images[..i])) + NodesWithIds(ns, {images[i].uri})
  {
    assert RecordUris(images[..i + 1]) == RecordUris(images[..i]) + {images[i].uri} by {
      assert forall j :: 0 <= j < i ==> images[..i + 1][j] == images[..i][j];
    }
  }

  // ---------------------------------------------------------------------------------
  // The graph

  class Graph {
    var nodes: seq<Node>
    var edges: seq<Edge>
    /** The node objects in the render view's node `DataSet`. */
    var viewNodes: set<Node>
    /** The edge objects in the render view's edge `DataSet`. */
    var viewEdges: set<Edge>

    /** Node ids are unique, no two edges join the same endpoints through one predicate,
        and the view holds only listed nodes and edges. */
    predicate Valid()
      reads this
    {
      && UniqueIds(nodes) && GraphModel.UniqueEdges(EdgesOf(edges))
      && (forall n :: n in viewNodes ==> n in nodes)
      && (forall e :: e in viewEdges ==> e in edges)
    }

    /** An empty graph with an empty view. The rate limit, size limit and endpoint it
        is given configure the client and are not part of this model. */
    constructor()
      ensures Valid()
      ensures nodes == [] && edges == [] && viewNodes == {} && viewEdges == {}
    {
      nodes := [];
      edges := [];
      viewNodes := {};
      viewEdges := {};
      new;
      UpdateData();
    }

    /** The nested search of `is_edge_visible`; with unique ids, two positions hold
        different node objects exactly when they differ. */
    method IsEdgeVisible(e: Edge) returns (b: bool)
      requires UniqueIds(nodes)
      ensures b == EdgeVisible(Snapshot(nodes), e)
    {
      ghost var ss := Snapshot(nodes);
      var i := 0;
      while i < |nodes|
        invariant 0 <= i <= |nodes|
        invariant forall a, c :: 0 <= a < i && 0 <= c < |nodes| ==> !VisibleVia(ss, e, a, c)
      {
        if nodes[i].id == e.from && nodes[i].visible {
          var j := 0;
          while j < |nodes|
            invariant 0 <= j <= |nodes|
            invariant forall c :: 0 <= c < j ==> !VisibleVia(ss, e, i, c)
          {
            if nodes[j] != nodes[i] && nodes[j].id == e.to && nodes[j].visible {
              assert VisibleVia(ss, e, i, j);
              return true;
            }
            j := j + 1;
          }
        }
        i := i + 1;
      }
      return false;
    }

    /** `this.nodes.filter((node) => node.visible)`, as the set of node objects it holds. */
    method FilterVisibleNodes() returns (shown: set<Node>)
      ensures shown == VisibleNodes(nodes, Snapshot(nodes))
    {
      shown := {};
      var i := 0;
      while i < |nodes|
        invariant 0 <= i <= |nodes|
        invariant shown == set k | 0 <= k < i && nodes[k].visible :: nodes[k]
      {
        if nodes[i].visible {
          shown := shown + {nodes[i]};
        }
        i := i + 1;
      }
    }

    /** `this.edges.filter((edge) => this.is_edge_visible(edge))`, as a set of edge objects. */
    method FilterVisibleEdges() returns (shown: set<Edge>)
      requires UniqueIds(nodes)
      ensures shown == VisibleEdges(Snapshot(nodes), edges)
    {
      shown := {};
      var m := 0;
      while m < |edges|
        invariant 0 <= m <= |edges|
        invariant shown == set k | 0 <= k < m && EdgeVisible(Snapshot(nodes), edges[k]) :: edges[k]
      {
        var b := IsEdgeVisible(edges[m]);
        if b {
          shown := shown + {edges[m]};
        }
        m := m + 1;
      }
    }

    /** The `add` loops: `add` throws, and the item is skipped, when the view already
        holds one with that id; with unique ids a view node with the id of a listed node
        is that node, so the view gains exactly the listed items. Then every view item
        that is not listed (by identity) is removed. */
    method SyncView(shownNodes: set<Node>, shownEdges: set<Edge>)
      requires Valid() && (forall n :: n in shownNodes ==> n in nodes) && (forall e :: e in shownEdges ==> e in edges)
      modifies this
      ensures Valid() && viewNodes == shownNodes && viewEdges == shownEdges
      ensures nodes == old(nodes) && edges == old(edges)
    {
      viewNodes := viewNodes + shownNodes;
      viewEdges := viewEdges + shownEdges;
      GraphModel.Synced(viewNodes, shownNodes);
      GraphModel.Synced(viewEdges, shownEdges);
      viewNodes := viewNodes - (viewNodes - shownNodes);
      viewEdges := viewEdges - (viewEdges - shownEdges);
    }

    /** Brings the view in step with the graph: afterwards it holds exactly the visible
        node objects and the visible edge objects. */
    method UpdateData()
      requires Valid()
      modifies this
      ensures Valid()
      ensures nodes == old(nodes) && edges == old(edges)
      ensures viewNodes == VisibleNodes(nodes, Snapshot(nodes)) && viewEdges == VisibleEdges(Snapshot(nodes), edges)
    {
      var shownNodes := FilterVisibleNodes();
      var shownEdges := FilterVisibleEdges();
      SyncView(shownNodes, shownEdges);
    }

    /** `nodes.find((node) => node.id == uri)`. */
    function GetNode(uri: string): (r: Node?)
      reads this
      ensures r == null <==> forall k :: 0 <= k < |nodes| ==> nodes[k].id != uri
      ensures r != null ==> r in nodes && r.id == uri
    {
      var k := IndexOf(nodes, uri);
      if k < 0 then null else nodes[k]
    }

    /** Returns the node with id `uri` when there is one, untouched; otherwise appends
        exactly one new node built from the arguments. */
    method FindOrCreateNode(uri: string, labelText: string, visible: bool, image: Option<string>,
                            position: GraphModel.Position)
      returns (node: Node)
      requires Valid()
      modifies this
      ensures Valid()
      ensures node.id == uri && node == GetNode(uri)
      ensures old(GetNode(uri)) != null ==> node == old(GetNode(uri)) && nodes == old(nodes)
      ensures old(GetNode(uri)) == null ==>
                fresh(node) && nodes == old(nodes) + [node] && node.Fields() == Initial(labelText, visible, image, position)
      ensures old(nodes) <= nodes && forall k :: |old(nodes)| <= k < |nodes| ==> fresh(nodes[k])
      ensures old(GetNode(uri)) != null ==> Snapshot(nodes) == old(Snapshot(nodes))
      ensures old(GetNode(uri)) == null ==> Snapshot(nodes) == old(Snapshot(nodes)) + [NodeState(uri, node.Fields())]
      ensures edges == old(edges) && viewNodes == old(viewNodes) && viewEdges == old(viewEdges)
    {
      var k := IndexOf(nodes, uri);
      if k >= 0 {
        node := nodes[k];
      } else {
        node := CreateNode(uri, labelText, visible, image, position);
      }
    }

    /** The creating branch of `find_or_create_node`: a new node, pushed. */
    method CreateNode(uri: string, labelText: string, visible: bool, image: Option<string>, position: GraphModel.Position)
      returns (node: Node)
      requires Valid() && IndexOf(nodes, uri) == -1
      modifies this
      ensures Valid() && fresh(node) && node.id == uri && nodes == old(nodes) + [node]
      ensures node.Fields() == Initial(labelText, visible, image, position)
      ensures Snapshot(nodes) == old(Snapshot(nodes)) + [NodeState(uri, node.Fields())]
      ensures edges == old(edges) && viewNodes == old(viewNodes) && viewEdges == old(viewEdges)
    {
      node := new Node(uri, labelText, visible, image, position);
      IndexOfSnoc(nodes, node);
      ghost var f := node.Fields();
      Append(node);
      assert node.Fields() == f;
    }

    /** `this.nodes.push(node)`. */
    method Append(node: Node)
      modifies this
      ensures nodes == old(nodes) + [node]
      ensures Snapshot(nodes) == old(Snapshot(nodes)) + [NodeState(node.id, node.Fields())]
      ensures edges == old(edges) && viewNodes == old(viewNodes) && viewEdges == old(viewEdges)
    {
      ghost var ss := Snapshot(nodes);
      nodes := nodes + [node];
      SnapshotAppended(nodes, ss);
    }

    /** Adds the edge unless one with the same predicate joins the same endpoints in either
        orientation; says whether it added one. */
    method CreateEdge(source: string, uri: string, target: string, name: string) returns (created: bool)
      requires Valid()
      modifies this
      ensures Valid()
      ensures created <==> !GraphModel.Connected(old(EdgesOf(edges)), source, uri, target)
      ensures EdgesOf(edges) == GraphModel.WithEdge(old(EdgesOf(edges)), source, uri, target, name)
      ensures old(edges) <= edges
      ensures nodes == old(nodes) && viewNodes == old(viewNodes) && viewEdges == old(viewEdges)
    {
      GraphModel.WithEdgeKeepsUnique(EdgesOf(edges), source, uri, target, name);
      if GraphModel.Connected(EdgesOf(edges), source, uri, target) {
        return false;
      }
      var edge := new Edge(source, uri, target, name);
      EdgesOfSnoc(edges, edge);
      edges := edges + [edge];
      return true;
    }

    /** One `create_edge` per relation binding, reading the four variables of each; a
        binding that lacks one throws, after the edges of the bindings before it. */
    method CreateRelationEdges(bs: seq<Binding>) returns (ok: bool)
      requires Valid()
      modifies this
      ensures Valid()
      ensures ok == Complete(bs)
      ensures EdgesOf(edges) == GraphModel.WithRelationEdges(old(EdgesOf(edges)), bs)
      ensures old(edges) <= edges
      ensures nodes == old(nodes) && viewNodes == old(viewNodes) && viewEdges == old(viewEdges)
    {
      var i := 0;
      while i < |bs|
        invariant 0 <= i <= |bs|
        invariant Valid() && old(edges) <= edges
        invariant nodes == old(nodes) && viewNodes == old(viewNodes) && viewEdges == old(viewEdges)
        invariant GraphModel.WithRelationEdges(EdgesOf(edges), bs[i..]) == GraphModel.WithRelationEdges(old(EdgesOf(edges)), bs)
        invariant forall k :: 0 <= k < i ==> RelationOf(bs[k]).Ok?
      {
        var rel := RelationOf(bs[i]);
        assert bs[i..][0] == bs[i] && bs[i..][1..] == bs[i + 1..];
        if rel.Err? {
          return false;
        }
        var _ := CreateEdge(rel.value.subject, rel.value.property, rel.value.objectValue, rel.value.propLabel);
        i := i + 1;
      }
      return true;
    }

    /** Moves `nodes[idx]` to `position` and shows it; no other node changes. */
    method PlaceNode(node: Node, position: GraphModel.Position, ghost idx: int)
      requires UniqueIds(nodes) && 0 <= idx < |nodes| && nodes[idx] == node
      modifies node
      ensures node.Fields() == old(node.Fields()).(x := position.x, y := position.y, visible := true)
      ensures Snapshot(nodes) == old(Snapshot(nodes))[idx := NodeState(node.id, node.Fields())]
    {
      ghost var ss := Snapshot(nodes);
      node.x := position.x;
      node.y := position.y;
      node.visible := true;
      SnapshotReplaced(nodes, ss, idx);
    }

    /** The node for fetched entry `d`, found or created and then placed. */
    method PlaceEntry(d: DraftApi.DataResult, position: GraphModel.Position, ghost ss: seq<NodeState>)
      requires Valid() && ss == Snapshot(nodes)
      modifies this, nodes
      ensures Valid() && old(nodes) <= nodes
      ensures forall k :: |old(nodes)| <= k < |nodes| ==> fresh(nodes[k])
      ensures Snapshot(nodes) == Put(ss, d.uri, Placed(StateOf(ss, d.uri), d.labelText, position))
      ensures edges == old(edges) && viewNodes == old(viewNodes) && viewEdges == old(viewEdges)
    {
      LookupSnapshot(nodes, d.uri);
      ghost var k := IndexOf(nodes, d.uri);
      var node := FindOrCreateNode(d.uri, d.labelText, true, None, position);
      ghost var idx := if k >= 0 then k else |ss|;
      ghost var g := node.Fields();
      assert g == Found(StateOf(ss, d.uri), d.labelText, position);
      assert Snapshot(nodes) == (if k >= 0 then ss else ss + [NodeState(d.uri, g)]);
      PlaceNode(node, position, idx);
      PutFound(ss, d.uri, g, Placed(StateOf(ss, d.uri), d.labelText, position));
    }

    /** The nodes and edges are those of `s`. */
    ghost predicate Mirrors(s: Loaded)
      reads this, nodes
    {
      Snapshot(nodes) == s.states && EdgesOf(edges) == s.edges
    }

    /** The view holds exactly the nodes and edges visible in the snapshot `ss`. */
    ghost predicate InStep(ss: seq<NodeState>)
      reads this
    {
      viewNodes == VisibleNodes(nodes, ss) && viewEdges == VisibleEdges(ss, edges)
    }

    /** One pass of the `load_data` loop, proved against `LoadStep`; the view is brought
        in step unless a relation binding threw. */
    method LoadEntry(subject: string, property: Property, d: DraftApi.DataResult, position: GraphModel.Position,
                     ghost s: Loaded)
      returns (ok: bool)
      requires Valid() && !s.failed && Mirrors(s)
      modifies this, nodes
      ensures Valid() && old(nodes) <= nodes
      ensures forall k :: |old(nodes)| <= k < |nodes| ==> fresh(nodes[k])
      ensures Mirrors(LoadStep(s, subject, property, d, position))
      ensures ok == !LoadStep(s, subject, property, d, position).failed
      ensures ok ==> InStep(LoadStep(s, subject, property, d, position).states)
    {
      ok := LoadEntryGraph(subject, property, d, position, s);
      if ok {
        UpdateData();
      }
    }

    /** The node and edge part of one pass of the `load_data` loop. */
    method LoadEntryGraph(subject: string, property: Property, d: DraftApi.DataResult, position: GraphModel.Position,
                          ghost s: Loaded)
      returns (ok: bool)
      requires Valid() && !s.failed && Mirrors(s)
      modifies this, nodes
      ensures Valid() && old(nodes) <= nodes
      ensures forall k :: |old(nodes)| <= k < |nodes| ==> fresh(nodes[k])
      ensures Mirrors(LoadStep(s, subject, property, d, position))
      ensures ok == !LoadStep(s, subject, property, d, position).failed
    {
      PlaceEntry(d, position, s.states);
      ghost var placed := Snapshot(nodes);
      if d.relations == [] {
        var _ := CreateEdge(subject, property.uri, d.uri, GraphModel.EdgeLabel(property));
        ok := true;
      } else {
        ok := CreateRelationEdges(d.relations);
      }
      assert Snapshot(nodes) == placed;
    }

    /** The loop of `load_data` over the fetched nodes `ds`, proved against `LoadAll`:
        it stops at the first pass that throws, and the view is in step after every
        pass that did not. */
    method LoadAllData(subject: string, property: Property, position: GraphModel.Position,
                       ds: seq<DraftApi.DataResult>)
      returns (ok: bool)
      requires Valid()
      modifies this, nodes
      ensures Valid() && old(nodes) <= nodes
      ensures var fin := LoadAll(Loaded(old(Snapshot(nodes)), old(EdgesOf(edges)), false), subject, property, ds, position);
        Snapshot(nodes) == fin.states && EdgesOf(edges) == fin.edges && ok == !fin.failed
      ensures ok && ds == [] ==> viewNodes == old(viewNodes) && viewEdges == old(viewEdges)
      ensures ok && ds != [] ==> viewNodes == VisibleNodes(nodes, Snapshot(nodes)) && viewEdges == VisibleEdges(Snapshot(nodes), edges)
    {
      ghost var init := Loaded(Snapshot(nodes), EdgesOf(edges), false);
      ghost var s := init;
      var i := 0;
      while i < |ds|
        invariant 0 <= i <= |ds|
        invariant Valid() && old(nodes) <= nodes
        invariant forall k :: |old(nodes)| <= k < |nodes| ==> fresh(nodes[k])
        invariant !s.failed && s == LoadAll(init, subject, property, ds[..i], position) && Mirrors(s)
        invariant i == 0 ==> viewNodes == old(viewNodes) && viewEdges == old(viewEdges)
        invariant i > 0 ==> InStep(s.states)
      {
        ghost var before := nodes;
        ok := LoadNext(subject, property, position, ds, i, init, s);
        forall k | |old(nodes)| <= k < |nodes| ensures fresh(nodes[k]) {
          if k < |before| {
            assert nodes[k] == before[k];
          }
        }
        s := LoadStep(s, subject, property, ds[i], position);
        if !ok {
          return;
        }
        i := i + 1;
      }
      assert ds[..i] == ds;
      ok := true;
    }

    /** The `i`-th pass of the `load_data` loop, with the loop's state `s` so far. */
    method LoadNext(subject: string, property: Property, position: GraphModel.Position,
                    ds: seq<DraftApi.DataResult>, i: nat, ghost init: Loaded, ghost s: Loaded)
      returns (ok: bool)
      requires i < |ds| && Valid() && !s.failed && s == LoadAll(init, subject, property, ds[..i], position) && Mirrors(s)
      modifies this, nodes
      ensures Valid() && old(nodes) <= nodes
      ensures forall k :: |old(nodes)| <= k < |nodes| ==> fresh(nodes[k])
      ensures var s2 := LoadStep(s, subject, property, ds[i], position);
        && s2 == LoadAll(init, subject, property, ds[..i + 1], position) && Mirrors(s2) && ok == !s2.failed
        && (ok ==> InStep(s2.states))
        && (!ok ==> LoadAll(init, subject, property, ds, position) == s2)
    {
      LoadAllStep(init, subject, property, ds, position, i);
      ok := LoadEntry(subject, property, ds[i], position, s);
      if !ok {
        LoadAllFrozen(init, subject, property, ds, position, i + 1);
      }
    }

    /** `load_data`: fetches the related nodes of `(subject, property)` through the draft
        client, then runs the loop over them. A failed fetch changes nothing; otherwise
        the nodes and edges are those of `LoadAll`, and the call throws exactly when a
        relation binding does. */
    method LoadData(subject: string, property: Property, position: GraphModel.Position, endpoint: Endpoint)
      returns (r: Result<()>)
      requires Valid()
      modifies this, nodes
      ensures Valid() && old(nodes) <= nodes
      ensures var data := DraftApi.DataOf(subject, property.uri, old(IdsOf(nodes)), endpoint);
        && (data.Err? ==> r == Err(data.message) && Snapshot(nodes) == old(Snapshot(nodes)) &&
                          edges == old(edges) && viewNodes == old(viewNodes) && viewEdges == old(viewEdges))
        && (data.Ok? ==>
              var fin := LoadAll(Loaded(old(Snapshot(nodes)), old(EdgesOf(edges)), false), subject, property, data.value, position);
              && Snapshot(nodes) == fin.states && EdgesOf(edges) == fin.edges
              && (r.Ok? <==> !fin.failed)
              && (r.Ok? && data.value != [] ==> viewNodes == VisibleNodes(nodes, Snapshot(nodes)) && viewEdges == VisibleEdges(Snapshot(nodes), edges)))
    {
      var data, rounds := DraftApi.FetchData(subject, property.uri, IdsOf(nodes), endpoint);
      if data.Err? {
        return Err(data.message);
      }
      var ok := LoadAllData(subject, property, position, data.value);
      r := if ok then Ok(()) else Err("TypeError: cannot read 'value' of undefined");
    }

    /** Shows the image at `url` on `nodes[idx]`; no other node changes. */
    method ImageNode(node: Node, url: string, ghost idx: int)
      requires UniqueIds(nodes) && 0 <= idx < |nodes| && nodes[idx] == node
      modifies node
      ensures node.Fields() == old(node.Fields()).(image := Some(url), shape := GraphModel.CircularImage)
      ensures Snapshot(nodes) == old(Snapshot(nodes))[idx := NodeState(node.id, node.Fields())]
    {
      ghost var ss := Snapshot(nodes);
      node.UpdateImage(url);
      SnapshotReplaced(nodes, ss, idx);
    }

    /** One image record: the node with its id, if any, shows the image and is updated in
        the view, which adds it when it is missing. */
    method ApplyImage(rec: ImageRecord, ghost cur: seq<NodeState>)
      requires Valid() && Snapshot(nodes) == cur
      modifies this, nodes
      ensures Valid() && nodes == old(nodes) && edges == old(edges) && viewEdges == old(viewEdges)
      ensures Snapshot(nodes) == ImageStep(cur, rec)
      ensures viewNodes == old(viewNodes) + NodesWithIds(nodes, {rec.uri})
    {
      LookupSnapshot(nodes, rec.uri);
      ImageStepAt(cur, rec);
      var k := IndexOf(nodes, rec.uri);
      if k >= 0 {
        var node := nodes[k];
        ImageNode(node, rec.image, k);
        assert NodesWithIds(nodes, {rec.uri}) == {node};
        viewNodes := viewNodes + {node};
      } else {
        assert NodesWithIds(nodes, {rec.uri}) == {};
      }
    }

    /** The continuation of `load_data` once `fetch_images` has yielded `images`: every
        node with a record shows its last image and is put in the view, whether it is
        visible or not. */
    method ApplyImages(images: seq<ImageRecord>)
      requires Valid()
      modifies this, nodes
      ensures Valid() && nodes == old(nodes) && edges == old(edges) && viewEdges == old(viewEdges)
      ensures Snapshot(nodes) == ImagesApplied(old(Snapshot(nodes)), images)
      ensures viewNodes == old(viewNodes) + NodesWithIds(nodes, RecordUris(images))
    {
      ghost var ss := Snapshot(nodes);
      ghost var cur := ss;
      ghost var v0 := viewNodes;
      ghost var ns := nodes;
      var i := 0;
      assert images[..0] == [];
      while i < |images|
        invariant 0 <= i <= |images|
        invariant Valid() && nodes == ns && edges == old(edges) && viewEdges == old(viewEdges)
        invariant Snapshot(nodes) == cur && cur == ImagesApplied(ss, images[..i])
        invariant viewNodes == v0 + NodesWithIds(ns, RecordUris(images[..i]))
      {
        ImagesAppliedStep(ss, images, i);
        NodesWithIdsStep(ns, images, i);
        ApplyImage(images[i], cur);
        cur := ImageStep(cur, images[i]);
        i := i + 1;
      }
      assert images[..i] == images;
    }

    /** Stores `ps` on `nodes[idx]` and marks it fetched; no other node changes. */
    method SetProperties(node: Node, ps: seq<Property>, ghost idx: int)
      requires UniqueIds(nodes) && 0 <= idx < |nodes| && nodes[idx] == node
      modifies node
      ensures node.Fields() == old(node.Fields()).(isFetched := true, properties := ps)
      ensures Snapshot(nodes) == old(Snapshot(nodes))[idx := NodeState(node.id, node.Fields())]
    {
      ghost var ss := Snapshot(nodes);
      node.isFetched := true;
      node.properties := ps;
      SnapshotReplaced(nodes, ss, idx);
    }

    /** After `fetch_properties` yields `fetched`: a non-empty list is stored on the node
        with id `uri` (created visible, labelled by its uri, when missing), which is marked
        fetched; an empty list changes nothing; a failed fetch propagates. */
    method LoadProperties(uri: string, fetched: Result<seq<Property>>, ghost ss: seq<NodeState>) returns (r: Result<()>)
      requires Valid() && Snapshot(nodes) == ss
      modifies this, nodes
      ensures Valid() && old(nodes) <= nodes
      ensures r.Ok? <==> fetched.Ok?
      ensures IndexOf(old(nodes), uri) >= 0 ==> nodes == old(nodes)
      ensures Snapshot(nodes) == if fetched.Ok? && fetched.value != []
                                 then Put(ss, uri, Found(StateOf(ss, uri), uri, Origin).(isFetched := true, properties := fetched.value))
                                 else ss
      ensures edges == old(edges) && viewNodes == old(viewNodes) && viewEdges == old(viewEdges)
    {
      if fetched.Err? {
        return Err(fetched.message);
      }
      if fetched.value != [] {
        LookupSnapshot(nodes, uri);
        ghost var k := IndexOf(nodes, uri);
        var node := FindOrCreateNode(uri, uri, true, None, Origin);
        ghost var g := node.Fields();
        assert g == Found(StateOf(ss, uri), uri, Origin);
        SetProperties(node, fetched.value, if k >= 0 then k else |ss|);
        PutFound(ss, uri, g, g.(isFetched := true, properties := fetched.value));
      }
      return Ok(());
    }

    /** Finds or creates the node with id `uri` (visible, empty label), and loads its
        properties only when they have not been fetched yet. */
    method GetProperties(uri: string, fetched: Result<seq<Property>>) returns (r: Result<Node>)
      requires Valid()
      modifies this, nodes
      ensures Valid() && old(nodes) <= nodes
      ensures r.Err? <==> !Found(StateOf(old(Snapshot(nodes)), uri), "", Origin).isFetched && fetched.Err?
      ensures Snapshot(nodes) == PropertiesAfter(old(Snapshot(nodes)), uri, fetched)
      ensures r.Ok? ==> r.value.id == uri && r.value == GetNode(uri)
      ensures edges == old(edges) && viewNodes == old(viewNodes) && viewEdges == old(viewEdges)
    {
      ghost var ss := Snapshot(nodes);
      ghost var g;
      var node;
      node, g := FindOnSnapshot(uri, ss);
      PropertiesAfterCases(ss, uri, fetched, g);
      r := LoadUnfetched(uri, node, fetched, Put(ss, uri, g), g);
    }

    /** The `find_or_create_node(uri, '', true)` of `get_properties`, on snapshots. */
    method FindOnSnapshot(uri: string, ghost ss: seq<NodeState>) returns (node: Node, ghost g: NodeFields)
      requires Valid() && Snapshot(nodes) == ss
      modifies this
      ensures Valid() && old(nodes) <= nodes && UniqueStates(ss)
      ensures forall k :: |old(nodes)| <= k < |nodes| ==> fresh(nodes[k])
      ensures node == GetNode(uri) && node.Fields() == g && g == Found(StateOf(ss, uri), "", Origin)
      ensures Snapshot(nodes) == Put(ss, uri, g)
      ensures edges == old(edges) && viewNodes == old(viewNodes) && viewEdges == old(viewEdges)
    {
      LookupSnapshot(nodes, uri);
      node := FindOrCreateNode(uri, "", true, None, Origin);
      g := node.Fields();
      FoundAgain(ss, uri, g, Err(""));
    }

    /** The second half of `get_properties`: `load_properties` for a listed node that has
        not been fetched, nothing for one that has. */
    method LoadUnfetched(uri: string, node: Node, fetched: Result<seq<Property>>, ghost ss: seq<NodeState>,
                         ghost g: NodeFields)
      returns (r: Result<Node>)
      requires Valid() && Snapshot(nodes) == ss && node == GetNode(uri) && node.Fields() == g
      modifies this, nodes
      ensures Valid() && old(nodes) <= nodes
      ensures r.Err? <==> !g.isFetched && fetched.Err?
      ensures Snapshot(nodes) == if !g.isFetched && fetched.Ok? && fetched.value != []
                                 then Put(ss, uri, Found(StateOf(ss, uri), uri, Origin).(isFetched := true, properties := fetched.value))
                                 else ss
      ensures r.Ok? ==> r.value == node && node == GetNode(uri)
      ensures edges == old(edges) && viewNodes == old(viewNodes) && viewEdges == old(viewEdges)
    {
      if !node.isFetched {
        var loaded := LoadProperties(uri, fetched, ss);
        if loaded.Err? {
          return Err(loaded.message);
        }
      }
      return Ok(node);
    }

    /** After `fetch_label` and `fetch_image`: finds or creates the visible node with that
        label and image; either failure propagates. */
    method Load(uri: string, labelText: Result<string>, image: Result<Option<string>>) returns (r: Result<Node>)
      requires Valid()
      modifies this
      ensures Valid()
      ensures r.Ok? <==> labelText.Ok? && image.Ok?
      ensures r.Err? ==> nodes == old(nodes)
      ensures r.Ok? ==> r.value == GetNode(uri) && (old(GetNode(uri)) != null ==> nodes == old(nodes))
      ensures r.Ok? && old(GetNode(uri)) == null ==>
                nodes == old(nodes) + [r.value] && r.value.Fields() == Initial(labelText.value, true, image.value, Origin)
      ensures edges == old(edges) && viewNodes == old(viewNodes) && viewEdges == old(viewEdges)
    {
      if labelText.Err? {
        return Err(labelText.message);
      }
      if image.Err? {
        return Err(image.message);
      }
      var node := FindOrCreateNode(uri, labelText.value, true, image.value, Origin);
      return Ok(node);
    }
  }
}
