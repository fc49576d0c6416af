/** The graph the explorer shows (src/api/graph.ts): a list of nodes deduplicated by id,
    a list of edges deduplicated by predicate and unordered endpoints, and a render view
    (two vis `DataSet`s) kept in step with the visible part of the graph.

    The render view is modelled by what identifies its items: the set of node ids and
    the set of (from, uri, to) keys of the edges it holds.  Results of SPARQL calls are
    inputs of the methods that await them. */
module GraphModel {
  import opened Common
  import opened Bindings
  import Sparql

  /** The vis-network node shapes the `Node` class admits. */
  datatype Shape = Dot | Image | Box | CircularImage | Database | Ellipse | Icon | Text | Triangle | TriangleDown

  /** A canvas position; the model copies positions and never computes with them. */
  datatype Position = Position(x: real, y: real)

  /** The default position `{ x: 0, y: 0 }`. */
  const Origin: Position := Position(0.0, 0.0)

  /** Every mutable field of a `Node` at one moment, so that "only `visible` changed"
      is one equation. */
  datatype NodeFields = NodeFields(labelText: string, visible: bool, isFetched: bool, fixed: bool,
                                   image: Option<string>, kind: TermType, x: real, y: real,
                                   properties: seq<Property>, color: Option<string>, shape: Shape)

  /** The image a node keeps for an optional url: `if (image)` skips a missing or empty one. */
  function ShownImage(image: Option<string>): Option<string>
  {
    if image.Some? && image.value != "" then image else None
  }

  /** The fields of a new node: unfetched, no properties, drawn as a dot unless an image
      is shown. */
  function Initial(labelText: string, kind: TermType, visible: bool, image: Option<string>,
                   position: Position, fixed: bool): NodeFields
  {
    var f := NodeFields(labelText, visible, false, fixed, None, kind, position.x, position.y, [], None, Dot);
    if ShownImage(image).Some? then Imaged(f, ShownImage(image)) else f
  }

  /** A node's fields after `update_image` with `img`, when there is one. */
  function Imaged(f: NodeFields, img: Option<string>): NodeFields
  {
    if img.Some? then f.(image := img, shape := CircularImage, color := Some("transparent")) else f
  }

  class Node {
    const id: string
    var labelText: string
    var visible: bool
    var isFetched: bool
    var fixed: bool
    var image: Option<string>
    var kind: TermType
    var x: real
    var y: real
    var properties: seq<Property>
    var color: Option<string>
    var shape: Shape

    function Fields(): NodeFields
      reads this
    {
      NodeFields(labelText, visible, isFetched, fixed, image, kind, x, y, properties, color, shape)
    }

    /** A node starts unfetched, with no properties, drawn as a dot; an image that is
        given and non-empty (JavaScript truthiness) is shown at once. */
    constructor(uri: string, labelText: string, kind: TermType, visible: bool, image: Option<string>,
                position: Position, fixed: bool)
      ensures id == uri
      ensures Fields() == Initial(labelText, kind, visible, image, position, fixed)
    {
      id := uri;
      this.labelText := labelText;
      this.visible := visible;
      isFetched := false;
      this.kind := kind;
      x := position.x;
      y := position.y;
      this.fixed := fixed;
      properties := [];
      this.image := None;
      color := None;
      shape := Dot;
      new;
      if image.Some? && image.value != "" {
        UpdateImage(image.value);
      }
    }

    method UpdateImage(url: string)
      modifies this
      ensures Fields() == old(Fields()).(image := Some(url), shape := CircularImage, color := Some("transparent"))
    {
      image := Some(url);
      shape := CircularImage;
      color := Some("transparent");
    }

    /** `node.is_fetched = true; node.properties = properties`. */
    method SetProperties(ps: seq<Property>)
      modifies this
      ensures Fields() == old(Fields()).(isFetched := true, properties := ps)
    {
      isFetched := true;
      properties := ps;
    }
  }

  /** What identifies an edge in the render view: `Edge.compare` looks at these three. */
  datatype EdgeKey = EdgeKey(from: string, uri: string, to: string)

  /** An edge from `from` to `to` labelled with predicate `uri`. */
  datatype Edge = Edge(from: string, uri: string, to: string, labelText: string)
  {
    function Key(): EdgeKey { EdgeKey(from, uri, to) }

    /** Same ordered endpoints and predicate; the label is ignored. */
    predicate Compare(other: Edge) { from == other.from && to == other.to && uri == other.uri }
  }

  lemma CompareIsKeyEquality(a: Edge, b: Edge)
    ensures a.Compare(b) <==> a.Key() == b.Key()
    ensures a.Compare(b) <==> b.Compare(a)
  {
  }

  // ---------------------------------------------------------------------------------
  // Nodes by id

  predicate UniqueIds(ns: seq<Node>)
  {
    forall i, j :: 0 <= i < j < |ns| ==> ns[i].id != ns[j].id
  }

  /** Position of the first node with id `uri` (`nodes.find`), or -1. */
  function IndexOf(ns: seq<Node>, uri: string): (r: int)
    ensures -1 <= r < |ns|
    ensures r == -1 <==> forall j :: 0 <= j < |ns| ==> ns[j].id != uri
    ensures r >= 0 ==> ns[r].id == uri && forall j :: 0 <= j < r ==> ns[j].id != uri
  {
    if ns == [] then -1
    else
      var r := IndexOf(ns[..|ns| - 1], uri);
      if r >= 0 then r
      else if ns[|ns| - 1].id == uri then |ns| - 1
      else -1
  }

  /** With unique ids, the node with a given id is found wherever it stands. */
  lemma IndexOfUnique(ns: seq<Node>, k: nat)
    requires UniqueIds(ns) && k < |ns|
    ensures IndexOf(ns, ns[k].id) == k
  {
  }

  /** Appending a node with a fresh id keeps the ids unique and finds it at the end. */
  lemma {:induction false} IndexOfSnoc(ns: seq<Node>, n: Node, uri: string)
    requires IndexOf(ns, n.id) == -1
    ensures UniqueIds(ns) ==> UniqueIds(ns + [n])
    ensures IndexOf(ns + [n], uri) == if IndexOf(ns, uri) >= 0 then IndexOf(ns, uri)
                                      else if n.id == uri then |ns| else -1
  {
    assert (ns + [n])[..|ns|] == ns;
  }

  // ---------------------------------------------------------------------------------
  // Edges

  /** `e` links `s` and `t` through `u`, in either orientation (the `create_edge` test). */
  predicate Joins(e: Edge, s: string, u: string, t: string)
  {
    (e.from == s && e.uri == u && e.to == t) || (e.to == s && e.uri == u && e.from == t)
  }

  predicate Connected(es: seq<Edge>, s: string, u: string, t: string)
  {
    exists k :: 0 <= k < |es| && Joins(es[k], s, u, t)
  }

  /** At most one edge per predicate and unordered pair of endpoints. */
  predicate UniqueEdges(es: seq<Edge>)
  {
    forall i, j :: 0 <= i < j < |es| ==> !Joins(es[j], es[i].from, es[i].uri, es[i].to)
  }

  /** The edge list after `create_edge(s, u, t, name)`. */
  function WithEdge(es: seq<Edge>, s: string, u: string, t: string, name: string): (r: seq<Edge>)
  {
    if Connected(es, s, u, t) then es else es + [Edge(s, u, t, name)]
  }

  /** After `create_edge`, `s` and `t` are joined through `u`, earlier edges are kept in
      place, and at most one edge was added. */
  lemma WithEdgeConnects(es: seq<Edge>, s: string, u: string, t: string, name: string)
    ensures Connected(WithEdge(es, s, u, t, name), s, u, t)
    ensures Connected(WithEdge(es, s, u, t, name), t, u, s)
    ensures es <= WithEdge(es, s, u, t, name) && |WithEdge(es, s, u, t, name)| <= |es| + 1
  {
    var r := WithEdge(es, s, u, t, name);
    if !Connected(es, s, u, t) {
      assert Joins(r[|es|], s, u, t);
    }
    var k :| 0 <= k < |r| && Joins(r[k], s, u, t);
    assert Joins(r[k], t, u, s);
  }

  /** `create_edge` keeps the edge list free of duplicates in either orientation. */
  lemma WithEdgeKeepsUnique(es: seq<Edge>, s: string, u: string, t: string, name: string)
    requires UniqueEdges(es)
    ensures UniqueEdges(WithEdge(es, s, u, t, name))
  {
    var r := WithEdge(es, s, u, t, name);
    if !Connected(es, s, u, t) {
      forall i, j | 0 <= i < j < |r|
        ensures !Joins(r[j], r[i].from, r[i].uri, r[i].to)
      {
        if j == |es| && Joins(r[j], r[i].from, r[i].uri, r[i].to) {
          assert Joins(es[i], s, u, t);
        }
      }
    }
  }

  /** Creating the same edge again, in either orientation and with any name, changes nothing. */
  lemma WithEdgeIdempotent(es: seq<Edge>, s: string, u: string, t: string, name: string, name2: string)
    ensures WithEdge(WithEdge(es, s, u, t, name), s, u, t, name2) == WithEdge(es, s, u, t, name)
    ensures WithEdge(WithEdge(es, s, u, t, name), t, u, s, name2) == WithEdge(es, s, u, t, name)
  {
    WithEdgeConnects(es, s, u, t, name);
  }

  /** The edge list after one `create_edge(s, u, t, name)` per target, in order. */
  function WithEdges(es: seq<Edge>, s: string, u: string, targets: seq<string>, name: string): (r: seq<Edge>)
    decreases |targets|
  {
    if targets == [] then es
    else WithEdge(WithEdges(es, s, u, targets[..|targets| - 1], name), s, u, targets[|targets| - 1], name)
  }

  /** Every target ends up joined to `s` through `u`, earlier edges stay in place, and no
      duplicate appears. */
  lemma {:induction false} WithEdgesConnects(es: seq<Edge>, s: string, u: string, targets: seq<string>, name: string)
    ensures forall k :: 0 <= k < |targets| ==> Connected(WithEdges(es, s, u, targets, name), s, u, targets[k])
    ensures es <= WithEdges(es, s, u, targets, name)
    ensures UniqueEdges(es) ==> UniqueEdges(WithEdges(es, s, u, targets, name))
    decreases |targets|
  {
    if targets != [] {
      var init := targets[..|targets| - 1];
      var prev := WithEdges(es, s, u, init, name);
      var t := targets[|targets| - 1];
      WithEdgesConnects(es, s, u, init, name);
      WithEdgeConnects(prev, s, u, t, name);
      if UniqueEdges(es) {
        WithEdgeKeepsUnique(prev, s, u, t, name);
      }
      forall k | 0 <= k < |targets|
        ensures Connected(WithEdges(es, s, u, targets, name), s, u, targets[k])
      {
        if k < |targets| - 1 {
          assert targets[k] == init[k];
          var m :| 0 <= m < |prev| && Joins(prev[m], s, u, targets[k]);
          assert WithEdge(prev, s, u, t, name)[m] == prev[m];
        }
      }
    }
  }

  lemma WithEdgesSnoc(es: seq<Edge>, s: string, u: string, targets: seq<string>, t: string, name: string)
    ensures WithEdges(es, s, u, targets + [t], name) == WithEdge(WithEdges(es, s, u, targets, name), s, u, t, name)
  {
    assert (targets + [t])[..|targets|] == targets;
  }

  // ---------------------------------------------------------------------------------
  // Visibility

  /** `ns[i]` has id `e.from`, a different node `ns[j]` has id `e.to`, both visible. */
  predicate VisibleVia(ns: seq<Node>, e: Edge, i: int, j: int)
    requires 0 <= i < |ns| && 0 <= j < |ns|
    reads ns
  {
    ns[i].id == e.from && ns[i].visible && ns[j] != ns[i] && ns[j].id == e.to && ns[j].visible
  }

  /** What `is_edge_visible` decides. */
  predicate EdgeVisible(ns: seq<Node>, e: Edge)
    reads ns
  {
    exists i, j :: 0 <= i < |ns| && 0 <= j < |ns| && VisibleVia(ns, e, i, j)
  }

  function VisibleIds(ns: seq<Node>): set<string>
    reads ns
  {
    set i | 0 <= i < |ns| && ns[i].visible :: ns[i].id
  }

  function VisibleEdgeKeys(ns: seq<Node>, es: seq<Edge>): set<EdgeKey>
    reads ns
  {
    set m | 0 <= m < |es| && EdgeVisible(ns, es[m]) :: es[m].Key()
  }

  /** With unique ids an edge is visible exactly when both endpoints are visible and
      differ; in particular a self-loop is never visible. */
  lemma EdgeVisibleIff(ns: seq<Node>, e: Edge)
    requires UniqueIds(ns)
    ensures EdgeVisible(ns, e) <==> e.from != e.to && e.from in VisibleIds(ns) && e.to in VisibleIds(ns)
  {
    if e.from != e.to && e.from in VisibleIds(ns) && e.to in VisibleIds(ns) {
      var i :| 0 <= i < |ns| && ns[i].visible && ns[i].id == e.from;
      var j :| 0 <= j < |ns| && ns[j].visible && ns[j].id == e.to;
      assert VisibleVia(ns, e, i, j);
    }
  }

  /** Adding the listed items and then removing the unlisted ones leaves exactly the list. */
  lemma Synced<T>(view: set<T>, listed: set<T>)
    ensures (view + listed) - ((view + listed) - listed) == listed
  {
  }

  /** A node as `load_nodes` creates it: a uri node at the origin, unlocked and unfetched,
      with the first matching label (else `''`), the requested visibility and the first
      matching image. */
  predicate LoadedAs(n: Node, labels: seq<LabelRecord>, images: seq<ImageRecord>, visible: bool)
    reads n
  {
    n.Fields() == Initial(LabelOf(labels, n.id), Uri, visible, ImageOf(images, n.id), Origin, false)
  }

  /** The label of the subject-property edges: `property.label ?? 'label'`. */
  function EdgeLabel(p: Property): string
  {
    if p.labelText.Some? then p.labelText.value else "label"
  }

  function UrisOf(ds: seq<Sparql.DataResult>): (r: seq<string>)
    ensures |r| == |ds| && forall k :: 0 <= k < |ds| ==> r[k] == ds[k].uri
  {
    seq(|ds|, k requires 0 <= k < |ds| => ds[k].uri)
  }

  lemma UrisOfLast(ds: seq<Sparql.DataResult>)
    requires ds != []
    ensures UrisOf(ds) == UrisOf(ds[..|ds| - 1]) + [ds[|ds| - 1].uri]
  {
  }

  /** The edge list after one `create_edge` per relation binding, in order; a binding that
      lacks one of the four variables throws, so the edges before it are all there is. */
  function WithRelationEdges(es: seq<Edge>, bs: seq<Binding>): seq<Edge>
    decreases |bs|
  {
    if bs == [] then es
    else
      match RelationOf(bs[0])
      case Err(_) => es
      case Ok(rel) => WithRelationEdges(WithEdge(es, rel.subject, rel.property, rel.objectValue, rel.propLabel), bs[1..])
  }

  /** Relation edges keep the edge list free of duplicates and keep every earlier edge. */
  lemma {:induction false} WithRelationEdgesKeeps(es: seq<Edge>, bs: seq<Binding>)
    ensures UniqueEdges(es) ==> UniqueEdges(WithRelationEdges(es, bs))
    ensures es <= WithRelationEdges(es, bs)
    decreases |bs|
  {
    if bs != [] {
      match RelationOf(bs[0])
      case Err(_) =>
      case Ok(rel) =>
        var next := WithEdge(es, rel.subject, rel.property, rel.objectValue, rel.propLabel);
        WithEdgeConnects(es, rel.subject, rel.property, rel.objectValue, rel.propLabel);
        if UniqueEdges(es) {
          WithEdgeKeepsUnique(es, rel.subject, rel.property, rel.objectValue, rel.propLabel);
        }
        WithRelationEdgesKeeps(next, bs[1..]);
    }
  }

  /** When every binding is complete, each relation ends up joining its subject and
      object through its property. */
  lemma {:induction false} WithRelationEdgesMeaning(es: seq<Edge>, bs: seq<Binding>)
    requires MapAll(RelationOf, bs).Ok?
    ensures forall k :: 0 <= k < |bs| ==>
              Connected(WithRelationEdges(es, bs), bs[k]["subject"].value, bs[k]["property"].value, bs[k]["object"].value)
    decreases |bs|
  {
    if bs != [] {
      var rel := RelationOf(bs[0]).value;
      var next := WithEdge(es, rel.subject, rel.property, rel.objectValue, rel.propLabel);
      WithEdgeConnects(es, rel.subject, rel.property, rel.objectValue, rel.propLabel);
      RelationsTail(bs);
      WithRelationEdgesKeeps(next, bs[1..]);
      WithRelationEdgesMeaning(next, bs[1..]);
      var fin := WithRelationEdges(es, bs);
      assert fin == WithRelationEdges(next, bs[1..]);
      ConnectedGrows(next, fin, rel.subject, rel.property, rel.objectValue);
      forall k | 1 <= k < |bs|
        ensures Connected(fin, bs[k]["subject"].value, bs[k]["property"].value, bs[k]["object"].value)
      {
        assert bs[1..][k - 1] == bs[k];
      }
    }
  }

  /** An edge list that extends one joining `s` and `t` through `u` joins them too. */
  lemma ConnectedGrows(a: seq<Edge>, b: seq<Edge>, s: string, u: string, t: string)
    requires a <= b && Connected(a, s, u, t)
    ensures Connected(b, s, u, t)
  {
    var m :| 0 <= m < |a| && Joins(a[m], s, u, t);
    assert b[m] == a[m];
  }

  /** When every relation binding is complete, so is every one after the first. */
  lemma RelationsTail(bs: seq<Binding>)
    requires bs != [] && MapAll(RelationOf, bs).Ok?
    ensures MapAll(RelationOf, bs[1..]).Ok?
  {
    forall k | 0 <= k < |bs[1..]| ensures RelationOf(bs[1..][k]).Ok? {
      assert bs[1..][k] == bs[k + 1];
    }
  }

  function IdsOf(ns: seq<Node>): (r: seq<string>)
    ensures |r| == |ns| && forall k :: 0 <= k < |ns| ==> r[k] == ns[k].id
  {
    if ns == [] then [] else [ns[0].id] + IdsOf(ns[1..])
  }

  function Pushed(ns: seq<Node>, n: Node): (r: seq<Node>)
    ensures IdsOf(r) == IdsOf(ns) + [n.id]
  {
    var r := ns + [n];
    assert IdsOf(r) == IdsOf(ns) + [n.id];
    r
  }

  lemma StillIn(xs: seq<Node>, a: seq<Node>, b: seq<Node>)
    requires a <= b && forall k :: 0 <= k < |xs| ==> xs[k] in a
    ensures forall k :: 0 <= k < |xs| ==> xs[k] in b
  {
    forall k | 0 <= k < |xs|
      ensures xs[k] in b
    {
      var j :| 0 <= j < |a| && a[j] == xs[k];
      assert b[j] == xs[k];
    }
  }

  lemma IdsOfAppend(a: seq<Node>, b: seq<Node>)
    ensures IdsOf(a + b) == IdsOf(a) + IdsOf(b)
  {
    assert IdsOf(a + b) == IdsOf(a) + IdsOf(b);
  }

  /** The image the last record for `uri` carries, if any: each record overwrites the
      previous one. */
  function LastImageOf(images: seq<ImageRecord>, uri: string): (r: Option<string>)
    ensures r.Some? <==> exists k :: 0 <= k < |images| && images[k].uri == uri
    ensures r.Some? ==> exists k :: 0 <= k < |images| && images[k].uri == uri && r.value == images[k].image &&
                                    forall j :: k < j < |images| ==> images[j].uri != uri
  {
    if images == [] then None
    else if images[|images| - 1].uri == uri then Some(images[|images| - 1].image)
    else
      var r := LastImageOf(images[..|images| - 1], uri);
      assert forall k :: 0 <= k < |images| - 1 ==> images[..|images| - 1][k] == images[k];
      r
  }

  // ---------------------------------------------------------------------------------
  // Node snapshots: the value of every node, for stating what a merge does

  /** A node's id and fields at one moment. */
  datatype NodeState = NodeState(id: string, fields: NodeFields)

  function Snapshot(ns: seq<Node>): (r: seq<NodeState>)
    reads ns
    ensures |r| == |ns| && forall k :: 0 <= k < |ns| ==> r[k] == NodeState(ns[k].id, ns[k].Fields())
  {
    seq(|ns|, k requires 0 <= k < |ns| reads ns => NodeState(ns[k].id, ns[k].Fields()))
  }

  predicate UniqueStates(ss: seq<NodeState>)
  {
    forall i, j :: 0 <= i < j < |ss| ==> ss[i].id != ss[j].id
  }

  /** `IndexOf` on snapshots. */
  function Lookup(ss: seq<NodeState>, uri: string): (r: int)
    ensures -1 <= r < |ss|
    ensures r == -1 <==> forall j :: 0 <= j < |ss| ==> ss[j].id != uri
    ensures r >= 0 ==> ss[r].id == uri && forall j :: 0 <= j < r ==> ss[j].id != uri
  {
    if ss == [] then -1
    else
      var r := Lookup(ss[..|ss| - 1], uri);
      if r >= 0 then r
      else if ss[|ss| - 1].id == uri then |ss| - 1
      else -1
  }

  lemma LookupSnapshot(ns: seq<Node>, uri: string)
    ensures Lookup(Snapshot(ns), uri) == IndexOf(ns, uri)
    ensures UniqueIds(ns) <==> UniqueStates(Snapshot(ns))
  {
  }

  /** The snapshot of `ns` whose node `k` is the only one that differs from `ss`. */
  lemma SnapshotReplaced(ns: seq<Node>, ss: seq<NodeState>, k: int)
    requires 0 <= k < |ns| == |ss|
    requires forall j :: 0 <= j < |ns| && j != k ==> ss[j] == NodeState(ns[j].id, ns[j].Fields())
    ensures Snapshot(ns) == ss[k := NodeState(ns[k].id, ns[k].Fields())]
  {
  }

  /** The snapshot of `ns` that extends `ss` by its last node. */
  lemma SnapshotAppended(ns: seq<Node>, ss: seq<NodeState>)
    requires |ns| == |ss| + 1
    requires forall j :: 0 <= j < |ss| ==> ss[j] == NodeState(ns[j].id, ns[j].Fields())
    ensures Snapshot(ns) == ss + [NodeState(ns[|ss|].id, ns[|ss|].Fields())]
  {
  }

  /** The fields of the node with id `uri`, if there is one. */
  function StateOf(ss: seq<NodeState>, uri: string): Option<NodeFields>
  {
    var k := Lookup(ss, uri);
    if k < 0 then None else Some(ss[k].fields)
  }

  /** The snapshot after giving the node with id `uri` the fields `f`, appending it when
      there is none. */
  function Put(ss: seq<NodeState>, uri: string, f: NodeFields): seq<NodeState>
  {
    var k := Lookup(ss, uri);
    if k < 0 then ss + [NodeState(uri, f)] else ss[k := NodeState(uri, f)]
  }

  /** `Put` keeps ids unique and appends only for an id that is not there yet. */
  lemma PutShape(ss: seq<NodeState>, uri: string, f: NodeFields)
    requires UniqueStates(ss)
    ensures UniqueStates(Put(ss, uri, f))
    ensures |Put(ss, uri, f)| == |ss| + (if StateOf(ss, uri).None? then 1 else 0)
    ensures forall k :: 0 <= k < |ss| ==> Put(ss, uri, f)[k].id == ss[k].id
  {
  }

  /** `Put` gives the node with id `uri` the fields `f` and changes no other node. */
  lemma PutAt(ss: seq<NodeState>, uri: string, f: NodeFields, u: string)
    requires UniqueStates(ss)
    ensures StateOf(Put(ss, uri, f), u) == if u == uri then Some(f) else StateOf(ss, u)
  {
    var r := Put(ss, uri, f);
    var k := Lookup(ss, u);
    var kk := Lookup(ss, uri);
    if kk < 0 {
      assert r == ss + [NodeState(uri, f)];
      if u == uri {
        LookupFirst(r, u, |ss|);
      } else if k >= 0 {
        LookupFirst(r, u, k);
      } else {
        assert forall j :: 0 <= j < |r| ==> r[j].id != u;
      }
    } else {
      assert r == ss[kk := NodeState(uri, f)];
      assert forall j :: 0 <= j < |ss| ==> r[j].id == ss[j].id;
      if u == uri {
        LookupFirst(r, u, kk);
      } else if k >= 0 {
        LookupFirst(r, u, k);
      } else {
        assert forall j :: 0 <= j < |r| ==> r[j].id != u;
      }
    }
  }

  /** `Lookup` finds the first position with the id. */
  lemma LookupFirst(ss: seq<NodeState>, uri: string, k: int)
    requires 0 <= k < |ss| && ss[k].id == uri && forall j :: 0 <= j < k ==> ss[j].id != uri
    ensures Lookup(ss, uri) == k
  {
  }

  /** `Put` on the snapshot where `find_or_create_node` has found or appended the node
      with fields `g`, replacing them by `f`. */
  lemma PutFound(ss: seq<NodeState>, uri: string, g: NodeFields, f: NodeFields)
    ensures var k := Lookup(ss, uri);
      var created := if k >= 0 then ss else ss + [NodeState(uri, g)];
      var idx := if k >= 0 then k else |ss|;
      Put(ss, uri, f) == created[idx := NodeState(uri, f)]
  {
  }

  /** A second `Put` for the same id overrides the first. */
  lemma PutTwice(ss: seq<NodeState>, uri: string, f: NodeFields, g: NodeFields)
    ensures Put(Put(ss, uri, f), uri, g) == Put(ss, uri, g)
  {
    var k := Lookup(ss, uri);
    if k < 0 {
      LookupFirst(ss + [NodeState(uri, f)], uri, |ss|);
    } else {
      var t := ss[k := NodeState(uri, f)];
      assert forall j :: 0 <= j < k ==> t[j] == ss[j];
      LookupFirst(t, uri, k);
    }
  }

  // ---------------------------------------------------------------------------------
  // What `load_properties` and `get_properties` do, on values

  /** The fields of the node `find_or_create_node(uri, labelText)` yields with every other
      argument left at its default: the existing node's, or a new hidden uri node at the
      origin, unlocked, with no image. */
  function Defaulted(before: Option<NodeFields>, labelText: string): NodeFields
  {
    if before.Some? then before.value else Initial(labelText, Uri, false, None, Origin, false)
  }

  /** The snapshot `load_properties` leaves: a non-empty list is stored on the node with
      id `uri`, found or created with the uri as label, and marks it fetched; an empty or
      failed fetch changes nothing. */
  function PropertiesLoaded(ss: seq<NodeState>, uri: string, fetched: Result<seq<Property>>): seq<NodeState>
  {
    if fetched.Ok? && fetched.value != []
    then Put(ss, uri, Defaulted(StateOf(ss, uri), uri).(isFetched := true, properties := fetched.value))
    else ss
  }

  /** The snapshot `get_properties` leaves: the node with id `uri` found or created with
      an empty label, and given the fetched properties when it had none fetched and the
      list is not empty. */
  function PropertiesAfter(ss: seq<NodeState>, uri: string, fetched: Result<seq<Property>>): seq<NodeState>
  {
    var g := Defaulted(StateOf(ss, uri), "");
    Put(ss, uri, if !g.isFetched && fetched.Ok? && fetched.value != [] then g.(isFetched := true, properties := fetched.value) else g)
  }

  /** `get_properties` on values: after `find_or_create_node` has left the snapshot at
      `Put(ss, uri, g)`, the node `load_properties` finds again is the one with fields `g`
      (keeping its empty label), and its update overrides the first `Put`. */
  lemma FoundAgain(ss: seq<NodeState>, uri: string, g: NodeFields, fetched: Result<seq<Property>>)
    requires UniqueStates(ss) && g == Defaulted(StateOf(ss, uri), "")
    ensures var k := Lookup(ss, uri);
      Put(ss, uri, g) == if k >= 0 then ss else ss + [NodeState(uri, g)]
    ensures UniqueStates(Put(ss, uri, g)) && StateOf(Put(ss, uri, g), uri) == Some(g)
    ensures fetched.Ok? && fetched.value != [] ==>
              PropertiesLoaded(Put(ss, uri, g), uri, fetched) == Put(ss, uri, g.(isFetched := true, properties := fetched.value))
  {
    var k := Lookup(ss, uri);
    if k >= 0 {
      assert ss[k := NodeState(uri, g)] == ss;
    }
    PutShape(ss, uri, g);
    PutAt(ss, uri, g, uri);
    if fetched.Ok? && fetched.value != [] {
      PutTwice(ss, uri, g, g.(isFetched := true, properties := fetched.value));
    }
  }

  /** `PropertiesAfter` in the two steps `get_properties` takes: `find_or_create_node`,
      then `load_properties` on the node it found when that node is not fetched. */
  lemma PropertiesAfterCases(ss: seq<NodeState>, uri: string, fetched: Result<seq<Property>>, g: NodeFields)
    requires UniqueStates(ss) && g == Defaulted(StateOf(ss, uri), "")
    ensures PropertiesAfter(ss, uri, fetched) ==
              if !g.isFetched then PropertiesLoaded(Put(ss, uri, g), uri, fetched) else Put(ss, uri, g)
  {
    FoundAgain(ss, uri, g, fetched);
  }

  /** Whether the loop reports the node for an entry as new: it was hidden, or it is
      created hidden. */
  predicate ReportedNew(before: Option<NodeFields>, visible: bool)
  {
    if before.Some? then !before.value.visible else !visible
  }

  /** The fields of the node `find_or_create_node` yields for entry `d`: the existing
      node's, or a new node's at `position` with `d`'s label and type and no image. */
  function Found(before: Option<NodeFields>, d: Sparql.DataResult, visible: bool, position: Position): NodeFields
  {
    if before.Some? then before.value else Initial(d.labelText, d.kind, visible, None, position, false)
  }

  /** A hidden node is moved to `position` and given visibility `visible`; a visible one
      is left as it is. */
  function Revealed(f: NodeFields, visible: bool, position: Position): NodeFields
  {
    if f.visible then f else f.(x := position.x, y := position.y, visible := visible)
  }

  /** The fields of the node for entry `d` after one pass of the loop. */
  function Merged(before: Option<NodeFields>, d: Sparql.DataResult, visible: bool, position: Position): NodeFields
  {
    Revealed(Found(before, d, visible, position), visible, position)
  }

  /** A node reported new ends with visibility `visible` at `position`. */
  predicate NewlyShown(f: Option<NodeFields>, visible: bool, position: Position)
  {
    f.Some? && f.value.visible == visible && f.value.x == position.x && f.value.y == position.y
  }

  /** A node reported as already there ends visible. */
  predicate Shown(f: Option<NodeFields>)
  {
    f.Some? && f.value.visible
  }

  /** A pass leaves a visible node as it is.  A hidden node, or a missing one when
      `visible` is false, is reported new and ends with visibility `visible` at
      `position`; every other node ends visible (a missing one is created visible). */
  lemma MergedMeaning(before: Option<NodeFields>, d: Sparql.DataResult, visible: bool, position: Position)
    ensures var after := Merged(before, d, visible, position);
      && after.visible == (visible || Shown(before))
      && (Shown(before) ==> after == before.value)
      && (ReportedNew(before, visible) ==> NewlyShown(Some(after), visible, position))
      && (!ReportedNew(before, visible) ==> Shown(Some(after)))
      && (NewlyShown(before, visible, position) ==> NewlyShown(Some(after), visible, position))
  {
  }

  /** A fetched node exists afterwards, and is visible when the entries were loaded visible. */
  predicate Fetched(f: Option<NodeFields>, visible: bool)
  {
    f.Some? && (visible ==> f.value.visible)
  }

  /** What the `load_related_nodes` loop has built so far: the nodes, the edges, and the
      ids it reported as new and as already there. */
  datatype Merge = Merge(states: seq<NodeState>, edges: seq<Edge>, newIds: seq<string>, existingIds: seq<string>)

  /** One pass of the loop for the fetched entry `d`. */
  function MergeStep(m: Merge, subject: string, property: Property, visible: bool, position: Position,
                     d: Sparql.DataResult): Merge
  {
    var before := StateOf(m.states, d.uri);
    var states := Put(m.states, d.uri, Merged(before, d, visible, position));
    var edges := WithEdge(m.edges, subject, property.uri, d.uri, EdgeLabel(property));
    if ReportedNew(before, visible) then Merge(states, edges, m.newIds + [d.uri], m.existingIds)
    else Merge(states, edges, m.newIds, m.existingIds + [d.uri])
  }

  lemma MergeAllStep(m: Merge, subject: string, property: Property, visible: bool, position: Position,
                     ds: seq<Sparql.DataResult>, i: nat)
    requires i < |ds|
    ensures MergeAll(m, subject, property, visible, position, ds[..i + 1])
         == MergeStep(MergeAll(m, subject, property, visible, position, ds[..i]), subject, property, visible, position, ds[i])
  {
    assert ds[..i + 1][..i] == ds[..i];
  }

  /** One pass changes only the node for the entry, to `Merged`, and keeps ids unique. */
  lemma MergeStepAt(m: Merge, subject: string, property: Property, visible: bool, position: Position,
                    d: Sparql.DataResult, u: string)
    requires UniqueStates(m.states)
    ensures var r := MergeStep(m, subject, property, visible, position, d);
      && UniqueStates(r.states)
      && |m.states| <= |r.states| && (forall k :: 0 <= k < |m.states| ==> r.states[k].id == m.states[k].id)
      && StateOf(r.states, u) == if u == d.uri then Some(Merged(StateOf(m.states, u), d, visible, position))
                                 else StateOf(m.states, u)
  {
    var f := Merged(StateOf(m.states, d.uri), d, visible, position);
    PutShape(m.states, d.uri, f);
    PutAt(m.states, d.uri, f, u);
  }

  /** One pass reports the entry's uri in exactly one of the two lists. */
  lemma MergeStepReports(m: Merge, subject: string, property: Property, visible: bool, position: Position,
                         d: Sparql.DataResult)
    ensures var r := MergeStep(m, subject, property, visible, position, d);
      if ReportedNew(StateOf(m.states, d.uri), visible)
      then r.newIds == m.newIds + [d.uri] && r.existingIds == m.existingIds
      else r.newIds == m.newIds && r.existingIds == m.existingIds + [d.uri]
  {
  }

  function MergeAll(m: Merge, subject: string, property: Property, visible: bool, position: Position,
                    ds: seq<Sparql.DataResult>): Merge
    decreases |ds|
  {
    if ds == [] then m
    else MergeStep(MergeAll(m, subject, property, visible, position, ds[..|ds| - 1]),
                   subject, property, visible, position, ds[|ds| - 1])
  }

  lemma MergeAllSnoc(m: Merge, subject: string, property: Property, visible: bool, position: Position,
                     ds: seq<Sparql.DataResult>, d: Sparql.DataResult)
    ensures MergeAll(m, subject, property, visible, position, ds + [d])
         == MergeStep(MergeAll(m, subject, property, visible, position, ds), subject, property, visible, position, d)
  {
    assert (ds + [d])[..|ds|] == ds;
  }

  /** The loop keeps ids unique, only appends nodes, and leaves every node whose id was
      not fetched as it was. */
  lemma {:induction false} MergeAllUntouched(m: Merge, subject: string, property: Property, visible: bool,
                                             position: Position, ds: seq<Sparql.DataResult>)
    requires UniqueStates(m.states)
    ensures var r := MergeAll(m, subject, property, visible, position, ds);
      && UniqueStates(r.states) && |m.states| <= |r.states|
      && (forall k :: 0 <= k < |m.states| ==> r.states[k].id == m.states[k].id)
      && forall u :: u !in UrisOf(ds) ==> StateOf(r.states, u) == StateOf(m.states, u)
    decreases |ds|
  {
    if ds != [] {
      var init := ds[..|ds| - 1];
      var d := ds[|ds| - 1];
      var p := MergeAll(m, subject, property, visible, position, init);
      MergeAllUntouched(m, subject, property, visible, position, init);
      MergeStepAt(p, subject, property, visible, position, d, d.uri);
      UrisOfLast(ds);
      forall u | u !in UrisOf(ds)
        ensures StateOf(MergeAll(m, subject, property, visible, position, ds).states, u) == StateOf(m.states, u)
      {
        MergeStepAt(p, subject, property, visible, position, d, u);
      }
    }
  }

  /** Every fetched uri has a node afterwards; with `visible` set all of them are visible. */
  lemma {:induction false} MergeAllFetched(m: Merge, subject: string, property: Property, visible: bool,
                                           position: Position, ds: seq<Sparql.DataResult>, u: string)
    requires UniqueStates(m.states)
    requires u in UrisOf(ds)
    ensures Fetched(StateOf(MergeAll(m, subject, property, visible, position, ds).states, u), visible)
    decreases |ds|
  {
    var init := ds[..|ds| - 1];
    var d := ds[|ds| - 1];
    UrisOfLast(ds);
    var p := MergeAll(m, subject, property, visible, position, init);
    MergeAllUntouched(m, subject, property, visible, position, init);
    MergeStepAt(p, subject, property, visible, position, d, u);
    if u == d.uri {
      MergedMeaning(StateOf(p.states, u), d, visible, position);
    } else {
      MergeAllFetched(m, subject, property, visible, position, init, u);
    }
  }

  /** A node the loop creates is exactly what the constructor builds from a fetched
      entry about it. */
  lemma {:induction false} MergeAllCreated(m: Merge, subject: string, property: Property, visible: bool,
                                           position: Position, ds: seq<Sparql.DataResult>, u: string)
    requires UniqueStates(m.states)
    requires StateOf(m.states, u).None? && StateOf(MergeAll(m, subject, property, visible, position, ds).states, u).Some?
    ensures exists j :: 0 <= j < |ds| && ds[j].uri == u &&
              StateOf(MergeAll(m, subject, property, visible, position, ds).states, u).value ==
                Initial(ds[j].labelText, ds[j].kind, visible, None, position, false)
    decreases |ds|
  {
    var init := ds[..|ds| - 1];
    var d := ds[|ds| - 1];
    var p := MergeAll(m, subject, property, visible, position, init);
    var after := StateOf(MergeAll(m, subject, property, visible, position, ds).states, u);
    assert MergeAll(m, subject, property, visible, position, ds) == MergeStep(p, subject, property, visible, position, d);
    MergeAllUntouched(m, subject, property, visible, position, init);
    MergeStepAt(p, subject, property, visible, position, d, u);
    var mid := StateOf(p.states, u);
    if mid.Some? {
      MergeAllCreated(m, subject, property, visible, position, init, u);
      var j :| 0 <= j < |init| && init[j].uri == u &&
               mid.value == Initial(init[j].labelText, init[j].kind, visible, None, position, false);
      MergeAllChanges(m, subject, property, visible, position, init, u);
      assert ds[j] == init[j];
      assert after.value == Initial(ds[j].labelText, ds[j].kind, visible, None, position, false);
    } else {
      assert u == d.uri;
      assert after.value == Initial(ds[|ds| - 1].labelText, ds[|ds| - 1].kind, visible, None, position, false);
    }
  }

  /** The nodes the loop visits: an existing node changes at most its visibility and
      position, and only when it was hidden; without `visible` no node becomes visible. */
  lemma {:induction false} MergeAllChanges(m: Merge, subject: string, property: Property, visible: bool,
                                           position: Position, ds: seq<Sparql.DataResult>, u: string)
    requires UniqueStates(m.states)
    ensures var before, after := StateOf(m.states, u), StateOf(MergeAll(m, subject, property, visible, position, ds).states, u);
      && (before.Some? ==> after.Some? && after.value == before.value.(visible := after.value.visible,
                                                                     x := after.value.x, y := after.value.y))
      && (before.Some? && before.value.visible ==> after == before)
      && (!visible && after.Some? && after.value.visible ==> after == before)
    decreases |ds|
  {
    if ds != [] {
      var init := ds[..|ds| - 1];
      var d := ds[|ds| - 1];
      var p := MergeAll(m, subject, property, visible, position, init);
      assert MergeAll(m, subject, property, visible, position, ds) == MergeStep(p, subject, property, visible, position, d);
      MergeAllChanges(m, subject, property, visible, position, init, u);
      MergeAllUntouched(m, subject, property, visible, position, init);
      MergeStepAt(p, subject, property, visible, position, d, u);
    }
  }

  /** Reporting `u` in one of two lists adds it to what they report together. */
  lemma ReportedOnce(before: seq<string>, news: seq<string>, existing: seq<string>,
                     news2: seq<string>, existing2: seq<string>, reported: seq<string>, u: string)
    requires multiset(news) + multiset(existing) == multiset(before) + multiset(reported)
    requires (news2 == news + [u] && existing2 == existing) || (news2 == news && existing2 == existing + [u])
    ensures multiset(news2) + multiset(existing2) == multiset(before) + multiset(reported + [u])
  {
    assert multiset(reported + [u]) == multiset(reported) + multiset{u};
    assert multiset(news2) + multiset(existing2) == multiset(news) + multiset(existing) + multiset{u};
  }

  /** The loop only appends to the two lists it reports. */
  lemma {:induction false} MergeAllGrows(m: Merge, subject: string, property: Property, visible: bool,
                                         position: Position, ds: seq<Sparql.DataResult>)
    ensures var r := MergeAll(m, subject, property, visible, position, ds);
      m.newIds <= r.newIds && m.existingIds <= r.existingIds
    decreases |ds|
  {
    if ds != [] {
      var init := ds[..|ds| - 1];
      MergeAllGrows(m, subject, property, visible, position, init);
      MergeStepReports(MergeAll(m, subject, property, visible, position, init), subject, property, visible,
                       position, ds[|ds| - 1]);
    }
  }

  /** What the loop reports: each fetched entry once, as new or as already there. */
  lemma {:induction false} MergeAllReports(m: Merge, subject: string, property: Property, visible: bool,
                                           position: Position, ds: seq<Sparql.DataResult>)
    ensures var r := MergeAll(m, subject, property, visible, position, ds);
      multiset(r.newIds) + multiset(r.existingIds) == multiset(m.newIds + m.existingIds) + multiset(UrisOf(ds))
    decreases |ds|
  {
    if ds != [] {
      var init := ds[..|ds| - 1];
      var d := ds[|ds| - 1];
      var p := MergeAll(m, subject, property, visible, position, init);
      var r := MergeStep(p, subject, property, visible, position, d);
      MergeAllReports(m, subject, property, visible, position, init);
      MergeStepReports(p, subject, property, visible, position, d);
      UrisOfLast(ds);
      ReportedOnce(m.newIds + m.existingIds, p.newIds, p.existingIds, r.newIds, r.existingIds,
                   UrisOf(init), d.uri);
    }
  }

  /** A node reported new ends with visibility `visible` at `position`, and one reported as
      already there ends visible. */
  lemma {:induction false} MergeAllReported(m: Merge, subject: string, property: Property, visible: bool,
                                            position: Position, ds: seq<Sparql.DataResult>)
    requires UniqueStates(m.states)
    ensures var r := MergeAll(m, subject, property, visible, position, ds);
      && (forall j :: |m.newIds| <= j < |r.newIds| ==> NewlyShown(StateOf(r.states, r.newIds[j]), visible, position))
      && (forall j :: |m.existingIds| <= j < |r.existingIds| ==> Shown(StateOf(r.states, r.existingIds[j])))
    decreases |ds|
  {
    if ds != [] {
      var init := ds[..|ds| - 1];
      var d := ds[|ds| - 1];
      var p := MergeAll(m, subject, property, visible, position, init);
      var r := MergeAll(m, subject, property, visible, position, ds);
      assert r == MergeStep(p, subject, property, visible, position, d);
      MergeAllReported(m, subject, property, visible, position, init);
      MergeAllUntouched(m, subject, property, visible, position, init);
      MergedMeaning(StateOf(p.states, d.uri), d, visible, position);
      forall j | |m.newIds| <= j < |r.newIds|
        ensures NewlyShown(StateOf(r.states, r.newIds[j]), visible, position)
      {
        MergeStepAt(p, subject, property, visible, position, d, r.newIds[j]);
        if j < |p.newIds| {
          assert r.newIds[j] == p.newIds[j];
        }
      }
      forall j | |m.existingIds| <= j < |r.existingIds|
        ensures Shown(StateOf(r.states, r.existingIds[j]))
      {
        MergeStepAt(p, subject, property, visible, position, d, r.existingIds[j]);
        if j < |p.existingIds| {
          assert r.existingIds[j] == p.existingIds[j];
        }
      }
    }
  }

  /** With `visible` set (the default), a pass creates a missing node already visible, so
      the `!node.visible` test fails for it: when no fetched uri names a hidden node,
      nothing is reported new and every entry is reported as already there.  The
      follow-up relation and image queries, which use the new nodes' ids, then ask for
      no node at all. */
  lemma {:induction false} MergeAllVisibleNothingNew(m: Merge, subject: string, property: Property,
                                                     position: Position, ds: seq<Sparql.DataResult>)
    requires UniqueStates(m.states)
    requires forall k :: 0 <= k < |ds| ==> !ReportedNew(StateOf(m.states, ds[k].uri), true)
    ensures var r := MergeAll(m, subject, property, true, position, ds);
      r.newIds == m.newIds && r.existingIds == m.existingIds + UrisOf(ds)
    decreases |ds|
  {
    if ds != [] {
      var init := ds[..|ds| - 1];
      var d := ds[|ds| - 1];
      var p := MergeAll(m, subject, property, true, position, init);
      assert MergeAll(m, subject, property, true, position, ds) == MergeStep(p, subject, property, true, position, d);
      forall k | 0 <= k < |init| ensures !ReportedNew(StateOf(m.states, init[k].uri), true) {
        assert init[k] == ds[k];
      }
      MergeAllVisibleNothingNew(m, subject, property, position, init);
      if d.uri in UrisOf(init) {
        MergeAllFetched(m, subject, property, true, position, init, d.uri);
      } else {
        MergeAllUntouched(m, subject, property, true, position, init);
        assert StateOf(p.states, d.uri) == StateOf(m.states, ds[|ds| - 1].uri);
      }
      assert !ReportedNew(StateOf(p.states, d.uri), true);
      MergeStepReports(p, subject, property, true, position, d);
      UrisOfLast(ds);
    }
  }

  /** The edges after the loop: one `create_edge(subject, property, uri)` per fetched entry. */
  lemma {:induction false} MergeAllEdges(m: Merge, subject: string, property: Property, visible: bool,
                                         position: Position, ds: seq<Sparql.DataResult>)
    ensures MergeAll(m, subject, property, visible, position, ds).edges
         == WithEdges(m.edges, subject, property.uri, UrisOf(ds), EdgeLabel(property))
    decreases |ds|
  {
    if ds != [] {
      var init := ds[..|ds| - 1];
      MergeAllEdges(m, subject, property, visible, position, init);
      assert UrisOf(ds)[..|ds| - 1] == UrisOf(init);
    }
  }

  // ---------------------------------------------------------------------------------
  // The `fetch_image` continuation of `load_related_nodes`

  /** One image record: the node with that id, if any, gets the image. */
  function ImageStep(ss: seq<NodeState>, rec: ImageRecord): seq<NodeState>
  {
    match StateOf(ss, rec.uri)
    case None => ss
    case Some(f) => Put(ss, rec.uri, Imaged(f, Some(rec.image)))
  }

  /** The snapshot after applying the image records in order. */
  function ImagesApplied(ss: seq<NodeState>, images: seq<ImageRecord>): seq<NodeState>
    decreases |images|
  {
    if images == [] then ss else ImageStep(ImagesApplied(ss, images[..|images| - 1]), images[|images| - 1])
  }

  /** The ids whose node is in the view and got an image: `data.nodes.update` for each. */
  function ShownImageIds(ss: seq<NodeState>, images: seq<ImageRecord>): set<string>
    decreases |images|
  {
    if images == [] then {}
    else
      var u := images[|images| - 1].uri;
      ShownImageIds(ss, images[..|images| - 1]) + if Shown(StateOf(ss, u)) then {u} else {}
  }

  /** Applying the records keeps the ids and their order; a node ends with the image of
      the last record for its id (the shape and colour of an imaged node), and a node
      without a record, or a record without a node, changes nothing. */
  lemma {:induction false} ImagesAppliedAt(ss: seq<NodeState>, images: seq<ImageRecord>, u: string)
    requires UniqueStates(ss)
    ensures var r := ImagesApplied(ss, images);
      && UniqueStates(r) && |r| == |ss| && (forall k :: 0 <= k < |ss| ==> r[k].id == ss[k].id)
      && StateOf(r, u) == match StateOf(ss, u)
                          case None => None
                          case Some(f) => Some(Imaged(f, LastImageOf(images, u)))
    decreases |images|
  {
    if images != [] {
      var init := images[..|images| - 1];
      var rec := images[|images| - 1];
      var p := ImagesApplied(ss, init);
      ImagesAppliedAt(ss, init, u);
      ImagesAppliedAt(ss, init, rec.uri);
      match StateOf(p, rec.uri)
      case None =>
      case Some(f) =>
        PutShape(p, rec.uri, Imaged(f, Some(rec.image)));
        PutAt(p, rec.uri, Imaged(f, Some(rec.image)), u);
    }
  }

  /** An id is updated in the view exactly when some record names it and its node is
      visible. */
  lemma {:induction false} ShownImageIdsMeaning(ss: seq<NodeState>, images: seq<ImageRecord>, u: string)
    ensures u in ShownImageIds(ss, images) <==>
              Shown(StateOf(ss, u)) && exists k :: 0 <= k < |images| && images[k].uri == u
    decreases |images|
  {
    if images != [] {
      var init := images[..|images| - 1];
      ShownImageIdsMeaning(ss, init, u);
      if exists k :: 0 <= k < |images| && images[k].uri == u {
        var k :| 0 <= k < |images| && images[k].uri == u;
        if k < |init| {
          assert init[k].uri == u;
        }
      }
      if exists k :: 0 <= k < |init| && init[k].uri == u {
        var k :| 0 <= k < |init| && init[k].uri == u;
        assert images[k].uri == u;
      }
    }
  }

  // ---------------------------------------------------------------------------------
  // The graph

  class Graph {
    var nodes: seq<Node>
    var edges: seq<Edge>
    /** Ids of the nodes in the render view's node `DataSet`. */
    var viewNodes: set<string>
    /** Keys of the edges in the render view's edge `DataSet`. */
    var viewEdges: set<EdgeKey>
    /** Whether `set_network` has attached a network. */
    var hasNetwork: bool
    /** How often `network.stabilize()` has been requested. */
    ghost var stabilizations: nat

    /** Node ids are unique and no two edges join the same endpoints through one predicate. */
    predicate Valid()
      reads this
    {
      UniqueIds(nodes) && UniqueEdges(edges)
    }

    /** An empty graph with an empty view; there is no network yet, so nothing is stabilised. */
    constructor(animations: bool)
      ensures Valid()
      ensures nodes == [] && edges == [] && viewNodes == {} && viewEdges == {}
      ensures !hasNetwork && stabilizations == 0
    {
      nodes := [];
      edges := [];
      viewNodes := {};
      viewEdges := {};
      hasNetwork := false;
      stabilizations := 0;
      new;
      UpdateData(true, animations);
    }

    method SetNetwork()
      modifies this
      ensures hasNetwork
      ensures nodes == old(nodes) && edges == old(edges) && viewNodes == old(viewNodes)
      ensures viewEdges == old(viewEdges) && stabilizations == old(stabilizations)
    {
      hasNetwork := true;
    }

    /** The nested search of `is_edge_visible`. */
    method IsEdgeVisible(e: Edge) returns (b: bool)
      ensures b == EdgeVisible(nodes, e)
    {
      var i := 0;
      while i < |nodes|
        invariant 0 <= i <= |nodes|
        invariant forall a, c :: 0 <= a < i && 0 <= c < |nodes| ==> !VisibleVia(nodes, e, a, c)
      {
        if nodes[i].id == e.from && nodes[i].visible {
          var j := 0;
          while j < |nodes|
            invariant 0 <= j <= |nodes|
            invariant forall c :: 0 <= c < j ==> !VisibleVia(nodes, e, i, c)
          {
            if nodes[j] != nodes[i] && nodes[j].id == e.to && nodes[j].visible {
              assert VisibleVia(nodes, e, i, j);
              return true;
            }
            j := j + 1;
          }
        }
        i := i + 1;
      }
      return false;
    }

    /** `this.nodes.filter((node) => node.visible)`, by id. */
    method FilterVisibleNodes() returns (ids: set<string>)
      ensures ids == VisibleIds(nodes)
    {
      ids := {};
      var i := 0;
      while i < |nodes|
        invariant 0 <= i <= |nodes|
        invariant ids == set k | 0 <= k < i && nodes[k].visible :: nodes[k].id
      {
        if nodes[i].visible {
          ids := ids + {nodes[i].id};
        }
        i := i + 1;
      }
    }

    /** `this.edges.filter((edge) => this.is_edge_visible(edge))`, by key. */
    method FilterVisibleEdges() returns (keys: set<EdgeKey>)
      ensures keys == VisibleEdgeKeys(nodes, edges)
    {
      keys := {};
      var m := 0;
      while m < |edges|
        invariant 0 <= m <= |edges|
        invariant keys == set k | 0 <= k < m && EdgeVisible(nodes, edges[k]) :: edges[k].Key()
      {
        var b := IsEdgeVisible(edges[m]);
        if b {
          keys := keys + {edges[m].Key()};
        }
        m := m + 1;
      }
    }

    /** Adds every listed item missing from the view (a duplicate `add` throws and is
        ignored), then removes every item that is not listed. */
    method SyncView(ids: set<string>, keys: set<EdgeKey>)
      modifies this
      ensures viewNodes == ids && viewEdges == keys
      ensures nodes == old(nodes) && edges == old(edges)
      ensures hasNetwork == old(hasNetwork) && stabilizations == old(stabilizations)
    {
      viewNodes := viewNodes + ids;
      viewEdges := viewEdges + keys;
      Synced(viewNodes, ids);
      Synced(viewEdges, keys);
      viewNodes := viewNodes - (viewNodes - ids);
      viewEdges := viewEdges - (viewEdges - keys);
    }

    /** Brings the view in step with the graph: afterwards it holds exactly the visible
        nodes and the visible edges.  A network is stabilised when animations are off and
        `visible` is set. */
    method UpdateData(visible: bool, animations: bool)
      modifies this
      ensures nodes == old(nodes) && edges == old(edges) && hasNetwork == old(hasNetwork)
      ensures viewNodes == VisibleIds(nodes)
      ensures viewEdges == VisibleEdgeKeys(nodes, edges)
      ensures stabilizations == old(stabilizations) + (if !animations && visible && hasNetwork then 1 else 0)
    {
      var ids := FilterVisibleNodes();
      var keys := FilterVisibleEdges();
      SyncView(ids, keys);
      if !animations && visible && hasNetwork {
        stabilizations := stabilizations + 1;
      }
    }

    /** `nodes.find((node) => node.id == uri)`. */
    function GetNode(uri: string): (r: Node?)
      reads this
      ensures r == null <==> forall k :: 0 <= k < |nodes| ==> nodes[k].id != uri
      ensures r != null ==> r in nodes && r.id == uri
    {
      var k := IndexOf(nodes, uri);
      if k < 0 then null else nodes[k]
    }

    /** Returns the node with id `uri` when there is one, untouched (no label merging);
        otherwise appends exactly one new node built from the arguments. */
    method FindOrCreateNode(uri: string, labelText: string, kind: TermType, visible: bool,
                            image: Option<string>, position: Position)
      returns (node: Node)
      requires Valid()
      modifies this
      ensures Valid()
      ensures node.id == uri && node == GetNode(uri)
      ensures old(GetNode(uri)) != null ==> node == old(GetNode(uri)) && nodes == old(nodes)
      ensures old(GetNode(uri)) == null ==>
                fresh(node) && nodes == old(nodes) + [node] && node.Fields() == Initial(labelText, kind, visible, image, position, false)
      ensures old(GetNode(uri)) != null ==> Snapshot(nodes) == old(Snapshot(nodes))
      ensures old(GetNode(uri)) == null ==> Snapshot(nodes) == old(Snapshot(nodes)) + [NodeState(uri, node.Fields())]
      ensures edges == old(edges) && viewNodes == old(viewNodes) && viewEdges == old(viewEdges)
      ensures hasNetwork == old(hasNetwork) && stabilizations == old(stabilizations)
    {
      var k := IndexOf(nodes, uri);
      if k >= 0 {
        node := nodes[k];
      } else {
        node := CreateNode(uri, labelText, kind, visible, image, position);
      }
    }

    /** The creating branch of `find_or_create_node`: a new node, pushed. */
    method CreateNode(uri: string, labelText: string, kind: TermType, visible: bool, image: Option<string>,
                      position: Position)
      returns (node: Node)
      requires Valid() && IndexOf(nodes, uri) == -1
      modifies this
      ensures Valid() && fresh(node) && node.id == uri && nodes == old(nodes) + [node]
      ensures node.Fields() == Initial(labelText, kind, visible, image, position, false)
      ensures Snapshot(nodes) == old(Snapshot(nodes)) + [NodeState(uri, node.Fields())]
      ensures edges == old(edges) && viewNodes == old(viewNodes) && viewEdges == old(viewEdges)
      ensures hasNetwork == old(hasNetwork) && stabilizations == old(stabilizations)
    {
      node := new Node(uri, labelText, kind, visible, image, position, false);
      IndexOfSnoc(nodes, node, uri);
      ghost var f := node.Fields();
      Append(node);
      assert node.Fields() == f;
    }

    /** `this.nodes.push(node)`. */
    method Append(node: Node)
      modifies this
      ensures nodes == old(nodes) + [node]
      ensures Snapshot(nodes) == old(Snapshot(nodes)) + [NodeState(node.id, node.Fields())]
      ensures edges == old(edges) && viewNodes == old(viewNodes) && viewEdges == old(viewEdges)
      ensures hasNetwork == old(hasNetwork) && stabilizations == old(stabilizations)
    {
      ghost var ss := Snapshot(nodes);
      nodes := nodes + [node];
      SnapshotAppended(nodes, ss);
    }

    /** `data.nodes.update(node)`: moves the node if a position is given, and puts it in the
        view (vis-data adds an item that is missing). */
    method UpdateNode(node: Node, position: Option<Position>)
      modifies this, node
      ensures node.Fields() == if position.Some? then old(node.Fields()).(x := position.value.x, y := position.value.y)
                               else old(node.Fields())
      ensures viewNodes == old(viewNodes) + {node.id}
      ensures nodes == old(nodes) && edges == old(edges) && viewEdges == old(viewEdges)
      ensures hasNetwork == old(hasNetwork) && stabilizations == old(stabilizations)
    {
      if position.Some? {
        node.x := position.value.x;
        node.y := position.value.y;
      }
      viewNodes := viewNodes + {node.id};
    }

    method HideNode(node: Node, animations: bool)
      modifies this, node
      ensures node.Fields() == old(node.Fields()).(visible := false)
      ensures nodes == old(nodes) && edges == old(edges)
      ensures viewNodes == VisibleIds(nodes) && viewEdges == VisibleEdgeKeys(nodes, edges)
      ensures node.id !in viewNodes || exists k :: 0 <= k < |nodes| && nodes[k] != node && nodes[k].id == node.id
      ensures hasNetwork == old(hasNetwork) && stabilizations == old(stabilizations) + (if !animations && hasNetwork then 1 else 0)
    {
      node.visible := false;
      UpdateData(true, animations);
    }

    method ShowNode(node: Node, animations: bool)
      modifies this, node
      ensures node.Fields() == old(node.Fields()).(visible := true)
      ensures nodes == old(nodes) && edges == old(edges)
      ensures viewNodes == VisibleIds(nodes) && viewEdges == VisibleEdgeKeys(nodes, edges)
      ensures node in nodes ==> node.id in viewNodes
      ensures hasNetwork == old(hasNetwork) && stabilizations == old(stabilizations) + (if !animations && hasNetwork then 1 else 0)
    {
      node.visible := true;
      UpdateData(true, animations);
    }

    method ShowNodes(ns: seq<Node>, animations: bool)
      modifies this, ns
      ensures forall n :: n in ns ==> n.Fields() == old(n.Fields()).(visible := true)
      ensures nodes == old(nodes) && edges == old(edges)
      ensures viewNodes == VisibleIds(nodes) && viewEdges == VisibleEdgeKeys(nodes, edges)
      ensures hasNetwork == old(hasNetwork) && stabilizations == old(stabilizations) + (if !animations && hasNetwork then 1 else 0)
    {
      var k := 0;
      while k < |ns|
        invariant 0 <= k <= |ns|
        invariant forall n :: n in ns[..k] ==> n.Fields() == old(n.Fields()).(visible := true)
        invariant forall n :: n in ns && n !in ns[..k] ==> n.Fields() == old(n.Fields())
        invariant nodes == old(nodes) && edges == old(edges)
        modifies ns
      {
        ns[k].visible := true;
        assert ns[..k + 1] == ns[..k] + [ns[k]];
        k := k + 1;
      }
      assert ns[..k] == ns;
      UpdateData(true, animations);
    }

    method ToggleNodeLock(node: Node, position: Position)
      modifies this, node
      ensures node.Fields() == old(node.Fields()).(fixed := !old(node.fixed), x := position.x, y := position.y)
      ensures viewNodes == old(viewNodes) + {node.id}
      ensures nodes == old(nodes) && edges == old(edges) && viewEdges == old(viewEdges)
      ensures hasNetwork == old(hasNetwork) && stabilizations == old(stabilizations)
    {
      node.fixed := !node.fixed;
      UpdateNode(node, Some(position));
    }

    /** Adds the edge unless one with the same predicate joins the same endpoints in either
        orientation; says whether it added one. */
    method CreateEdge(source: string, uri: string, target: string, name: string) returns (created: bool)
      requires Valid()
      modifies this
      ensures Valid()
      ensures created <==> !Connected(old(edges), source, uri, target)
      ensures edges == WithEdge(old(edges), source, uri, target, name)
      ensures nodes == old(nodes) && viewNodes == old(viewNodes) && viewEdges == old(viewEdges)
      ensures hasNetwork == old(hasNetwork) && stabilizations == old(stabilizations)
    {
      WithEdgeKeepsUnique(edges, source, uri, target, name);
      if Connected(edges, source, uri, target) {
        return false;
      }
      edges := edges + [Edge(source, uri, target, name)];
      return true;
    }

    /** Stores `ps` on `nodes[idx]` and marks it fetched; no other node changes. */
    method SetNodeProperties(node: Node, ps: seq<Property>, ghost idx: int)
      requires UniqueIds(nodes) && 0 <= idx < |nodes| && nodes[idx] == node
      modifies node
      ensures node.Fields() == old(node.Fields()).(isFetched := true, properties := ps)
      ensures Snapshot(nodes) == old(Snapshot(nodes))[idx := NodeState(node.id, node.Fields())]
    {
      ghost var ss := Snapshot(nodes);
      node.SetProperties(ps);
      SnapshotReplaced(nodes, ss, idx);
    }

    /** After `fetch_properties` yields `fetched`: a non-empty list is stored on the node
        with id `uri` (created hidden at the origin with the uri as label when missing),
        which is marked fetched; an empty list changes nothing; a failed fetch propagates
        and changes nothing. */
    method LoadProperties(uri: string, fetched: Result<seq<Property>>) returns (r: Result<()>)
      requires Valid()
      modifies this, nodes
      ensures Valid()
      ensures r.Ok? <==> fetched.Ok?
      ensures Snapshot(nodes) == PropertiesLoaded(old(Snapshot(nodes)), uri, fetched)
      ensures edges == old(edges) && viewNodes == old(viewNodes) && viewEdges == old(viewEdges)
      ensures hasNetwork == old(hasNetwork) && stabilizations == old(stabilizations)
      ensures fetched.Err? || fetched.value == [] ==>
                nodes == old(nodes) && forall n :: n in nodes ==> n.Fields() == old(n.Fields())
      ensures fetched.Ok? && fetched.value != [] ==>
                && GetNode(uri) != null
                && (old(GetNode(uri)) != null ==>
                      nodes == old(nodes) &&
                      GetNode(uri).Fields() == old(GetNode(uri).Fields()).(isFetched := true, properties := fetched.value))
                && (old(GetNode(uri)) == null ==>
                      nodes == old(nodes) + [GetNode(uri)] &&
                      GetNode(uri).Fields() == Initial(uri, Uri, false, None, Origin, false).(isFetched := true, properties := fetched.value))
                && forall n :: n in old(nodes) && n.id != uri ==> n.Fields() == old(n.Fields())
    {
      if fetched.Err? {
        return Err(fetched.message);
      }
      if fetched.value != [] {
        ghost var ss := Snapshot(nodes);
        LookupSnapshot(nodes, uri);
        ghost var k := IndexOf(nodes, uri);
        var node := FindOrCreateNode(uri, uri, Uri, false, None, Origin);
        ghost var g := node.Fields();
        assert g == Defaulted(StateOf(ss, uri), uri);
        SetNodeProperties(node, fetched.value, if k >= 0 then k else |ss|);
        PutFound(ss, uri, g, g.(isFetched := true, properties := fetched.value));
      }
      return Ok(());
    }

    /** Finds or creates the node with id `uri` (hidden, empty label, at the origin), and
        loads its properties only when they have not been fetched yet. */
    method GetProperties(uri: string, fetched: Result<seq<Property>>) returns (r: Result<Node>)
      requires Valid()
      modifies this, nodes
      ensures Valid() && old(nodes) <= nodes && |nodes| <= |old(nodes)| + 1
      ensures r.Err? <==> !Defaulted(StateOf(old(Snapshot(nodes)), uri), "").isFetched && fetched.Err?
      ensures Snapshot(nodes) == PropertiesAfter(old(Snapshot(nodes)), uri, fetched)
      ensures r.Ok? ==> r.value.id == uri && r.value == GetNode(uri)
      ensures edges == old(edges) && viewNodes == old(viewNodes) && viewEdges == old(viewEdges)
      ensures hasNetwork == old(hasNetwork) && stabilizations == old(stabilizations)
    {
      ghost var ss := Snapshot(nodes);
      ghost var g;
      var node;
      node, g := FindOnSnapshot(uri, ss);
      PropertiesAfterCases(ss, uri, fetched, g);
      r := LoadUnfetched(uri, node, fetched, Put(ss, uri, g), g);
    }

    /** The `find_or_create_node(uri, '')` of `get_properties`, on snapshots. */
    method FindOnSnapshot(uri: string, ghost ss: seq<NodeState>) returns (node: Node, ghost g: NodeFields)
      requires Valid() && Snapshot(nodes) == ss
      modifies this
      ensures Valid() && old(nodes) <= nodes && |nodes| <= |old(nodes)| + 1 && UniqueStates(ss)
      ensures forall k :: |old(nodes)| <= k < |nodes| ==> fresh(nodes[k])
      ensures node == GetNode(uri) && node.Fields() == g && g == Defaulted(StateOf(ss, uri), "")
      ensures Snapshot(nodes) == Put(ss, uri, g)
      ensures edges == old(edges) && viewNodes == old(viewNodes) && viewEdges == old(viewEdges)
      ensures hasNetwork == old(hasNetwork) && stabilizations == old(stabilizations)
    {
      LookupSnapshot(nodes, uri);
      ghost var before := nodes;
      ghost var absent := GetNode(uri) == null;
      node := FindOrCreateNode(uri, "", Uri, false, None, Origin);
      g := node.Fields();
      FoundAgain(ss, uri, g, Err(""));
      forall j | |before| <= j < |nodes| ensures fresh(nodes[j]) {
        assert absent && nodes == before + [node];
      }
    }

    /** The second half of `get_properties`: `load_properties` for a node that has not
        been fetched, nothing for one that has. */
    method LoadUnfetched(uri: string, node: Node, fetched: Result<seq<Property>>, ghost ss: seq<NodeState>,
                         ghost g: NodeFields)
      returns (r: Result<Node>)
      requires Valid() && Snapshot(nodes) == ss && node == GetNode(uri) && node.Fields() == g
      modifies this, nodes
      ensures Valid() && nodes == old(nodes)
      ensures r.Err? <==> !g.isFetched && fetched.Err?
      ensures Snapshot(nodes) == if !g.isFetched then PropertiesLoaded(ss, uri, fetched) else ss
      ensures r.Ok? ==> r.value == node && node == GetNode(uri)
      ensures edges == old(edges) && viewNodes == old(viewNodes) && viewEdges == old(viewEdges)
      ensures hasNetwork == old(hasNetwork) && stabilizations == old(stabilizations)
    {
      if !node.isFetched {
        var loaded := LoadProperties(uri, fetched);
        if loaded.Err? {
          return Err(loaded.message);
        }
      }
      return Ok(node);
    }

    /** After `fetch_label` and (when images are enabled) `fetch_image`: finds or creates
        the node with that label and image; either failure propagates. */
    method LoadNode(uri: string, labelText: Result<string>, image: Result<Option<string>>,
                    fetchImage: bool, visible: bool)
      returns (r: Result<Node>)
      requires Valid()
      modifies this
      ensures Valid()
      ensures r.Ok? <==> labelText.Ok? && (fetchImage ==> image.Ok?)
      ensures r.Err? ==> nodes == old(nodes)
      ensures r.Ok? ==> r.value == GetNode(uri) && (old(GetNode(uri)) != null ==> nodes == old(nodes))
      ensures r.Ok? && old(GetNode(uri)) == null ==>
                && nodes == old(nodes) + [r.value]
                && r.value.Fields() == Initial(labelText.value, Uri, visible, if fetchImage then image.value else None, Origin, false)
      ensures edges == old(edges) && viewNodes == old(viewNodes) && viewEdges == old(viewEdges)
      ensures hasNetwork == old(hasNetwork) && stabilizations == old(stabilizations)
    {
      if labelText.Err? {
        return Err(labelText.message);
      }
      var img: Option<string> := None;
      if fetchImage {
        if image.Err? {
          return Err(image.message);
        }
        img := image.value;
      }
      var node := FindOrCreateNode(uri, labelText.value, Uri, visible, img, Origin);
      return Ok(node);
    }

    /** One step of the `load_nodes` loop: the node for `uri`, found or created from the
        fetched records. */
    method LoadFromRecords(uri: string, labels: seq<LabelRecord>, images: seq<ImageRecord>, visible: bool)
      returns (node: Node)
      requires Valid()
      modifies this
      ensures Valid() && old(nodes) <= nodes && |nodes| <= |old(nodes)| + 1
      ensures node in nodes && node.id == uri
      ensures forall k :: |old(nodes)| <= k < |nodes| ==> nodes[k] == node && LoadedAs(node, labels, images, visible)
      ensures edges == old(edges) && viewNodes == old(viewNodes) && viewEdges == old(viewEdges)
      ensures hasNetwork == old(hasNetwork) && stabilizations == old(stabilizations)
    {
      node := FindOrCreateNode(uri, LabelOf(labels, uri), Uri, visible, ImageOf(images, uri), Origin);
    }

    /** After `fetch_labels` and (when images are enabled) `fetch_images`: one node per
        uri, in order, found or created with the first matching label (else `''`) and the
        first matching image. */
    method LoadNodes(uris: seq<string>, labels: Result<seq<LabelRecord>>, images: Result<seq<ImageRecord>>,
                     fetchImage: bool, visible: bool)
      returns (r: Result<seq<Node>>)
      requires Valid()
      modifies this
      ensures Valid()
      ensures r.Ok? <==> labels.Ok? && (fetchImage ==> images.Ok?)
      ensures r.Err? ==> nodes == old(nodes)
      ensures r.Ok? ==> |r.value| == |uris| && forall k :: 0 <= k < |uris| ==> r.value[k] in nodes && r.value[k].id == uris[k]
      ensures old(nodes) <= nodes
      ensures forall k :: |old(nodes)| <= k < |nodes| ==> nodes[k].id in uris
      ensures r.Ok? ==> AddedFrom(|old(nodes)|, uris, labels.value, if fetchImage then images.value else [], visible)
      ensures edges == old(edges) && viewNodes == old(viewNodes) && viewEdges == old(viewEdges)
      ensures hasNetwork == old(hasNetwork) && stabilizations == old(stabilizations)
    {
      if labels.Err? {
        return Err(labels.message);
      }
      var imgs: seq<ImageRecord> := [];
      if fetchImage {
        if images.Err? {
          return Err(images.message);
        }
        imgs := images.value;
      }
      var found := LoadAllRecords(uris, labels.value, imgs, visible);
      r := Ok(found);
    }

    /** The `uris.map(...)` of `load_nodes`: `LoadFromRecords` for each uri, in order. */
    method LoadAllRecords(uris: seq<string>, labels: seq<LabelRecord>, images: seq<ImageRecord>, visible: bool)
      returns (found: seq<Node>)
      requires Valid()
      modifies this
      ensures Valid() && old(nodes) <= nodes
      ensures |found| == |uris| && forall k :: 0 <= k < |uris| ==> found[k] in nodes && found[k].id == uris[k]
      ensures AddedFrom(|old(nodes)|, uris, labels, images, visible)
      ensures edges == old(edges) && viewNodes == old(viewNodes) && viewEdges == old(viewEdges)
      ensures hasNetwork == old(hasNetwork) && stabilizations == old(stabilizations)
    {
      found := [];
      for i := 0 to |uris|
        invariant |found| == i && Valid() && old(nodes) <= nodes
        invariant forall k :: 0 <= k < i ==> found[k] in nodes && found[k].id == uris[k]
        invariant AddedFrom(|old(nodes)|, uris, labels, images, visible)
        invariant edges == old(edges) && viewNodes == old(viewNodes) && viewEdges == old(viewEdges)
        invariant hasNetwork == old(hasNetwork) && stabilizations == old(stabilizations)
      {
        ghost var before := nodes;
        var node := LoadRecordsAdding(uris, i, labels, images, visible, |old(nodes)|);
        StillIn(found, before, nodes);
        found := found + [node];
      }
    }

    /** The nodes from position `base` on carry ids of `uris` and were created from the
        records. */
    ghost predicate AddedFrom(base: nat, uris: seq<string>, labels: seq<LabelRecord>, images: seq<ImageRecord>, visible: bool)
      reads this, nodes
    {
      forall k :: base <= k < |nodes| ==> nodes[k].id in uris && LoadedAs(nodes[k], labels, images, visible)
    }

    /** `LoadFromRecords` for `uris[i]`, keeping `AddedFrom`. */
    method LoadRecordsAdding(uris: seq<string>, i: nat, labels: seq<LabelRecord>, images: seq<ImageRecord>, visible: bool,
                             ghost base: nat)
      returns (node: Node)
      requires Valid() && i < |uris| && base <= |nodes| && AddedFrom(base, uris, labels, images, visible)
      modifies this
      ensures Valid() && old(nodes) <= nodes && AddedFrom(base, uris, labels, images, visible)
      ensures node in nodes && node.id == uris[i]
      ensures edges == old(edges) && viewNodes == old(viewNodes) && viewEdges == old(viewEdges)
      ensures hasNetwork == old(hasNetwork) && stabilizations == old(stabilizations)
    {
      ghost var before := nodes;
      node := LoadFromRecords(uris[i], labels, images, visible);
      forall k | base <= k < |nodes| ensures nodes[k].id in uris && LoadedAs(nodes[k], labels, images, visible) {
        if k < |before| {
          assert nodes[k] == before[k];
        }
      }
    }

    /** The `fetch_related` continuation: one `create_edge` per relation binding, then a
        re-sync; a binding that lacks a variable throws before the re-sync. */
    method ApplyRelations(relations: seq<Binding>, visible: bool, animations: bool) returns (r: Result<()>)
      requires Valid()
      modifies this
      ensures Valid()
      ensures r.Ok? <==> MapAll(RelationOf, relations).Ok?
      ensures edges == WithRelationEdges(old(edges), relations)
      ensures nodes == old(nodes)
      ensures r.Ok? ==> viewNodes == VisibleIds(nodes) && viewEdges == VisibleEdgeKeys(nodes, edges)
      ensures r.Err? ==> viewNodes == old(viewNodes) && viewEdges == old(viewEdges)
      ensures hasNetwork == old(hasNetwork)
      ensures stabilizations == old(stabilizations) + (if r.Ok? && !animations && visible && hasNetwork then 1 else 0)
    {
      var i := 0;
      assert relations[0..] == relations;
      while i < |relations|
        invariant 0 <= i <= |relations|
        invariant Valid() && nodes == old(nodes)
        invariant viewNodes == old(viewNodes) && viewEdges == old(viewEdges)
        invariant hasNetwork == old(hasNetwork) && stabilizations == old(stabilizations)
        invariant WithRelationEdges(edges, relations[i..]) == WithRelationEdges(old(edges), relations)
        invariant forall k :: 0 <= k < i ==> RelationOf(relations[k]).Ok?
      {
        var rel := RelationOf(relations[i]);
        if rel.Err? {
          assert relations[i..][0] == relations[i];
          return Err(rel.message);
        }
        assert relations[i..][1..] == relations[i + 1..];
        var _ := CreateEdge(rel.value.subject, rel.value.property, rel.value.objectValue, rel.value.propLabel);
        i := i + 1;
      }
      assert forall k :: 0 <= k < |relations| ==> RelationOf(relations[k]).Ok?;
      UpdateData(visible, animations);
      return Ok(());
    }


    /** The node half of one pass of the `load_related_nodes` loop: finds or creates the
        node for `d` (no image), and when it is hidden moves it to `position` and gives it
        visibility `visible`; `isNew` says it was hidden. */
    method MergeNode(d: Sparql.DataResult, visible: bool, position: Position, ghost ss: seq<NodeState>)
      returns (node: Node, isNew: bool)
      requires Valid() && ss == Snapshot(nodes)
      modifies this, nodes
      ensures Valid() && old(nodes) <= nodes && node in nodes && node.id == d.uri
      ensures forall k :: |old(nodes)| <= k < |nodes| ==> fresh(nodes[k])
      ensures Snapshot(nodes) == Put(ss, d.uri, Merged(StateOf(ss, d.uri), d, visible, position))
      ensures isNew == ReportedNew(StateOf(ss, d.uri), visible)
      ensures edges == old(edges) && viewNodes == old(viewNodes) && viewEdges == old(viewEdges)
      ensures hasNetwork == old(hasNetwork) && stabilizations == old(stabilizations)
    {
      ghost var idx;
      node, idx := FindMerged(d, visible, position, ss);
      ghost var g := node.Fields();
      isNew := RevealIfHidden(node, visible, position, idx);
      PutFound(ss, d.uri, g, Revealed(g, visible, position));
    }

    /** The `find_or_create_node` call of the loop, on snapshots: the node for `d` and
        its position. */
    method FindMerged(d: Sparql.DataResult, visible: bool, position: Position, ghost ss: seq<NodeState>)
      returns (node: Node, ghost idx: int)
      requires Valid() && ss == Snapshot(nodes)
      modifies this
      ensures Valid() && old(nodes) <= nodes && node.id == d.uri
      ensures forall k :: |old(nodes)| <= k < |nodes| ==> fresh(nodes[k])
      ensures var k := Lookup(ss, d.uri);
        && idx == (if k >= 0 then k else |ss|) && 0 <= idx < |nodes| && nodes[idx] == node
        && Snapshot(nodes) == (if k >= 0 then ss else ss + [NodeState(d.uri, node.Fields())])
      ensures node.Fields() == Found(StateOf(ss, d.uri), d, visible, position)
      ensures edges == old(edges) && viewNodes == old(viewNodes) && viewEdges == old(viewEdges)
      ensures hasNetwork == old(hasNetwork) && stabilizations == old(stabilizations)
    {
      LookupSnapshot(nodes, d.uri);
      ghost var k := IndexOf(nodes, d.uri);
      node := FindOrCreateNode(d.uri, d.labelText, d.kind, visible, None, position);
      idx := if k >= 0 then k else |ss|;
    }

    /** The visibility check of the loop: a hidden `nodes[idx]` is moved to `position` and
        given visibility `visible`; no other node changes.  Says whether it was hidden. */
    method RevealIfHidden(node: Node, visible: bool, position: Position, ghost idx: int) returns (hidden: bool)
      requires UniqueIds(nodes) && 0 <= idx < |nodes| && nodes[idx] == node
      modifies node
      ensures hidden == !old(node.visible)
      ensures node.Fields() == Revealed(old(node.Fields()), visible, position)
      ensures Snapshot(nodes) == old(Snapshot(nodes))[idx := NodeState(node.id, node.Fields())]
    {
      ghost var ss := Snapshot(nodes);
      hidden := !node.visible;
      if hidden {
        node.x := position.x;
        node.y := position.y;
        node.visible := visible;
      }
      SnapshotReplaced(nodes, ss, idx);
    }

    /** One pass of the `load_related_nodes` loop, proved against `MergeStep`. */
    method MergeRelated(subject: string, property: Property, visible: bool, position: Position,
                        d: Sparql.DataResult, ghost m: Merge)
      returns (node: Node, isNew: bool)
      requires Valid() && m.states == Snapshot(nodes) && m.edges == edges
      modifies this, nodes
      ensures Valid() && old(nodes) <= nodes && node in nodes && node.id == d.uri
      ensures forall k :: |old(nodes)| <= k < |nodes| ==> fresh(nodes[k])
      ensures var r := MergeStep(m, subject, property, visible, position, d);
        Snapshot(nodes) == r.states && edges == r.edges &&
        if isNew then r.newIds == m.newIds + [d.uri] && r.existingIds == m.existingIds
        else r.newIds == m.newIds && r.existingIds == m.existingIds + [d.uri]
      ensures viewNodes == old(viewNodes) && viewEdges == old(viewEdges)
      ensures hasNetwork == old(hasNetwork) && stabilizations == old(stabilizations)
    {
      node, isNew := MergeNode(d, visible, position, m.states);
      var _ := CreateEdge(subject, property.uri, d.uri, EdgeLabel(property));
      MergeStepReports(m, subject, property, visible, position, d);
    }


    /** The synchronous part of `load_related_nodes` once `fetch_data` has yielded `data`:
        one pass of the merge per entry, then a re-sync with `visible`.  The result lists
        the nodes reported new, then those that were already there; the follow-up queries
        use the ids of `newNodes`.  A failed fetch propagates and changes nothing. */
    method LoadRelatedNodes(subject: string, property: Property, visible: bool, position: Position,
                            data: Result<seq<Sparql.DataResult>>, animations: bool)
      returns (r: Result<seq<Node>>, newNodes: seq<Node>)
      requires Valid()
      modifies this, nodes
      ensures Valid() && old(nodes) <= nodes
      ensures r.Ok? <==> data.Ok?
      ensures data.Err? ==> nodes == old(nodes) && edges == old(edges) && Snapshot(nodes) == old(Snapshot(nodes))
                            && viewNodes == old(viewNodes) && viewEdges == old(viewEdges)
                            && stabilizations == old(stabilizations)
      ensures hasNetwork == old(hasNetwork)
      ensures data.Ok? ==>
        var m := MergeAll(Merge(old(Snapshot(nodes)), old(edges), [], []), subject, property, visible, position, data.value);
        && Snapshot(nodes) == m.states && edges == m.edges
        && IdsOf(newNodes) == m.newIds && IdsOf(r.value) == m.newIds + m.existingIds
        && (forall k :: 0 <= k < |r.value| ==> r.value[k] in nodes)
        && viewNodes == VisibleIds(nodes) && viewEdges == VisibleEdgeKeys(nodes, edges)
        && stabilizations == old(stabilizations) + (if !animations && visible && hasNetwork then 1 else 0)
    {
      if data.Err? {
        return Err(data.message), [];
      }
      var existing;
      newNodes, existing := MergeAllData(subject, property, visible, position, data.value);
      UpdateData(visible, animations);
      IdsOfAppend(newNodes, existing);
      return Ok(newNodes + existing), newNodes;
    }

    /** `load_related_nodes` as the source calls its fetch: `fetch_data(uri, property.uri)`
        without `nodes`. That fetch never yields a related node, so the call either fails
        or merges nothing, and the graph's nodes and edges stay as they were. */
    method LoadRelatedAsCalled(subject: string, property: Property, visible: bool, position: Position,
                               sizeLimit: nat, isUrl: string -> bool, endpoint: Endpoint, animations: bool)
      returns (r: Result<seq<Node>>)
      requires Valid()
      modifies this, nodes
      ensures Valid()
      ensures r.Ok? <==> Sparql.DataOfUndefinedNodes(subject, property.uri, sizeLimit, isUrl, endpoint).Ok?
      ensures r.Ok? ==> r.value == []
      ensures nodes == old(nodes) && edges == old(edges) && Snapshot(nodes) == old(Snapshot(nodes))
      ensures r.Err? ==> viewNodes == old(viewNodes) && viewEdges == old(viewEdges)
      ensures r.Ok? ==> viewNodes == VisibleIds(nodes) && viewEdges == VisibleEdgeKeys(nodes, edges)
      ensures hasNetwork == old(hasNetwork)
      ensures stabilizations == old(stabilizations) + (if r.Ok? && !animations && visible && hasNetwork then 1 else 0)
    {
      var data := Sparql.DataOfUndefinedNodes(subject, property.uri, sizeLimit, isUrl, endpoint);
      Sparql.UndefinedNodesYieldNothing(subject, property.uri, sizeLimit, isUrl, endpoint);
      var shown;
      r, shown := LoadRelatedNodes(subject, property, visible, position, data, animations);
    }

    /** `load_related_nodes` with the fetch its client declares, `fetch_data(uri,
        property.uri, nodes)`, given the ids of the graph's nodes as the known nodes: the
        merge runs over every related node the fetch yields. */
    method LoadRelated(subject: string, property: Property, visible: bool, position: Position,
                       rateLimit: nat, sizeLimit: nat, isUrl: string -> bool, endpoint: Endpoint, animations: bool)
      returns (r: Result<seq<Node>>, newNodes: seq<Node>)
      requires Valid() && rateLimit >= 1
      modifies this, nodes
      ensures Valid() && old(nodes) <= nodes
      ensures var data := Sparql.DataOf(subject, property.uri, old(IdsOf(nodes)), rateLimit, sizeLimit, isUrl, endpoint);
        && (r.Ok? <==> data.Ok?)
        && (data.Err? ==> nodes == old(nodes) && edges == old(edges) && Snapshot(nodes) == old(Snapshot(nodes))
                          && viewNodes == old(viewNodes) && viewEdges == old(viewEdges))
        && (data.Ok? ==>
              var m := MergeAll(Merge(old(Snapshot(nodes)), old(edges), [], []), subject, property, visible, position, data.value);
              && Snapshot(nodes) == m.states && edges == m.edges
              && IdsOf(newNodes) == m.newIds && IdsOf(r.value) == m.newIds + m.existingIds
              && (forall k :: 0 <= k < |r.value| ==> r.value[k] in nodes)
              && viewNodes == VisibleIds(nodes) && viewEdges == VisibleEdgeKeys(nodes, edges))
      ensures hasNetwork == old(hasNetwork)
      ensures stabilizations == old(stabilizations) + (if r.Ok? && !animations && visible && hasNetwork then 1 else 0)
    {
      var data;
      ghost var rounds;
      data, rounds := Sparql.FetchData(subject, property.uri, IdsOf(nodes), rateLimit, sizeLimit, isUrl, endpoint);
      r, newNodes := LoadRelatedNodes(subject, property, visible, position, data, animations);
    }

    /** The `for (const d of data)` loop of `load_related_nodes`: every entry merged in
        order, with the nodes it reports as new and as already there. */
    method MergeAllData(subject: string, property: Property, visible: bool, position: Position,
                        ds: seq<Sparql.DataResult>)
      returns (newNodes: seq<Node>, existing: seq<Node>)
      requires Valid()
      modifies this, nodes
      ensures Valid() && old(nodes) <= nodes
      ensures Holds(MergeAll(Merge(old(Snapshot(nodes)), old(edges), [], []), subject, property, visible, position, ds),
                    newNodes, existing)
      ensures viewNodes == old(viewNodes) && viewEdges == old(viewEdges)
      ensures hasNetwork == old(hasNetwork) && stabilizations == old(stabilizations)
    {
      ghost var init := Merge(Snapshot(nodes), edges, [], []);
      existing := [];
      newNodes := [];
      for i := 0 to |ds|
        invariant Valid() && old(nodes) <= nodes && forall k :: |old(nodes)| <= k < |nodes| ==> fresh(nodes[k])
        invariant Holds(MergeAll(init, subject, property, visible, position, ds[..i]), newNodes, existing)
        invariant viewNodes == old(viewNodes) && viewEdges == old(viewEdges)
        invariant hasNetwork == old(hasNetwork) && stabilizations == old(stabilizations)
      {
        ghost var before := nodes;
        newNodes, existing := MergeNext(subject, property, visible, position, ds, i, init, newNodes, existing);
        forall k | |old(nodes)| <= k < |nodes| ensures fresh(nodes[k]) {
          if k < |before| {
            assert nodes[k] == before[k];
          }
        }
      }
      assert ds[..|ds|] == ds;
    }

    /** The pass of that loop for entry `ds[i]`. */
    method MergeNext(subject: string, property: Property, visible: bool, position: Position,
                     ds: seq<Sparql.DataResult>, i: nat, ghost init: Merge, newNodes: seq<Node>, existing: seq<Node>)
      returns (newNodes2: seq<Node>, existing2: seq<Node>)
      requires i < |ds| && Valid() && Holds(MergeAll(init, subject, property, visible, position, ds[..i]), newNodes, existing)
      modifies this, nodes
      ensures Valid() && old(nodes) <= nodes && forall k :: |old(nodes)| <= k < |nodes| ==> fresh(nodes[k])
      ensures Holds(MergeAll(init, subject, property, visible, position, ds[..i + 1]), newNodes2, existing2)
      ensures viewNodes == old(viewNodes) && viewEdges == old(viewEdges)
      ensures hasNetwork == old(hasNetwork) && stabilizations == old(stabilizations)
    {
      MergeAllStep(init, subject, property, visible, position, ds, i);
      newNodes2, existing2 := MergeEntry(subject, property, visible, position, ds[i],
                                         MergeAll(init, subject, property, visible, position, ds[..i]), newNodes, existing);
    }

    /** The loop state against the merge `m`: the graph is `m`'s, and the two lists of
        reported nodes are nodes of the graph with `m`'s ids. */
    ghost predicate Holds(m: Merge, newNodes: seq<Node>, existing: seq<Node>)
      reads this, nodes
    {
      && Snapshot(nodes) == m.states && edges == m.edges && IdsOf(newNodes) == m.newIds && IdsOf(existing) == m.existingIds
      && (forall k :: 0 <= k < |newNodes| ==> newNodes[k] in nodes)
      && (forall k :: 0 <= k < |existing| ==> existing[k] in nodes)
    }

    /** One iteration of the `load_related_nodes` loop, for entry `d`. */
    method MergeEntry(subject: string, property: Property, visible: bool, position: Position,
                      d: Sparql.DataResult, ghost m: Merge, newNodes: seq<Node>, existing: seq<Node>)
      returns (newNodes2: seq<Node>, existing2: seq<Node>)
      requires Valid() && Holds(m, newNodes, existing)
      modifies this, nodes
      ensures Valid() && old(nodes) <= nodes && forall k :: |old(nodes)| <= k < |nodes| ==> fresh(nodes[k])
      ensures Holds(MergeStep(m, subject, property, visible, position, d), newNodes2, existing2)
      ensures viewNodes == old(viewNodes) && viewEdges == old(viewEdges)
      ensures hasNetwork == old(hasNetwork) && stabilizations == old(stabilizations)
    {
      ghost var before := nodes;
      var node, isNew := MergeRelated(subject, property, visible, position, d, m);
      StillIn(newNodes, before, nodes);
      StillIn(existing, before, nodes);
      newNodes2, existing2 := newNodes, existing;
      if isNew {
        newNodes2 := Pushed(newNodes, node);
      } else {
        existing2 := Pushed(existing, node);
      }
    }

    /** `image.uri`'s node, if any, gets the image, and is updated in the view when visible. */
    method ApplyImage(rec: ImageRecord)
      requires Valid()
      modifies this, nodes
      ensures Valid() && nodes == old(nodes) && edges == old(edges) && viewEdges == old(viewEdges)
      ensures Snapshot(nodes) == ImageStep(old(Snapshot(nodes)), rec)
      ensures viewNodes == old(viewNodes) + if Shown(StateOf(old(Snapshot(nodes)), rec.uri)) then {rec.uri} else {}
      ensures hasNetwork == old(hasNetwork) && stabilizations == old(stabilizations)
    {
      LookupSnapshot(nodes, rec.uri);
      var k := IndexOf(nodes, rec.uri);
      if k >= 0 {
        var node := nodes[k];
        ImageNode(node, rec.image, k);
        if node.visible {
          viewNodes := viewNodes + {node.id};
        }
      }
    }

    /** `node.update_image(url)` on `nodes[idx]`; no other node changes. */
    method ImageNode(node: Node, url: string, ghost idx: int)
      requires UniqueIds(nodes) && 0 <= idx < |nodes| && nodes[idx] == node
      modifies node
      ensures node.Fields() == Imaged(old(node.Fields()), Some(url))
      ensures Snapshot(nodes) == old(Snapshot(nodes))[idx := NodeState(node.id, node.Fields())]
    {
      ghost var ss := Snapshot(nodes);
      node.UpdateImage(url);
      SnapshotReplaced(nodes, ss, idx);
    }

    /** The `fetch_image` continuation of `load_related_nodes`: each record, in order,
        gives its node the image and updates it in the view when visible. */
    method ApplyImages(images: seq<ImageRecord>)
      requires Valid()
      modifies this, nodes
      ensures Valid() && nodes == old(nodes) && edges == old(edges) && viewEdges == old(viewEdges)
      ensures Snapshot(nodes) == ImagesApplied(old(Snapshot(nodes)), images)
      ensures viewNodes == old(viewNodes) + ShownImageIds(old(Snapshot(nodes)), images)
      ensures hasNetwork == old(hasNetwork) && stabilizations == old(stabilizations)
    {
      ghost var ss := Snapshot(nodes);
      ghost var view := viewNodes;
      LookupSnapshot(nodes, "");
      for i := 0 to |images|
        invariant Valid() && nodes == old(nodes) && edges == old(edges) && viewEdges == old(viewEdges)
        invariant Snapshot(nodes) == ImagesApplied(ss, images[..i])
        invariant viewNodes == view + ShownImageIds(ss, images[..i])
        invariant hasNetwork == old(hasNetwork) && stabilizations == old(stabilizations)
      {
        ApplyImageAt(images, i, ss, view);
      }
      assert images[..|images|] == images;
    }

    /** One iteration of the `fetch_image` continuation, for record `images[i]`. */
    method ApplyImageAt(images: seq<ImageRecord>, i: nat, ghost ss: seq<NodeState>, ghost view: set<string>)
      requires Valid() && i < |images| && UniqueStates(ss)
      requires Snapshot(nodes) == ImagesApplied(ss, images[..i]) && viewNodes == view + ShownImageIds(ss, images[..i])
      modifies this, nodes
      ensures Valid() && nodes == old(nodes) && edges == old(edges) && viewEdges == old(viewEdges)
      ensures Snapshot(nodes) == ImagesApplied(ss, images[..i + 1])
      ensures viewNodes == view + ShownImageIds(ss, images[..i + 1])
      ensures hasNetwork == old(hasNetwork) && stabilizations == old(stabilizations)
    {
      ImagesAppliedAt(ss, images[..i], images[i].uri);
      ApplyImage(images[i]);
      assert images[..i + 1][..i] == images[..i];
    }

  }
}
