/** The d3-era graph of the explorer's UI package: graph nodes that keep, per property,
    the list of target values, and the node and link lists of the d3 force simulation,
    rebuilt from the graph after every batch of triples. */
module D3Graph {
  import opened Common

  /** `{ s, p, o }`, each term reduced to its `value`. */
  datatype Triple = Triple(s: string, p: string, o: string)

  /** The single node of a fresh graph. */
  const StartUri: string := "http://dbpedia.org/resource/COVID-19"

  /** The connection value `update_d3` never draws a link to. */
  const Placeholder: string := "test"

  predicate Distinct(s: seq<string>)
  {
    forall i, j :: 0 <= i < j < |s| ==> s[i] != s[j]
  }

  // ---------------------------------------------------------------------------------
  // Property dictionaries

  /** The object `{ [property: string]: string[] }`: its keys in the order `Object.keys`
      reports for keys that are not integer-like (first insertion; keys are predicate
      IRIs), and the target list under each key. */
  datatype Dict = Dict(keys: seq<string>, lists: map<string, seq<string>>)

  const EmptyDict: Dict := Dict([], map[])

  /** Every key is listed once, and the listed keys are the keys present. */
  ghost predicate WellFormed(d: Dict)
  {
    Distinct(d.keys) && forall p :: p in d.lists <==> p in d.keys
  }

  /** `if (!properties[p]) properties[p] = []`: a present list (an array, so truthy,
      even when empty) is left alone. */
  function AddKey(d: Dict, p: string): Dict
  {
    if p in d.lists then d else Dict(d.keys + [p], d.lists[p := []])
  }

  /** `add_properties(ps)`: `AddKey` for each element of `ps`, in order. */
  function AddKeys(d: Dict, ps: seq<string>): Dict
  {
    if ps == [] then d else AddKey(AddKeys(d, ps[..|ps| - 1]), ps[|ps| - 1])
  }

  lemma AddKeysSnoc(d: Dict, ps: seq<string>, p: string)
    ensures AddKeys(d, ps + [p]) == AddKey(AddKeys(d, ps), p)
  {
    assert (ps + [p])[..|ps|] == ps;
  }

  /** Adding properties keeps the dictionary well formed, makes exactly the given
      properties present besides the old ones, gives each property that was missing an
      empty list, leaves every existing list untouched, and only appends keys. */
  lemma {:induction false} AddKeysMeaning(d: Dict, ps: seq<string>)
    requires WellFormed(d)
    ensures WellFormed(AddKeys(d, ps))
    ensures forall p :: p in AddKeys(d, ps).lists <==> p in d.lists || p in ps
    ensures forall p :: p in d.lists ==> AddKeys(d, ps).lists[p] == d.lists[p]
    ensures forall p :: p in ps && p !in d.lists ==> AddKeys(d, ps).lists[p] == []
    ensures d.keys <= AddKeys(d, ps).keys
  {
    if ps != [] {
      var init := ps[..|ps| - 1];
      AddKeysMeaning(d, init);
      assert ps == init + [ps[|ps| - 1]];
    }
  }

  /** Properties already present are not added (or changed) again. */
  lemma {:induction false} AddKeysPresent(d: Dict, ps: seq<string>)
    requires forall k :: 0 <= k < |ps| ==> ps[k] in d.lists
    ensures AddKeys(d, ps) == d
  {
    if ps != [] {
      AddKeysPresent(d, ps[..|ps| - 1]);
    }
  }

  /** `add_properties` is idempotent. */
  lemma AddKeysTwice(d: Dict, ps: seq<string>)
    requires WellFormed(d)
    ensures AddKeys(AddKeys(d, ps), ps) == AddKeys(d, ps)
  {
    AddKeysMeaning(d, ps);
    AddKeysPresent(AddKeys(d, ps), ps);
  }

  /** `(properties[p] ??= []).push(o)`. */
  function Push(d: Dict, p: string, o: string): Dict
  {
    var e := AddKey(d, p);
    Dict(e.keys, e.lists[p := e.lists[p] + [o]])
  }

  /** The list under `p`, or none. */
  function ListAt(d: Dict, p: string): seq<string>
  {
    if p in d.lists then d.lists[p] else []
  }

  /** Pushing appends `o` at the end of the list under `p` (creating it if absent, keeping
      duplicates), touches no other list, and adds `p` as a key when it was missing. */
  lemma PushMeaning(d: Dict, p: string, o: string)
    requires WellFormed(d)
    ensures WellFormed(Push(d, p, o))
    ensures ListAt(Push(d, p, o), p) == ListAt(d, p) + [o]
    ensures forall q :: q != p ==> ListAt(Push(d, p, o), q) == ListAt(d, q)
    ensures Push(d, p, o).keys == AddKey(d, p).keys
  {
  }

  // ---------------------------------------------------------------------------------
  // Graph node snapshots and `add_triple`

  /** A graph node's value and its property dictionary at one moment. */
  datatype NodeState = NodeState(value: string, properties: Dict)

  predicate UniqueStates(ss: seq<NodeState>)
  {
    forall i, j :: 0 <= i < j < |ss| ==> ss[i].value != ss[j].value
  }

  ghost predicate AllWellFormed(ss: seq<NodeState>)
  {
    forall k :: 0 <= k < |ss| ==> WellFormed(ss[k].properties)
  }

  /** `nodes.find((n) => n.value == uri)`, as an index (-1 for none). */
  function Lookup(ss: seq<NodeState>, uri: string): (r: int)
    ensures -1 <= r < |ss|
    ensures r == -1 <==> forall j :: 0 <= j < |ss| ==> ss[j].value != uri
    ensures r >= 0 ==> ss[r].value == uri && forall j :: 0 <= j < r ==> ss[j].value != uri
  {
    if ss == [] then -1
    else
      var r := Lookup(ss[..|ss| - 1], uri);
      if r >= 0 then r
      else if ss[|ss| - 1].value == uri then |ss| - 1
      else -1
  }

  /** The node with value `uri`, appended with an empty dictionary when there is none. */
  function Ensure(ss: seq<NodeState>, uri: string): seq<NodeState>
  {
    if Lookup(ss, uri) >= 0 then ss else ss + [NodeState(uri, EmptyDict)]
  }

  /** One iteration of the `add_triple` loop: find or create the source, push the target
      onto its list for the property, then find or create the target. */
  function TripleStep(ss: seq<NodeState>, t: Triple): seq<NodeState>
  {
    var s1 := Ensure(ss, t.s);
    var k := Lookup(s1, t.s);
    Ensure(s1[k := s1[k].(properties := Push(s1[k].properties, t.p, t.o))], t.o)
  }

  /** The graph nodes after the `add_triple` loop over `ts`. */
  function AddAll(ss: seq<NodeState>, ts: seq<Triple>): seq<NodeState>
  {
    if ts == [] then ss else TripleStep(AddAll(ss, ts[..|ts| - 1]), ts[|ts| - 1])
  }

  lemma AddAllSnoc(ss: seq<NodeState>, ts: seq<Triple>, t: Triple)
    ensures AddAll(ss, ts + [t]) == TripleStep(AddAll(ss, ts), t)
  {
    assert (ts + [t])[..|ts|] == ts;
  }

  lemma AddAllPrefix(ss: seq<NodeState>, ts: seq<Triple>, i: int)
    requires 0 <= i < |ts|
    ensures AddAll(ss, ts[..i + 1]) == TripleStep(AddAll(ss, ts[..i]), ts[i])
  {
    assert ts[..i + 1][..i] == ts[..i];
  }

  /** The dictionary of the node with value `uri`, empty when there is none. */
  function DictOf(ss: seq<NodeState>, uri: string): Dict
  {
    var k := Lookup(ss, uri);
    if k < 0 then EmptyDict else ss[k].properties
  }

  /** The targets the triples `ts` send to `uri` under `p`, in order. */
  function Sent(ts: seq<Triple>, uri: string, p: string): seq<string>
  {
    if ts == [] then []
    else Sent(ts[..|ts| - 1], uri, p) + (if ts[|ts| - 1].s == uri && ts[|ts| - 1].p == p then [ts[|ts| - 1].o] else [])
  }

  /** The properties the triples `ts` use with subject `uri`, in order (with repeats). */
  function Used(ts: seq<Triple>, uri: string): seq<string>
  {
    if ts == [] then []
    else Used(ts[..|ts| - 1], uri) + (if ts[|ts| - 1].s == uri then [ts[|ts| - 1].p] else [])
  }

  /** `Ensure` keeps the existing nodes, their order and their dictionaries. */
  lemma EnsureKeeps(ss: seq<NodeState>, uri: string)
    ensures ss <= Ensure(ss, uri)
    ensures Lookup(Ensure(ss, uri), uri) >= 0
    ensures forall v :: Lookup(ss, v) >= 0 ==> Lookup(Ensure(ss, uri), v) == Lookup(ss, v)
    ensures forall v :: v != uri ==> DictOf(Ensure(ss, uri), v) == DictOf(ss, v)
    ensures DictOf(Ensure(ss, uri), uri) == DictOf(ss, uri)
    ensures UniqueStates(ss) ==> UniqueStates(Ensure(ss, uri))
    ensures AllWellFormed(ss) ==> AllWellFormed(Ensure(ss, uri))
  {
    if Lookup(ss, uri) < 0 {
      var r := Ensure(ss, uri);
      forall v | Lookup(ss, v) >= 0 ensures Lookup(r, v) == Lookup(ss, v) {
        assert r[..|ss|] == ss;
      }
      forall v ensures DictOf(r, v) == DictOf(ss, v) {
        assert r[..|ss|] == ss;
      }
    }
  }

  /** Pushing onto node `k` changes only that node's dictionary. */
  lemma PushAtKeeps(ss: seq<NodeState>, k: int, t: Triple)
    requires 0 <= k < |ss| && ss[k].value == t.s && Lookup(ss, t.s) == k
    requires UniqueStates(ss) && AllWellFormed(ss)
    ensures var r := ss[k := ss[k].(properties := Push(ss[k].properties, t.p, t.o))];
      && UniqueStates(r) && AllWellFormed(r)
      && (forall v :: Lookup(r, v) == Lookup(ss, v))
      && (forall v :: v != t.s ==> DictOf(r, v) == DictOf(ss, v))
      && DictOf(r, t.s) == Push(DictOf(ss, t.s), t.p, t.o)
  {
    var r := ss[k := ss[k].(properties := Push(ss[k].properties, t.p, t.o))];
    PushMeaning(ss[k].properties, t.p, t.o);
    forall v ensures Lookup(r, v) == Lookup(ss, v) {
      LookupSameValues(ss, r, v);
    }
  }

  /** Lookup depends only on the values. */
  lemma {:induction false} LookupSameValues(a: seq<NodeState>, b: seq<NodeState>, v: string)
    requires |a| == |b| && forall j :: 0 <= j < |a| ==> a[j].value == b[j].value
    ensures Lookup(a, v) == Lookup(b, v)
  {
    if a != [] {
      LookupSameValues(a[..|a| - 1], b[..|b| - 1], v);
    }
  }

  /** Pushing onto the source found or created by one triple leaves a sequence with the
      same values in the same places. */
  lemma PushAtValues(ss: seq<NodeState>, k: int, t: Triple)
    requires 0 <= k < |ss|
    ensures var r := ss[k := ss[k].(properties := Push(ss[k].properties, t.p, t.o))];
      |r| == |ss| && forall j :: 0 <= j < |ss| ==> r[j].value == ss[j].value
  {
  }

  /** One triple: both endpoints exist afterwards. */
  lemma TripleStepFound(ss: seq<NodeState>, t: Triple, r: seq<NodeState>)
    requires UniqueStates(ss) && AllWellFormed(ss) && r == TripleStep(ss, t)
    ensures Lookup(r, t.s) >= 0 && Lookup(r, t.o) >= 0
  {
    var s1 := Ensure(ss, t.s);
    EnsureKeeps(ss, t.s);
    var k := Lookup(s1, t.s);
    var s2 := s1[k := s1[k].(properties := Push(s1[k].properties, t.p, t.o))];
    PushAtKeeps(s1, k, t);
    EnsureKeeps(s2, t.o);
    assert r == Ensure(s2, t.o);
  }

  /** One triple: the source's dictionary receives the push and no other dictionary changes. */
  lemma TripleStepDict(ss: seq<NodeState>, t: Triple, uri: string, r: seq<NodeState>)
    requires UniqueStates(ss) && AllWellFormed(ss) && r == TripleStep(ss, t)
    ensures DictOf(r, uri) == if uri == t.s then Push(DictOf(ss, uri), t.p, t.o) else DictOf(ss, uri)
  {
    var s1 := Ensure(ss, t.s);
    EnsureKeeps(ss, t.s);
    var k := Lookup(s1, t.s);
    var s2 := s1[k := s1[k].(properties := Push(s1[k].properties, t.p, t.o))];
    PushAtKeeps(s1, k, t);
    EnsureKeeps(s2, t.o);
    assert r == Ensure(s2, t.o);
  }

  /** Ensuring a value adds at most one node, and only one carrying that value. */
  lemma EnsureNew(ss: seq<NodeState>, uri: string)
    ensures |ss| <= |Ensure(ss, uri)| <= |ss| + 1
    ensures forall j :: |ss| <= j < |Ensure(ss, uri)| ==> Ensure(ss, uri)[j].value == uri
  {
  }

  /** One triple keeps the existing nodes in their places, whatever the graph. */
  lemma TripleStepKeeps(ss: seq<NodeState>, t: Triple, r: seq<NodeState>)
    requires r == TripleStep(ss, t)
    ensures Grown(ss, r)
  {
    var s1 := Ensure(ss, t.s);
    EnsureKeeps(ss, t.s);
    var k := Lookup(s1, t.s);
    var s2 := s1[k := s1[k].(properties := Push(s1[k].properties, t.p, t.o))];
    PushAtValues(s1, k, t);
    EnsureKeeps(s2, t.o);
    assert r == Ensure(s2, t.o);
  }

  /** One triple: every node it creates is its subject or its object. */
  lemma TripleStepNew(ss: seq<NodeState>, t: Triple, r: seq<NodeState>)
    requires r == TripleStep(ss, t)
    ensures forall j :: |ss| <= j < |r| ==> r[j].value == t.s || r[j].value == t.o
  {
    var s1 := Ensure(ss, t.s);
    EnsureNew(ss, t.s);
    EnsureKeeps(ss, t.s);
    var k := Lookup(s1, t.s);
    var s2 := s1[k := s1[k].(properties := Push(s1[k].properties, t.p, t.o))];
    PushAtValues(s1, k, t);
    EnsureNew(s2, t.o);
    EnsureKeeps(s2, t.o);
    assert r == Ensure(s2, t.o);
  }

  /** `b` keeps the nodes of `a` in their places (and may have more after them). */
  predicate Grown(a: seq<NodeState>, b: seq<NodeState>)
  {
    |a| <= |b| && forall j :: 0 <= j < |a| ==> b[j].value == a[j].value
  }

  /** One triple creates no second node for a value, keeps every dictionary well formed,
      and keeps the existing nodes in their places. */
  lemma TripleStepGrows(ss: seq<NodeState>, t: Triple)
    requires UniqueStates(ss) && AllWellFormed(ss)
    ensures UniqueStates(TripleStep(ss, t)) && AllWellFormed(TripleStep(ss, t)) && Grown(ss, TripleStep(ss, t))
  {
    var s1 := Ensure(ss, t.s);
    EnsureKeeps(ss, t.s);
    var k := Lookup(s1, t.s);
    var s2 := s1[k := s1[k].(properties := Push(s1[k].properties, t.p, t.o))];
    PushAtKeeps(s1, k, t);
    PushAtValues(s1, k, t);
    EnsureKeeps(s2, t.o);
    assert TripleStep(ss, t) == Ensure(s2, t.o);
  }

  /** The `add_triple` loop creates no second node for a value, keeps every node in its
      place and keeps every dictionary well formed. */
  lemma {:induction false} AddAllGrows(ss: seq<NodeState>, ts: seq<Triple>)
    requires UniqueStates(ss) && AllWellFormed(ss)
    ensures UniqueStates(AddAll(ss, ts)) && AllWellFormed(AddAll(ss, ts)) && Grown(ss, AddAll(ss, ts))
  {
    if ts != [] {
      var init := ts[..|ts| - 1];
      AddAllGrows(ss, init);
      TripleStepGrows(AddAll(ss, init), ts[|ts| - 1]);
    }
  }

  /** After the `add_triple` loop over `ts`, the subject and the object of triple `i`
      both have a node. */
  lemma {:induction false} AddAllFound(ss: seq<NodeState>, ts: seq<Triple>, i: int)
    requires UniqueStates(ss) && AllWellFormed(ss) && 0 <= i < |ts|
    ensures Lookup(AddAll(ss, ts), ts[i].s) >= 0 && Lookup(AddAll(ss, ts), ts[i].o) >= 0
  {
    var init, t := ts[..|ts| - 1], ts[|ts| - 1];
    AddAllGrows(ss, init);
    var m := AddAll(ss, init);
    var r := AddAll(ss, ts);
    assert r == TripleStep(m, t);
    TripleStepFound(m, t, r);
    TripleStepGrows(m, t);
    if i < |ts| - 1 {
      AddAllFound(ss, init, i);
      assert ts[i] == init[i];
      StillFound(m, r, ts[i].s);
      StillFound(m, r, ts[i].o);
    }
  }

  /** Every node the `add_triple` loop creates is the subject or the object of a triple. */
  lemma {:induction false} AddAllOnly(ss: seq<NodeState>, ts: seq<Triple>, j: int)
    requires |ss| <= j < |AddAll(ss, ts)|
    ensures exists i :: 0 <= i < |ts| && (AddAll(ss, ts)[j].value == ts[i].s || AddAll(ss, ts)[j].value == ts[i].o)
  {
    var r := AddAll(ss, ts);
    assert ts != [];
    var init := ts[..|ts| - 1];
    var t := ts[|ts| - 1];
    var m := AddAll(ss, init);
    assert r == TripleStep(m, t);
    TripleStepKeeps(m, t, r);
    TripleStepNew(m, t, r);
    if j < |m| {
      AddAllOnly(ss, init, j);
      var i :| 0 <= i < |init| && (m[j].value == init[i].s || m[j].value == init[i].o);
      assert r[j].value == m[j].value;
      assert ts[i] == init[i];
    } else {
      assert r[j].value == t.s || r[j].value == t.o;
      assert ts[|ts| - 1] == t;
    }
  }

  /** A value found before a step that keeps the old values in place is found after it. */
  lemma StillFound(a: seq<NodeState>, b: seq<NodeState>, v: string)
    requires |a| <= |b| && forall j :: 0 <= j < |a| ==> b[j].value == a[j].value
    requires Lookup(a, v) >= 0
    ensures Lookup(b, v) >= 0
  {
    assert b[Lookup(a, v)].value == v;
  }

  /** After the `add_triple` loop, the list of node `uri` under `p` is the old list followed
      by every target the triples sent it under `p`, in order and with duplicates. */
  lemma {:induction false} AddAllLists(ss: seq<NodeState>, ts: seq<Triple>, uri: string, p: string)
    requires UniqueStates(ss) && AllWellFormed(ss)
    ensures ListAt(DictOf(AddAll(ss, ts), uri), p) == ListAt(DictOf(ss, uri), p) + Sent(ts, uri, p)
  {
    var l0 := ListAt(DictOf(ss, uri), p);
    if ts == [] {
      assert l0 + [] == l0;
    } else {
      var init, t := ts[..|ts| - 1], ts[|ts| - 1];
      AddAllLists(ss, init, uri, p);
      AddAllGrows(ss, init);
      var m := AddAll(ss, init);
      var r := AddAll(ss, ts);
      assert r == TripleStep(m, t);
      TripleStepDict(m, t, uri, r);
      var x := if t.s == uri && t.p == p then [t.o] else [];
      assert Sent(ts, uri, p) == Sent(init, uri, p) + x;
      if t.s == uri {
        DictOfWellFormed(m, uri);
        PushMeaning(DictOf(m, uri), t.p, t.o);
      }
      assert ListAt(DictOf(r, uri), p) == ListAt(DictOf(m, uri), p) + x;
      AppendAssoc(l0, Sent(init, uri, p), x);
    }
  }

  /** After the `add_triple` loop, the keys of node `uri` are those `add_properties` would
      give its old dictionary with the properties the triples used on it, in that order. */
  lemma {:induction false} AddAllKeys(ss: seq<NodeState>, ts: seq<Triple>, uri: string)
    requires UniqueStates(ss) && AllWellFormed(ss)
    ensures DictOf(AddAll(ss, ts), uri).keys == AddKeys(DictOf(ss, uri), Used(ts, uri)).keys
    ensures WellFormed(DictOf(AddAll(ss, ts), uri))
  {
    DictOfWellFormed(ss, uri);
    if ts != [] {
      var init, t := ts[..|ts| - 1], ts[|ts| - 1];
      AddAllKeys(ss, init, uri);
      AddAllGrows(ss, init);
      var m := AddAll(ss, init);
      var r := AddAll(ss, ts);
      assert r == TripleStep(m, t);
      TripleStepDict(m, t, uri, r);
      var d, u := DictOf(ss, uri), Used(init, uri);
      if t.s == uri {
        assert Used(ts, uri) == u + [t.p];
        AddKeysMeaning(d, u);
        PushMeaning(DictOf(m, uri), t.p, t.o);
        AddKeysSnoc(d, u, t.p);
        AddKeySameKeys(DictOf(m, uri), AddKeys(d, u), t.p);
      } else {
        assert Used(ts, uri) == u;
      }
    }
  }

  lemma AddKeySameKeys(e: Dict, f: Dict, p: string)
    requires WellFormed(e) && WellFormed(f) && e.keys == f.keys
    ensures AddKey(e, p).keys == AddKey(f, p).keys
  {
  }

  lemma AppendAssoc(a: seq<string>, b: seq<string>, c: seq<string>)
    ensures a + b + c == a + (b + c)
  {
  }

  lemma DictOfWellFormed(ss: seq<NodeState>, uri: string)
    requires AllWellFormed(ss)
    ensures WellFormed(DictOf(ss, uri))
  {
    if Lookup(ss, uri) >= 0 {
      assert WellFormed(ss[Lookup(ss, uri)].properties);
    }
  }

  // ---------------------------------------------------------------------------------
  // Links of the simulation

  /** A link as the values it carries: its property, the value of its source node and the
      value of its target node. */
  datatype LinkKey = LinkKey(value: string, source: string, target: string)

  /** The connections of the list `cs` under property `p` of the node with value `v`. */
  function TargetConns(v: string, p: string, cs: seq<string>): (r: seq<LinkKey>)
    ensures |r| == |cs| && forall i :: 0 <= i < |cs| ==> r[i] == LinkKey(p, v, cs[i])
  {
    seq(|cs|, i requires 0 <= i < |cs| => LinkKey(p, v, cs[i]))
  }

  /** The connections of the node with value `v` and dictionary `d`, over the keys `ks`. */
  function KeyConns(v: string, d: Dict, ks: seq<string>): seq<LinkKey>
  {
    if ks == [] then [] else KeyConns(v, d, ks[..|ks| - 1]) + TargetConns(v, ks[|ks| - 1], ListAt(d, ks[|ks| - 1]))
  }

  function NodeConns(st: NodeState): seq<LinkKey>
  {
    KeyConns(st.value, st.properties, st.properties.keys)
  }

  /** Every connection in the order the three nested loops of `update_d3` visit them:
      nodes, then `Object.keys` of each, then each target list. */
  function Conns(ss: seq<NodeState>): seq<LinkKey>
  {
    if ss == [] then [] else Conns(ss[..|ss| - 1]) + NodeConns(ss[|ss| - 1])
  }

  lemma ConnsSnoc(ss: seq<NodeState>, st: NodeState)
    ensures Conns(ss + [st]) == Conns(ss) + NodeConns(st)
  {
    assert (ss + [st])[..|ss|] == ss;
  }

  lemma KeyConnsSnoc(v: string, d: Dict, ks: seq<string>, p: string)
    ensures KeyConns(v, d, ks + [p]) == KeyConns(v, d, ks) + TargetConns(v, p, ListAt(d, p))
  {
    assert (ks + [p])[..|ks|] == ks;
  }

  lemma ConnsPrefix(ss: seq<NodeState>, i: int)
    requires 0 <= i < |ss|
    ensures Conns(ss[..i + 1]) == Conns(ss[..i]) + NodeConns(ss[i])
  {
    assert ss[..i + 1] == ss[..i] + [ss[i]];
    ConnsSnoc(ss[..i], ss[i]);
  }

  lemma KeyConnsPrefix(v: string, d: Dict, j: int)
    requires 0 <= j < |d.keys|
    ensures KeyConns(v, d, d.keys[..j + 1]) == KeyConns(v, d, d.keys[..j]) + TargetConns(v, d.keys[j], ListAt(d, d.keys[j]))
  {
    assert d.keys[..j + 1] == d.keys[..j] + [d.keys[j]];
    KeyConnsSnoc(v, d, d.keys[..j], d.keys[j]);
  }

  lemma TargetConnsPrefix(v: string, p: string, cs: seq<string>, m: int)
    requires 0 <= m < |cs|
    ensures TargetConns(v, p, cs[..m + 1]) == TargetConns(v, p, cs[..m]) + [LinkKey(p, v, cs[m])]
  {
  }

  /** A connection of one node carries that node's value, one of its keys and a target
      listed under that key; and every such triple is a connection. */
  lemma {:induction false} KeyConnsMembers(v: string, d: Dict, ks: seq<string>, c: LinkKey)
    ensures c in KeyConns(v, d, ks) <==> c.source == v && c.value in ks && c.target in ListAt(d, c.value)
  {
    if ks != [] {
      var init, p := ks[..|ks| - 1], ks[|ks| - 1];
      KeyConnsMembers(v, d, init, c);
      assert ks == init + [p];
      var tc := TargetConns(v, p, ListAt(d, p));
      assert c in tc <==> c.source == v && c.value == p && c.target in ListAt(d, p) by {
        if c.source == v && c.value == p && c.target in ListAt(d, p) {
          var i :| 0 <= i < |ListAt(d, p)| && ListAt(d, p)[i] == c.target;
          assert tc[i] == c;
        }
      }
    }
  }

  /** The connections `update_d3` visits are exactly the (property, node, target) triples
      of the graph's dictionaries. */
  lemma {:induction false} ConnsMembers(ss: seq<NodeState>, c: LinkKey)
    ensures c in Conns(ss) <==>
      exists n :: 0 <= n < |ss| && c.source == ss[n].value &&
        c.value in ss[n].properties.keys && c.target in ListAt(ss[n].properties, c.value)
  {
    if ss != [] {
      var init, st := ss[..|ss| - 1], ss[|ss| - 1];
      ConnsMembers(init, c);
      KeyConnsMembers(st.value, st.properties, st.properties.keys, c);
      assert ss == init + [st];
      if c in NodeConns(st) {
        assert ss[|ss| - 1] == st;
      }
      if exists n :: 0 <= n < |ss| && c.source == ss[n].value &&
           c.value in ss[n].properties.keys && c.target in ListAt(ss[n].properties, c.value) {
        var n :| 0 <= n < |ss| && c.source == ss[n].value &&
           c.value in ss[n].properties.keys && c.target in ListAt(ss[n].properties, c.value);
        if n < |init| {
          assert ss[n] == init[n];
        }
      }
    }
  }

  /** `d3_links.find((l) => l.source == s && l.target == t)`, on values. */
  predicate HasPair(links: seq<LinkKey>, source: string, target: string)
  {
    exists k :: 0 <= k < |links| && links[k].source == source && links[k].target == target
  }

  /** No two links join the same source and target. */
  predicate UniquePairs(links: seq<LinkKey>)
  {
    forall i, j :: 0 <= i < j < |links| ==> links[i].source != links[j].source || links[i].target != links[j].target
  }

  /** The body of the innermost loop of `update_d3`: a connection to a value without a
      simulation node, or to the placeholder, is skipped; otherwise the link is pushed
      unless one with the same source and target is already there. */
  function LinkStep(links: seq<LinkKey>, c: LinkKey, drawn: seq<string>): seq<LinkKey>
  {
    if c.target !in drawn || c.target == Placeholder || HasPair(links, c.source, c.target) then links
    else links + [c]
  }

  /** The links after visiting the connections `cs`. */
  function LinkAll(links: seq<LinkKey>, cs: seq<LinkKey>, drawn: seq<string>): seq<LinkKey>
  {
    if cs == [] then links else LinkStep(LinkAll(links, cs[..|cs| - 1], drawn), cs[|cs| - 1], drawn)
  }

  lemma LinkAllSnoc(links: seq<LinkKey>, cs: seq<LinkKey>, c: LinkKey, drawn: seq<string>)
    ensures LinkAll(links, cs + [c], drawn) == LinkStep(LinkAll(links, cs, drawn), c, drawn)
  {
    assert (cs + [c])[..|cs|] == cs;
  }

  /** Visiting `a` then `b` is visiting `a + b`. */
  lemma {:induction false} LinkAllAppend(links: seq<LinkKey>, a: seq<LinkKey>, b: seq<LinkKey>, drawn: seq<string>)
    ensures LinkAll(links, a + b, drawn) == LinkAll(LinkAll(links, a, drawn), b, drawn)
  {
    if b == [] {
      assert a + b == a;
    } else {
      var init, c := b[..|b| - 1], b[|b| - 1];
      LinkAllAppend(links, a, init, drawn);
      assert a + b == (a + init) + [c];
      LinkAllSnoc(links, a + init, c, drawn);
    }
  }

  /** Links are only ever appended. */
  lemma {:induction false} LinkAllGrows(links: seq<LinkKey>, cs: seq<LinkKey>, drawn: seq<string>)
    ensures links <= LinkAll(links, cs, drawn)
  {
    if cs != [] {
      LinkAllGrows(links, cs[..|cs| - 1], drawn);
    }
  }

  /** A link list without repeated (source, target) pairs keeps that property: a link is
      never added beside one joining the same nodes, whatever its property. */
  lemma {:induction false} LinkAllUnique(links: seq<LinkKey>, cs: seq<LinkKey>, drawn: seq<string>)
    requires UniquePairs(links)
    ensures UniquePairs(LinkAll(links, cs, drawn))
  {
    if cs != [] {
      LinkAllUnique(links, cs[..|cs| - 1], drawn);
    }
  }

  /** Each connection `cs[k]` to a simulated value other than the placeholder ends up with
      a link joining its source and target. */
  lemma {:induction false} LinkAllCovers(links: seq<LinkKey>, cs: seq<LinkKey>, drawn: seq<string>, k: int)
    requires 0 <= k < |cs| && cs[k].target in drawn && cs[k].target != Placeholder
    ensures HasPair(LinkAll(links, cs, drawn), cs[k].source, cs[k].target)
  {
    var init, c := cs[..|cs| - 1], cs[|cs| - 1];
    var m := LinkAll(links, init, drawn);
    if k < |cs| - 1 {
      LinkAllCovers(links, init, drawn, k);
      assert cs[k] == init[k];
      var j :| 0 <= j < |m| && m[j].source == cs[k].source && m[j].target == cs[k].target;
      assert LinkAll(links, cs, drawn)[j] == m[j];
    } else if !HasPair(m, c.source, c.target) {
      assert LinkAll(links, cs, drawn)[|m|] == c;
    }
  }

  /** Every link added is one of the connections, with a simulated target other than the
      placeholder. */
  lemma {:induction false} LinkAllOnly(links: seq<LinkKey>, cs: seq<LinkKey>, drawn: seq<string>, j: int)
    requires |links| <= j < |LinkAll(links, cs, drawn)|
    ensures exists k :: 0 <= k < |cs| && LinkAll(links, cs, drawn)[j] == cs[k]
    ensures LinkAll(links, cs, drawn)[j].target in drawn && LinkAll(links, cs, drawn)[j].target != Placeholder
  {
    var init, c := cs[..|cs| - 1], cs[|cs| - 1];
    var m := LinkAll(links, init, drawn);
    LinkAllGrows(links, init, drawn);
    if j < |m| {
      assert LinkAll(links, cs, drawn)[j] == m[j];
      LinkAllOnly(links, init, drawn, j);
      var k :| 0 <= k < |init| && m[j] == init[k];
      assert init[k] == cs[k];
    } else {
      assert LinkAll(links, cs, drawn)[j] == cs[|cs| - 1];
    }
  }

  // ---------------------------------------------------------------------------------
  // The objects

  /** `Graph_Node`: a value and its property dictionary. */
  class GraphNode {
    const value: string
    var properties: Dict

    constructor(uri: string)
      ensures value == uri && properties == EmptyDict
    {
      value := uri;
      properties := EmptyDict;
    }

    /** `add_properties`: an empty list for each property not yet present. */
    method AddProperties(ps: seq<string>)
      modifies this
      ensures properties == AddKeys(old(properties), ps)
    {
      for i := 0 to |ps|
        invariant properties == AddKeys(old(properties), ps[..i])
      {
        var p := ps[i];
        if p !in properties.lists {
          properties := Dict(properties.keys + [p], properties.lists[p := []]);
        }
        assert ps[..i + 1] == ps[..i] + [p];
        AddKeysSnoc(old(properties), ps[..i], p);
      }
      assert ps[..|ps|] == ps;
    }

    /** The getter `property_labels`, `Object.keys(this.properties)`: each present property
        once. */
    function PropertyLabels(): (r: seq<string>)
      reads this
      requires WellFormed(properties)
      ensures Distinct(r) && forall p :: p in r <==> p in properties.lists
    {
      properties.keys
    }

    /** `(properties[p] ??= []).push(o)`, as the body of `add_triple` does it. */
    method PushTarget(p: string, o: string)
      modifies this
      ensures properties == Push(old(properties), p, o)
    {
      if p !in properties.lists {
        properties := Dict(properties.keys + [p], properties.lists[p := []]);
      }
      properties := Dict(properties.keys, properties.lists[p := properties.lists[p] + [o]]);
    }
  }

  /** `SimNode`: a value and the coordinates and velocities d3 reads (unset until given). */
  class SimNode {
    const value: string
    var x: Option<real>
    var y: Option<real>
    var vx: Option<real>
    var vy: Option<real>

    constructor(uri: string)
      ensures value == uri && x == None && y == None && vx == None && vy == None
    {
      value := uri;
      x, y, vx, vy := None, None, None, None;
    }
  }

  /** `SimLink`: a property value joining two simulation nodes. */
  class SimLink {
    const value: string
    const source: SimNode
    const target: SimNode

    constructor(uri: string, source: SimNode, target: SimNode)
      ensures this.value == uri && this.source == source && this.target == target
    {
      this.value := uri;
      this.source := source;
      this.target := target;
    }
  }

  function ValuesOf(ns: seq<GraphNode>): (r: seq<string>)
    ensures |r| == |ns| && forall k :: 0 <= k < |ns| ==> r[k] == ns[k].value
  {
    seq(|ns|, k requires 0 <= k < |ns| => ns[k].value)
  }

  function SimValuesOf(ds: seq<SimNode>): (r: seq<string>)
    ensures |r| == |ds| && forall k :: 0 <= k < |ds| ==> r[k] == ds[k].value
  {
    seq(|ds|, k requires 0 <= k < |ds| => ds[k].value)
  }

  function KeyOf(l: SimLink): LinkKey
  {
    LinkKey(l.value, l.source.value, l.target.value)
  }

  function LinkKeys(ls: seq<SimLink>): (r: seq<LinkKey>)
    ensures |r| == |ls| && forall k :: 0 <= k < |ls| ==> r[k] == KeyOf(ls[k])
  {
    seq(|ls|, k requires 0 <= k < |ls| => KeyOf(ls[k]))
  }

  predicate UniqueNodes(ns: seq<GraphNode>)
  {
    forall i, j :: 0 <= i < j < |ns| ==> ns[i].value != ns[j].value
  }

  predicate UniqueSims(ds: seq<SimNode>)
  {
    forall i, j :: 0 <= i < j < |ds| ==> ds[i].value != ds[j].value
  }

  /** Every link joins two nodes of `ds`. */
  predicate LinksWithin(ls: seq<SimLink>, ds: seq<SimNode>)
  {
    forall k :: 0 <= k < |ls| ==> ls[k].source in ds && ls[k].target in ds
  }

  /** `nodes.find((n) => n.value == uri)`, as an index (-1 for none). */
  function FindNode(ns: seq<GraphNode>, uri: string): (r: int)
    ensures -1 <= r < |ns|
    ensures r == -1 <==> uri !in ValuesOf(ns)
    ensures r >= 0 ==> ns[r].value == uri && forall j :: 0 <= j < r ==> ns[j].value != uri
  {
    if ns == [] then -1
    else
      var r := FindNode(ns[..|ns| - 1], uri);
      assert ValuesOf(ns) == ValuesOf(ns[..|ns| - 1]) + [ns[|ns| - 1].value];
      if r >= 0 then r
      else if ns[|ns| - 1].value == uri then |ns| - 1
      else -1
  }

  /** `d3_nodes.find((n) => n.value == uri)`, as an index (-1 for none). */
  function FindSim(ds: seq<SimNode>, uri: string): (r: int)
    ensures -1 <= r < |ds|
    ensures r == -1 <==> uri !in SimValuesOf(ds)
    ensures r >= 0 ==> ds[r].value == uri && forall j :: 0 <= j < r ==> ds[j].value != uri
  {
    if ds == [] then -1
    else
      var r := FindSim(ds[..|ds| - 1], uri);
      assert SimValuesOf(ds) == SimValuesOf(ds[..|ds| - 1]) + [ds[|ds| - 1].value];
      if r >= 0 then r
      else if ds[|ds| - 1].value == uri then |ds| - 1
      else -1
  }

  /** With distinct values, two simulation nodes of `ds` with the same value are the same
      object, so `update_d3`'s identity check is a check on values. */
  lemma SameSim(ds: seq<SimNode>, a: SimNode, b: SimNode)
    requires UniqueSims(ds) && a in ds && b in ds && a.value == b.value
    ensures a == b
  {
    var i :| 0 <= i < |ds| && ds[i] == a;
    var j :| 0 <= j < |ds| && ds[j] == b;
    if i < j {
    } else if j < i {
    }
  }

  function Snapshot(ns: seq<GraphNode>): (r: seq<NodeState>)
    reads ns
    ensures |r| == |ns| && forall k :: 0 <= k < |ns| ==> r[k] == NodeState(ns[k].value, ns[k].properties)
  {
    seq(|ns|, k requires 0 <= k < |ns| reads ns => NodeState(ns[k].value, ns[k].properties))
  }

  lemma LookupSnapshot(ns: seq<GraphNode>, uri: string)
    ensures Lookup(Snapshot(ns), uri) == FindNode(ns, uri)
  {
  }

  lemma UniqueSnapshot(ns: seq<GraphNode>)
    ensures UniqueNodes(ns) <==> UniqueStates(Snapshot(ns))
  {
  }

  lemma SnapshotReplaced(ns: seq<GraphNode>, ss: seq<NodeState>, k: int)
    requires 0 <= k < |ns| == |ss|
    requires forall j :: 0 <= j < |ns| && j != k ==> ss[j] == NodeState(ns[j].value, ns[j].properties)
    ensures Snapshot(ns) == ss[k := NodeState(ns[k].value, ns[k].properties)]
  {
  }

  lemma SnapshotAppended(ns: seq<GraphNode>, ss: seq<NodeState>)
    requires |ns| == |ss| + 1
    requires forall j :: 0 <= j < |ss| ==> ss[j] == NodeState(ns[j].value, ns[j].properties)
    ensures Snapshot(ns) == ss + [NodeState(ns[|ss|].value, ns[|ss|].properties)]
  {
  }

  /** The graph nodes that have no simulation node with their value yet, in order
      (`new_nodes`). */
  function Unsimulated(ns: seq<GraphNode>, drawn: seq<string>): seq<GraphNode>
  {
    Filter((n: GraphNode) => n.value !in drawn, ns)
  }

  /** The simulation nodes whose value is still a graph node value. */
  function Surviving(ds: seq<SimNode>, values: seq<string>): seq<SimNode>
  {
    Filter((n: SimNode) => n.value in values, ds)
  }

  lemma SurvivingSnoc(ds: seq<SimNode>, d: SimNode, values: seq<string>)
    ensures Surviving(ds + [d], values) == Surviving(ds, values) + (if d.value in values then [d] else [])
  {
    FilterSnoc((n: SimNode) => n.value in values, ds, d);
  }

  /** When every simulation node has a graph value, none is dropped. */
  lemma SurvivingAll(ds: seq<SimNode>, values: seq<string>)
    requires forall k :: 0 <= k < |ds| ==> ds[k].value in values
    ensures Surviving(ds, values) == ds
  {
    FilterAllPass((n: SimNode) => n.value in values, ds);
  }

  lemma UnsimulatedSnoc(ns: seq<GraphNode>, n: GraphNode, drawn: seq<string>)
    ensures Unsimulated(ns + [n], drawn) == Unsimulated(ns, drawn) + (if n.value !in drawn then [n] else [])
  {
    FilterSnoc((n: GraphNode) => n.value !in drawn, ns, n);
  }

  function StateValues(ss: seq<NodeState>): (r: seq<string>)
    ensures |r| == |ss| && forall k :: 0 <= k < |ss| ==> r[k] == ss[k].value
  {
    seq(|ss|, k requires 0 <= k < |ss| => ss[k].value)
  }

  lemma ValuesSnapshot(ns: seq<GraphNode>)
    ensures ValuesOf(ns) == StateValues(Snapshot(ns))
  {
  }

  /** The invariant of a graph whose nodes are `ss`, with simulation nodes `ds` and links `ls`. */
  ghost predicate Coherent(ss: seq<NodeState>, ds: seq<SimNode>, ls: seq<SimLink>)
  {
    && UniqueStates(ss) && AllWellFormed(ss)
    && UniqueSims(ds) && (forall k :: 0 <= k < |ds| ==> ds[k].value in StateValues(ss))
    && LinksWithin(ls, ds) && UniquePairs(LinkKeys(ls))
  }

  /** The starting graph, with nothing drawn yet, is coherent and has no connections. */
  lemma StartCoherent(ss: seq<NodeState>)
    requires ss == [NodeState(StartUri, EmptyDict)]
    ensures Coherent(ss, [], []) && Conns(ss) == []
  {
    assert UniqueStates(ss) && AllWellFormed(ss);
    assert ss == [] + [NodeState(StartUri, EmptyDict)];
    ConnsSnoc([], NodeState(StartUri, EmptyDict));
  }

  /** Growing the graph nodes keeps the invariant. */
  lemma CoherentGrown(ss: seq<NodeState>, r: seq<NodeState>, ds: seq<SimNode>, ls: seq<SimLink>)
    requires Coherent(ss, ds, ls) && UniqueStates(r) && AllWellFormed(r) && Grown(ss, r)
    ensures Coherent(r, ds, ls)
  {
    forall k | 0 <= k < |ds| ensures ds[k].value in StateValues(r) {
      var j :| 0 <= j < |ss| && StateValues(ss)[j] == ds[k].value;
      assert StateValues(r)[j] == ds[k].value;
    }
  }

  /** New links that join simulation nodes, one per pair, keep the invariant. */
  lemma CoherentLinks(ss: seq<NodeState>, ds: seq<SimNode>, ls: seq<SimLink>, ls2: seq<SimLink>)
    requires Coherent(ss, ds, ls) && LinksWithin(ls2, ds) && UniquePairs(LinkKeys(ls2))
    ensures Coherent(ss, ds, ls2)
  {
  }

  /** Every value of `vs` has a simulation node in `ds`. */
  predicate AllDrawn(vs: seq<string>, ds: seq<SimNode>)
  {
    forall k :: 0 <= k < |vs| ==> vs[k] in SimValuesOf(ds)
  }

  /** Appending simulation nodes for graph nodes that had none keeps the invariant, and
      draws every graph value that was missing. */
  lemma SimsAdded(ss: seq<NodeState>, ds: seq<SimNode>, ext: seq<SimNode>, ls: seq<SimLink>, news: seq<GraphNode>)
    requires Coherent(ss, ds, ls) && UniqueNodes(news) && SimValuesOf(ext) == ValuesOf(news)
    requires forall k :: 0 <= k < |news| ==> news[k].value in StateValues(ss) && news[k].value !in SimValuesOf(ds)
    requires forall k :: 0 <= k < |ss| && ss[k].value !in SimValuesOf(ds) ==> ss[k].value in ValuesOf(news)
    ensures Coherent(ss, ds + ext, ls) && AllDrawn(StateValues(ss), ds + ext)
  {
    var r := ds + ext;
    assert SimValuesOf(r) == SimValuesOf(ds) + SimValuesOf(ext);
    forall i, j | 0 <= i < j < |r| ensures r[i].value != r[j].value {
      if j >= |ds| {
        assert r[j].value == news[j - |ds|].value;
        if i >= |ds| {
          assert r[i].value == news[i - |ds|].value;
        } else {
          assert r[i].value == SimValuesOf(ds)[i];
        }
      }
    }
    forall k | 0 <= k < |r| ensures r[k].value in StateValues(ss) {
      if k >= |ds| {
        assert r[k].value == news[k - |ds|].value;
      }
    }
  }

  /** `d3_links.find((l) => l.source == s && l.target == t)`: by object identity. */
  predicate HasLink(ls: seq<SimLink>, s: SimNode, t: SimNode)
  {
    exists k :: 0 <= k < |ls| && ls[k].source == s && ls[k].target == t
  }

  /** The position a new simulation node is given before it is pushed. */
  predicate AtRest(n: SimNode)
    reads n
  {
    n.x == Some(0.0) && n.y == Some(0.0) && n.vx == Some(0.0) && n.vy == Some(0.0)
  }

  /** `Graph`: the graph nodes, and the nodes and links of the simulation drawn from them. */
  class Graph {
    var nodes: seq<GraphNode>
    var d3Nodes: seq<SimNode>
    var d3Links: seq<SimLink>

    /** Graph node values are unique and their dictionaries well formed; simulation nodes
        have unique values, all of them graph values; links join simulation nodes, at most
        one per (source, target) pair. */
    ghost predicate Valid()
      reads this, nodes
    {
      Coherent(Snapshot(nodes), d3Nodes, d3Links)
    }

    /** Every graph node has a simulation node. */
    predicate Drawn()
      reads this
    {
      AllDrawn(ValuesOf(nodes), d3Nodes)
    }

    /** A fresh graph: the one starting node, drawn at rest, and no links. */
    constructor()
      ensures Valid() && Drawn()
      ensures |nodes| == 1 && nodes[0].value == StartUri && nodes[0].properties == EmptyDict
      ensures |d3Nodes| == 1 && d3Nodes[0].value == StartUri && AtRest(d3Nodes[0])
      ensures d3Links == []
    {
      var start := new GraphNode(StartUri);
      nodes := [start];
      d3Links := [];
      d3Nodes := [];
      new;
      assert Snapshot(nodes) == [NodeState(StartUri, EmptyDict)];
      StartCoherent(Snapshot(nodes));
      assert Unsimulated(nodes, []) == [start];
      UpdateD3();
    }

    /** `get_node`: the first graph node with value `uri`, if any. */
    function GetNode(uri: string): (r: GraphNode?)
      reads this
      ensures r == null <==> uri !in ValuesOf(nodes)
      ensures r != null ==> exists k :: 0 <= k < |nodes| && nodes[k] == r && r.value == uri &&
                                      forall j :: 0 <= j < k ==> nodes[j].value != uri
    {
      var k := FindNode(nodes, uri);
      if k < 0 then null else nodes[k]
    }

    /** `get_d3_node`: the first simulation node with value `uri`, if any. */
    function GetD3Node(uri: string): (r: SimNode?)
      reads this
      ensures r == null <==> uri !in SimValuesOf(d3Nodes)
      ensures r != null ==> exists k :: 0 <= k < |d3Nodes| && d3Nodes[k] == r && r.value == uri &&
                                      forall j :: 0 <= j < k ==> d3Nodes[j].value != uri
    {
      var k := FindSim(d3Nodes, uri);
      if k < 0 then null else d3Nodes[k]
    }

    /** The node with value `uri`, pushed as a new empty node when there is none. */
    method FindOrCreateNode(uri: string, ghost ss: seq<NodeState>) returns (node: GraphNode, ghost k: int)
      requires ss == Snapshot(nodes)
      modifies this
      ensures old(nodes) <= nodes && forall j :: |old(nodes)| <= j < |nodes| ==> fresh(nodes[j])
      ensures Snapshot(nodes) == Ensure(ss, uri)
      ensures 0 <= k < |nodes| && nodes[k] == node && k == Lookup(Snapshot(nodes), uri)
      ensures d3Nodes == old(d3Nodes) && d3Links == old(d3Links)
    {
      LookupSnapshot(nodes, uri);
      var found := GetNode(uri);
      if found != null {
        node, k := found, FindNode(nodes, uri);
      } else {
        node := new GraphNode(uri);
        k := |nodes|;
        Append(node);
        assert Lookup(Snapshot(nodes), uri) == |ss| by {
          assert Snapshot(nodes) == ss + [NodeState(uri, EmptyDict)];
        }
      }
    }

    /** `this.nodes.push(node)`. */
    method Append(node: GraphNode)
      modifies this
      ensures nodes == old(nodes) + [node]
      ensures Snapshot(nodes) == old(Snapshot(nodes)) + [NodeState(node.value, node.properties)]
      ensures d3Nodes == old(d3Nodes) && d3Links == old(d3Links)
    {
      ghost var ss := Snapshot(nodes);
      nodes := nodes + [node];
      SnapshotAppended(nodes, ss);
    }

    /** Pushes `o` onto the list under `p` of `nodes[k]`; no other node changes. */
    method PushAt(node: GraphNode, ghost k: int, p: string, o: string, ghost ss: seq<NodeState>)
      requires UniqueStates(ss) && ss == Snapshot(nodes) && 0 <= k < |nodes| && nodes[k] == node
      modifies node
      ensures Snapshot(nodes) == ss[k := NodeState(node.value, Push(ss[k].properties, p, o))]
    {
      UniqueSnapshot(nodes);
      node.PushTarget(p, o);
      SnapshotReplaced(nodes, ss, k);
    }

    /** One iteration of the `add_triple` loop. */
    method AddOne(t: Triple, ghost ss: seq<NodeState>)
      requires Valid() && ss == Snapshot(nodes)
      modifies this, nodes
      ensures Valid() && old(nodes) <= nodes && forall j :: |old(nodes)| <= j < |nodes| ==> fresh(nodes[j])
      ensures Snapshot(nodes) == TripleStep(ss, t)
      ensures d3Nodes == old(d3Nodes) && d3Links == old(d3Links)
    {
      var source, k := FindOrCreateNode(t.s, ss);
      ghost var n1 := nodes;
      ghost var s1 := Snapshot(nodes);
      EnsureKeeps(ss, t.s);
      PushAt(source, k, t.p, t.o, s1);
      ghost var s2 := Snapshot(nodes);
      var target, j := FindOrCreateNode(t.o, s2);
      forall i | |old(nodes)| <= i < |nodes| ensures fresh(nodes[i]) {
        if i < |n1| {
          assert nodes[i] == n1[i];
        }
      }
      TripleStepGrows(ss, t);
      CoherentGrown(ss, Snapshot(nodes), d3Nodes, d3Links);
    }

    /** `add_triple`: the graph nodes take in every triple, then the simulation is
        brought up to date. */
    method AddTriple(triples: seq<Triple>)
      requires Valid()
      modifies this, nodes
      ensures Valid() && Drawn()
      ensures Snapshot(nodes) == AddAll(old(Snapshot(nodes)), triples)
      ensures old(nodes) <= nodes && forall j :: |old(nodes)| <= j < |nodes| ==> fresh(nodes[j])
      ensures old(d3Nodes) <= d3Nodes
      ensures SimValuesOf(d3Nodes[|old(d3Nodes)|..]) == ValuesOf(Unsimulated(nodes, SimValuesOf(old(d3Nodes))))
      ensures forall k :: |old(d3Nodes)| <= k < |d3Nodes| ==> fresh(d3Nodes[k]) && AtRest(d3Nodes[k])
      ensures old(d3Links) <= d3Links
      ensures LinkKeys(d3Links) == LinkAll(LinkKeys(old(d3Links)), Conns(Snapshot(nodes)), SimValuesOf(d3Nodes))
    {
      AddAllTriples(triples);
      UpdateD3();
    }

    /** The loop of `add_triple`. */
    method AddAllTriples(triples: seq<Triple>)
      requires Valid()
      modifies this, nodes
      ensures Valid() && Snapshot(nodes) == AddAll(old(Snapshot(nodes)), triples)
      ensures old(nodes) <= nodes && forall j :: |old(nodes)| <= j < |nodes| ==> fresh(nodes[j])
      ensures d3Nodes == old(d3Nodes) && d3Links == old(d3Links)
    {
      ghost var s0 := Snapshot(nodes);
      for i := 0 to |triples|
        invariant Valid() && old(nodes) <= nodes && forall j :: |old(nodes)| <= j < |nodes| ==> fresh(nodes[j])
        invariant Snapshot(nodes) == AddAll(s0, triples[..i])
        invariant d3Nodes == old(d3Nodes) && d3Links == old(d3Links)
      {
        AddAllPrefix(s0, triples, i);
        ghost var before := nodes;
        AddOne(triples[i], Snapshot(nodes));
        forall j | |old(nodes)| <= j < |nodes| ensures fresh(nodes[j]) {
          if j < |before| {
            assert nodes[j] == before[j];
          }
        }
      }
      assert triples[..|triples|] == triples;
    }

    /** `update_d3`: drops simulation nodes without a graph node, adds one at rest for each
        graph node without one, then links each connection. */
    method UpdateD3()
      requires Valid()
      modifies this
      ensures Valid() && Drawn()
      ensures nodes == old(nodes)
      ensures old(d3Nodes) <= d3Nodes
      ensures SimValuesOf(d3Nodes[|old(d3Nodes)|..]) == ValuesOf(Unsimulated(nodes, SimValuesOf(old(d3Nodes))))
      ensures forall k :: |old(d3Nodes)| <= k < |d3Nodes| ==> fresh(d3Nodes[k]) && AtRest(d3Nodes[k])
      ensures old(d3Links) <= d3Links
      ensures LinkKeys(d3Links) == LinkAll(LinkKeys(old(d3Links)), Conns(Snapshot(nodes)), SimValuesOf(d3Nodes))
    {
      ghost var ss := Snapshot(nodes);
      DrawNodes(ss);
      ghost var links := d3Links;
      LinkAllNodes(ss);
      LinkAllUnique(LinkKeys(links), Conns(ss), SimValuesOf(d3Nodes));
      CoherentLinks(ss, d3Nodes, links, d3Links);
    }

    /** The first half of `update_d3`: the filter, `new_nodes` and the loop over it. */
    method DrawNodes(ghost ss: seq<NodeState>)
      requires Valid() && ss == Snapshot(nodes)
      modifies this
      ensures Coherent(ss, d3Nodes, d3Links) && Drawn() && Snapshot(nodes) == ss
      ensures nodes == old(nodes) && d3Links == old(d3Links)
      ensures old(d3Nodes) <= d3Nodes
      ensures SimValuesOf(d3Nodes[|old(d3Nodes)|..]) == ValuesOf(Unsimulated(nodes, SimValuesOf(old(d3Nodes))))
      ensures forall k :: |old(d3Nodes)| <= k < |d3Nodes| ==> fresh(d3Nodes[k]) && AtRest(d3Nodes[k])
    {
      ValuesSnapshot(nodes);
      UniqueSnapshot(nodes);
      var kept := SurvivingSims();
      SurvivingAll(d3Nodes, ValuesOf(nodes));
      d3Nodes := kept;
      var news := NewNodes();
      UnsimulatedUnique(nodes, SimValuesOf(d3Nodes));
      UnsimulatedCovers(nodes, SimValuesOf(d3Nodes));
      AddSims(news, ss);
      SimsAdded(ss, kept, d3Nodes[|kept|..], d3Links, news);
      assert d3Nodes == kept + d3Nodes[|kept|..];
    }

    /** `this.d3_nodes.filter((n) => this.nodes.find((nn) => nn.value == n.value))`. */
    method SurvivingSims() returns (kept: seq<SimNode>)
      ensures kept == Surviving(d3Nodes, ValuesOf(nodes))
    {
      kept := [];
      for i := 0 to |d3Nodes|
        invariant kept == Surviving(d3Nodes[..i], ValuesOf(nodes))
      {
        var n := d3Nodes[i];
        if GetNode(n.value) != null {
          kept := kept + [n];
        }
        assert d3Nodes[..i + 1] == d3Nodes[..i] + [n];
        SurvivingSnoc(d3Nodes[..i], n, ValuesOf(nodes));
      }
      assert d3Nodes[..|d3Nodes|] == d3Nodes;
    }

    /** `new_nodes`: `this.nodes.filter((n) => !this.d3_nodes.find((nn) => nn.value == n.value))`. */
    method NewNodes() returns (news: seq<GraphNode>)
      ensures news == Unsimulated(nodes, SimValuesOf(d3Nodes))
    {
      news := [];
      for i := 0 to |nodes|
        invariant news == Unsimulated(nodes[..i], SimValuesOf(d3Nodes))
      {
        var n := nodes[i];
        if GetD3Node(n.value) == null {
          news := news + [n];
        }
        assert nodes[..i + 1] == nodes[..i] + [n];
        UnsimulatedSnoc(nodes[..i], n, SimValuesOf(d3Nodes));
      }
      assert nodes[..|nodes|] == nodes;
    }

    /** The loop pushing a simulation node at rest for each of `news`. */
    method AddSims(news: seq<GraphNode>, ghost ss: seq<NodeState>)
      requires ss == Snapshot(nodes)
      modifies this
      ensures Snapshot(nodes) == ss
      ensures old(d3Nodes) <= d3Nodes && SimValuesOf(d3Nodes[|old(d3Nodes)|..]) == ValuesOf(news)
      ensures forall k :: |old(d3Nodes)| <= k < |d3Nodes| ==> fresh(d3Nodes[k]) && AtRest(d3Nodes[k])
      ensures nodes == old(nodes) && d3Links == old(d3Links)
    {
      for i := 0 to |news|
        invariant old(d3Nodes) <= d3Nodes && |d3Nodes| == |old(d3Nodes)| + i
        invariant forall k :: 0 <= k < i ==> d3Nodes[|old(d3Nodes)| + k].value == news[k].value
        invariant forall k :: |old(d3Nodes)| <= k < |d3Nodes| ==> fresh(d3Nodes[k]) && AtRest(d3Nodes[k])
        invariant nodes == old(nodes) && d3Links == old(d3Links)
      {
        var n := new SimNode(news[i].value);
        n.x := Some(0.0);
        n.y := Some(0.0);
        n.vx := Some(0.0);
        n.vy := Some(0.0);
        d3Nodes := d3Nodes + [n];
      }
    }

    /** The three nested loops of `update_d3` over nodes, their keys and their lists. */
    method LinkAllNodes(ghost ss: seq<NodeState>)
      requires ss == Snapshot(nodes) && AllWellFormed(ss)
      requires UniqueSims(d3Nodes) && Drawn() && LinksWithin(d3Links, d3Nodes)
      modifies this
      ensures nodes == old(nodes) && d3Nodes == old(d3Nodes) && Snapshot(nodes) == ss
      ensures old(d3Links) <= d3Links && LinksWithin(d3Links, d3Nodes)
      ensures LinkKeys(d3Links) == LinkAll(LinkKeys(old(d3Links)), Conns(ss), SimValuesOf(d3Nodes))
    {
      for i := 0 to |nodes|
        invariant nodes == old(nodes) && d3Nodes == old(d3Nodes)
        invariant old(d3Links) <= d3Links && LinksWithin(d3Links, d3Nodes)
        invariant LinkKeys(d3Links) == LinkAll(LinkKeys(old(d3Links)), Conns(ss[..i]), SimValuesOf(d3Nodes))
      {
        var node := nodes[i];
        assert ss[i] == NodeState(node.value, node.properties);
        ghost var before := LinkKeys(d3Links);
        LinkNode(node.value, node.properties);
        ConnsPrefix(ss, i);
        LinkAllAppend(LinkKeys(old(d3Links)), Conns(ss[..i]), NodeConns(ss[i]), SimValuesOf(d3Nodes));
      }
      assert ss[..|nodes|] == ss;
    }

    /** `for (let property of Object.keys(node.properties))`. */
    method LinkNode(v: string, d: Dict)
      requires WellFormed(d) && v in SimValuesOf(d3Nodes) && UniqueSims(d3Nodes) && LinksWithin(d3Links, d3Nodes)
      modifies this
      ensures nodes == old(nodes) && d3Nodes == old(d3Nodes)
      ensures old(d3Links) <= d3Links && LinksWithin(d3Links, d3Nodes)
      ensures LinkKeys(d3Links) == LinkAll(old(LinkKeys(d3Links)), KeyConns(v, d, d.keys), SimValuesOf(d3Nodes))
    {
      for j := 0 to |d.keys|
        invariant nodes == old(nodes) && d3Nodes == old(d3Nodes)
        invariant old(d3Links) <= d3Links && LinksWithin(d3Links, d3Nodes)
        invariant LinkKeys(d3Links) == LinkAll(old(LinkKeys(d3Links)), KeyConns(v, d, d.keys[..j]), SimValuesOf(d3Nodes))
      {
        var p := d.keys[j];
        LinkTargets(v, p, d.lists[p]);
        KeyConnsPrefix(v, d, j);
        LinkAllAppend(old(LinkKeys(d3Links)), KeyConns(v, d, d.keys[..j]), TargetConns(v, p, d.lists[p]), SimValuesOf(d3Nodes));
      }
      assert d.keys[..|d.keys|] == d.keys;
    }

    /** `for (let connection of node.properties[property])`. */
    method LinkTargets(v: string, p: string, cs: seq<string>)
      requires v in SimValuesOf(d3Nodes) && UniqueSims(d3Nodes) && LinksWithin(d3Links, d3Nodes)
      modifies this
      ensures nodes == old(nodes) && d3Nodes == old(d3Nodes)
      ensures old(d3Links) <= d3Links && LinksWithin(d3Links, d3Nodes)
      ensures LinkKeys(d3Links) == LinkAll(old(LinkKeys(d3Links)), TargetConns(v, p, cs), SimValuesOf(d3Nodes))
    {
      for m := 0 to |cs|
        invariant nodes == old(nodes) && d3Nodes == old(d3Nodes)
        invariant old(d3Links) <= d3Links && LinksWithin(d3Links, d3Nodes)
        invariant LinkKeys(d3Links) == LinkAll(old(LinkKeys(d3Links)), TargetConns(v, p, cs[..m]), SimValuesOf(d3Nodes))
      {
        LinkConnection(v, p, cs[m]);
        TargetConnsPrefix(v, p, cs, m);
        LinkAllSnoc(old(LinkKeys(d3Links)), TargetConns(v, p, cs[..m]), LinkKey(p, v, cs[m]), SimValuesOf(d3Nodes));
      }
      assert cs[..|cs|] == cs;
    }

    /** The body of the innermost loop: skip a target without a simulation node or equal to
        the placeholder, else push the link unless one joins the same two nodes. */
    method LinkConnection(v: string, p: string, c: string)
      requires v in SimValuesOf(d3Nodes) && UniqueSims(d3Nodes) && LinksWithin(d3Links, d3Nodes)
      modifies this
      ensures nodes == old(nodes) && d3Nodes == old(d3Nodes)
      ensures old(d3Links) <= d3Links && LinksWithin(d3Links, d3Nodes)
      ensures LinkKeys(d3Links) == LinkStep(old(LinkKeys(d3Links)), LinkKey(p, v, c), SimValuesOf(d3Nodes))
    {
      var target := GetD3Node(c);
      if target == null || c == Placeholder {
        return;
      }
      var source := GetD3Node(v);
      var link := new SimLink(p, source, target);
      SameLink(d3Links, d3Nodes, source, target);
      if !HasLink(d3Links, link.source, link.target) {
        d3Links := d3Links + [link];
      }
    }
  }

  /** Between links that join nodes of `ds`, which have distinct values, the identity
      comparison of endpoints is the comparison of their values. */
  lemma SameLink(ls: seq<SimLink>, ds: seq<SimNode>, s: SimNode, t: SimNode)
    requires UniqueSims(ds) && LinksWithin(ls, ds) && s in ds && t in ds
    ensures HasLink(ls, s, t) <==> HasPair(LinkKeys(ls), s.value, t.value)
  {
    if HasPair(LinkKeys(ls), s.value, t.value) {
      var k :| 0 <= k < |ls| && LinkKeys(ls)[k].source == s.value && LinkKeys(ls)[k].target == t.value;
      SameSim(ds, ls[k].source, s);
      SameSim(ds, ls[k].target, t);
    }
  }

  /** The nodes `update_d3` adds a simulation node for have distinct values. */
  lemma {:induction false} UnsimulatedUnique(ns: seq<GraphNode>, drawn: seq<string>)
    requires UniqueNodes(ns)
    ensures UniqueNodes(Unsimulated(ns, drawn))
  {
    var p := (n: GraphNode) => n.value !in drawn;
    if ns != [] {
      UnsimulatedUnique(ns[1..], drawn);
      var r := Unsimulated(ns, drawn);
      var rest := Unsimulated(ns[1..], drawn);
      FilterMembers(p, ns[1..]);
      assert r == (if p(ns[0]) then [ns[0]] else []) + rest;
      forall k | 0 <= k < |rest| ensures rest[k].value != ns[0].value {
        var j :| 0 <= j < |ns[1..]| && ns[1..][j] == rest[k];
        assert ns[j + 1] == rest[k];
      }
    }
  }

  /** The nodes `update_d3` adds a simulation node for are exactly the graph nodes
      without one. */
  lemma UnsimulatedCovers(ns: seq<GraphNode>, drawn: seq<string>)
    ensures var r := Unsimulated(ns, drawn);
      && (forall k :: 0 <= k < |r| ==> r[k].value in ValuesOf(ns) && r[k].value !in drawn)
      && (forall k :: 0 <= k < |ns| && ns[k].value !in drawn ==> ns[k].value in ValuesOf(r))
  {
    var p := (n: GraphNode) => n.value !in drawn;
    FilterMembers(p, ns);
    var r := Unsimulated(ns, drawn);
    forall k | 0 <= k < |r| ensures r[k].value in ValuesOf(ns) {
      var i :| 0 <= i < |ns| && ns[i] == r[k];
      assert ValuesOf(ns)[i] == r[k].value;
    }
    forall k | 0 <= k < |ns| && ns[k].value !in drawn ensures ns[k].value in ValuesOf(r) {
      var i :| 0 <= i < |r| && r[i] == ns[k];
      assert ValuesOf(r)[i] == ns[k].value;
    }
  }
}
