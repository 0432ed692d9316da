/**
 The shared canvas (web/src/lib/flow-collab.ts `writeGraph`, `readGraph`): a graph is reconciled
 into two keyed maps and read back from them.
 */
module FlowCollab {
  import opened FlowGraph
  import CanvasEdits

  /** The items under their keys; of two with one key the later one stands. */
  function Keyed<T>(items: seq<T>, key: T -> string): (m: map<string, T>)
    ensures forall k :: k in m ==> m[k] in items && key(m[k]) == k
    ensures forall i :: 0 <= i < |items| ==> key(items[i]) in m
  {
    if items == [] then map[]
    else
      var init, last := items[..|items| - 1], items[|items| - 1];
      assert items == init + [last];
      Keyed(init, key)[key(last) := last]
  }

  function NodeMap(nodes: seq<Node>): map<string, Node> { Keyed(nodes, (n: Node) => n.id) }

  function EdgeMap(edges: seq<Edge>): map<string, Edge> { Keyed(edges, (e: Edge) => CanvasEdits.EdgeKey(e)) }

  method DropOthers<T>(earlier: map<string, T>, ids: set<string>) returns (m: map<string, T>)
    ensures m.Keys <= ids
  {
    m := earlier;
    var todo := m.Keys;
    while todo != {}
      invariant todo <= m.Keys
      invariant forall id :: id in m && id !in todo ==> id in ids
      decreases todo
    {
      var id :| id in todo;
      todo := todo - {id};
      if id !in ids {
        m := m - {id};
      }
    }
  }

  /** Half of `writeGraph`: drop the keys no item has, then set every item. */
  method Reconcile<T(==)>(earlier: map<string, T>, items: seq<T>, key: T -> string) returns (m: map<string, T>)
    ensures m == Keyed(items, key)
  {
    hide *;
    m := DropOthers(earlier, set i | 0 <= i < |items| :: key(items[i]));
    ghost var kept := m;
    NothingKeyed(kept, key);
    for i := 0 to |items|
      invariant m == kept + Keyed(items[..i], key)
    {
      assert items[..i + 1] == items[..i] + [items[i]];
      KeyedSnoc(items[..i], items[i], key);
      PutOver(kept, Keyed(items[..i], key), key(items[i]), items[i]);
      m := m[key(items[i]) := items[i]];
    }
    assert items[..|items|] == items;
    AllKeysListed(items, key);
    Overwritten(kept, Keyed(items, key));
  }

  lemma {:induction false} AllKeysListed<T>(items: seq<T>, key: T -> string)
    ensures (set i | 0 <= i < |items| :: key(items[i])) <= Keyed(items, key).Keys
  {
    hide Keyed;
  }

  lemma {:induction false} PutOver<T>(m: map<string, T>, over: map<string, T>, k: string, x: T)
    ensures (m + over)[k := x] == m + over[k := x]
  {
  }

  lemma {:induction false} Overwritten<T>(m: map<string, T>, over: map<string, T>)
    requires m.Keys <= over.Keys
    ensures m + over == over
  {
  }

  lemma {:induction false} NothingKeyed<T>(m: map<string, T>, key: T -> string)
    ensures m + Keyed([], key) == m
  {
  }

  lemma {:induction false} KeyedSnoc<T>(items: seq<T>, last: T, key: T -> string)
    ensures Keyed(items + [last], key) == Keyed(items, key)[key(last) := last]
  {
    assert (items + [last])[..|items|] == items;
  }

  class SharedFlow {
    var nodes: map<string, Node>
    var edges: map<string, Edge>

    constructor ()
      ensures nodes == map[] && edges == map[]
    {
      nodes, edges := map[], map[];
    }

    /** Whatever the maps held before, they hold the graph's own nodes and edges after. */
    method WriteGraph(g: Graph)
      modifies this
      ensures Holds(g)
    {
      nodes := Reconcile(nodes, g.nodes, (n: Node) => n.id);
      edges := Reconcile(edges, g.edges, (e: Edge) => CanvasEdits.EdgeKey(e));
    }

    /** The maps' values, whose order is the map's own. After a write of a graph whose ids and keys
        tell its parts apart it reads back that graph's nodes and edges, whatever was there before. */
    method ReadGraph() returns (ns: set<Node>, es: set<Edge>)
      ensures forall g: Graph :: Holds(g) && Tellable(g) ==>
                (forall n :: n in ns <==> n in g.nodes) && (forall e :: e in es <==> e in g.edges)
    {
      ns, es := nodes.Values, edges.Values;
      forall g: Graph | Holds(g) && Tellable(g)
        ensures (forall n :: n in ns <==> n in g.nodes) && (forall e :: e in es <==> e in g.edges)
      {
        ReadAfterWrite(g);
      }
    }

    /** The maps are those a write of g leaves. */
    ghost predicate Holds(g: Graph)
      reads this
    {
      nodes == NodeMap(g.nodes) && edges == EdgeMap(g.edges)
    }
  }

  ghost predicate Tellable(g: Graph) {
    CanvasEdits.UniqueIds(g.nodes) && CanvasEdits.UniqueEdges(g.edges) && CanvasEdits.ApartHeads(Sources(g.edges))
  }

  ghost predicate Apart<T>(items: seq<T>, key: T -> string) {
    forall i, j :: 0 <= i < j < |items| ==> key(items[i]) != key(items[j])
  }

  /** Every item is kept, each once, exactly when the keys tell them apart. */
  lemma {:induction false} AllKept<T>(items: seq<T>, key: T -> string)
    ensures |Keyed(items, key)| == |items| <==> Apart(items, key)
    ensures Apart(items, key) ==> Keyed(items, key).Values == (set i | 0 <= i < |items| :: items[i])
  {
    CountKept(items, key);
    hide Keyed;
    if Apart(items, key) {
      forall i | 0 <= i < |items| ensures items[i] in Keyed(items, key).Values {
        KeptAt(items, key, i);
      }
    }
  }

  lemma {:induction false} KeptAt<T>(items: seq<T>, key: T -> string, i: nat)
    requires Apart(items, key) && i < |items|
    ensures items[i] in Keyed(items, key).Values
  {
    hide Keyed;
    var m, k := Keyed(items, key), key(items[i]);
    var x := m[k];
    var j :| 0 <= j < |items| && items[j] == x;
    assert m[k] == items[i];
    assert k in m.Keys;
  }

  lemma {:induction false} CountKept<T>(items: seq<T>, key: T -> string)
    ensures |Keyed(items, key)| <= |items|
    ensures |Keyed(items, key)| == |items| <==> Apart(items, key)
  {
    if items == [] {
      assert Apart(items, key) && |Keyed(items, key)| == 0;
    } else {
      var before, last := items[..|items| - 1], items[|items| - 1];
      CountKept(before, key);
      hide *;
      assert items == before + [last];
      KeyedSnoc(before, last, key);
      LastApart(before, last, key);
      CountUpdated(Keyed(before, key), key(last), last);
    }
  }

  lemma {:induction false} CountUpdated<T>(m: map<string, T>, k: string, x: T)
    ensures |m[k := x]| == if k in m then |m| else |m| + 1
  {
    if k in m {
      assert m[k := x].Keys == m.Keys;
    } else {
      assert m[k := x].Keys == m.Keys + {k};
    }
    assert |m[k := x]| == |m[k := x].Keys| && |m| == |m.Keys|;
  }

  lemma {:induction false} LastApart<T>(before: seq<T>, last: T, key: T -> string)
    ensures Apart(before + [last], key) <==> Apart(before, key) && key(last) !in Keyed(before, key)
  {
    var all, m := before + [last], Keyed(before, key);
    if key(last) in m {
      var j :| 0 <= j < |before| && before[j] == m[key(last)];
      assert key(all[j]) == key(all[|before|]);
    } else {
      forall i, j | 0 <= i < j < |all| && Apart(before, key) ensures key(all[i]) != key(all[j]) {
        if j == |before| {
          assert key(before[i]) in m;
        } else {
          assert key(before[i]) != key(before[j]);
        }
      }
    }
    if Apart(all, key) {
      forall i, j | 0 <= i < j < |before| ensures key(before[i]) != key(before[j]) {
        assert key(all[i]) != key(all[j]);
      }
    }
  }

  function Sources(edges: seq<Edge>): (from: set<string>)
    ensures forall e :: e in edges ==> e.from in from
  {
    set e | e in edges :: e.from
  }

  /** Distinct edges of sources whose heads are apart all have their own key. */
  lemma {:induction false} EdgesApart(edges: seq<Edge>, sources: set<string>)
    requires CanvasEdits.UniqueEdges(edges) && CanvasEdits.ApartHeads(sources)
    requires forall e :: e in edges ==> e.from in sources
    ensures Apart(edges, (e: Edge) => CanvasEdits.EdgeKey(e))
  {
    hide CanvasEdits.EdgeKey, CanvasEdits.ApartHeads;
    forall i, j | 0 <= i < j < |edges| ensures CanvasEdits.EdgeKey(edges[i]) != CanvasEdits.EdgeKey(edges[j]) {
      if CanvasEdits.EdgeKey(edges[i]) == CanvasEdits.EdgeKey(edges[j]) {
        CanvasEdits.KeysTellApart(sources, edges[i], edges[j]);
      }
    }
  }

  /** Exactly when no graph with edges from these sources can lose one on the way: heads are apart. */
  lemma {:induction false} WhenEdgesAreKept(sources: set<string>)
    ensures (forall edges: seq<Edge> ::
               CanvasEdits.UniqueEdges(edges) && (forall e :: e in edges ==> e.from in sources) ==>
               |EdgeMap(edges)| == |edges|)
            <==> CanvasEdits.ApartHeads(sources)
  {
    hide Keyed, CanvasEdits.EdgeKey, CanvasEdits.Head;
    if CanvasEdits.ApartHeads(sources) {
      forall edges: seq<Edge> | CanvasEdits.UniqueEdges(edges) && forall e :: e in edges ==> e.from in sources
        ensures |EdgeMap(edges)| == |edges|
      {
        EdgesApart(edges, sources);
        AllKept(edges, (e: Edge) => CanvasEdits.EdgeKey(e));
      }
    } else {
      var a, b, v, w :| a in sources && b in sources && a != b && CanvasEdits.Head(a, v) <= CanvasEdits.Head(b, w);
      var e, f := CanvasEdits.Collision(a, v, b, w);
      var edges := [e, f];
      AllKept(edges, (e: Edge) => CanvasEdits.EdgeKey(e));
      assert !Apart(edges, (e: Edge) => CanvasEdits.EdgeKey(e)) by {
        assert CanvasEdits.EdgeKey(edges[0]) == CanvasEdits.EdgeKey(edges[1]);
      }
      assert CanvasEdits.UniqueEdges(edges) && |EdgeMap(edges)| != |edges|;
    }
  }

  /**
   What is written is what is read: for a graph with unique ids and edges whose sources' heads are
   apart the maps hold each of its nodes and edges, nothing else, and as many of them.
   */
  lemma {:induction false} ReadAfterWrite(g: Graph)
    requires Tellable(g)
    ensures NodeMap(g.nodes).Values == (set i | 0 <= i < |g.nodes| :: g.nodes[i]) && |NodeMap(g.nodes)| == |g.nodes|
    ensures EdgeMap(g.edges).Values == (set i | 0 <= i < |g.edges| :: g.edges[i]) && |EdgeMap(g.edges)| == |g.edges|
  {
    hide Keyed, CanvasEdits.EdgeKey, CanvasEdits.ApartHeads, Sources;
    AllKept(g.nodes, (n: Node) => n.id);
    EdgesApart(g.edges, Sources(g.edges));
    AllKept(g.edges, (e: Edge) => CanvasEdits.EdgeKey(e));
  }

  /** Every graph the canvas's edits can lead to is such a graph. */
  lemma {:induction false} WellFormedIsApart(g: Graph)
    requires CanvasEdits.WellFormed(g)
    ensures Tellable(g)
  {
    hide CanvasEdits.ApartHeads, CanvasEdits.SafeId;
    forall id | id in Sources(g.edges) ensures CanvasEdits.SafeId(id) {
      var e :| e in g.edges && e.from == id;
      CanvasEdits.SourceIsSafe(g, e);
    }
    CanvasEdits.SafeIdsAreApart(Sources(g.edges));
  }

  /** Colons in ids can lose an edge on the way. */
  lemma {:induction false} ColonsLoseAnEdge()
    ensures var edges := [Edge("a", "::b", Always), Edge("a::", "b", Always)];
            edges[0] !in EdgeMap(edges).Values
  {
    var e, f := Edge("a", "::b", Always), Edge("a::", "b", Always);
    CanvasEdits.ColonsCollide();
    KeyedSnoc([e], f, (x: Edge) => CanvasEdits.EdgeKey(x));
    assert [e] + [f] == [e, f];
    assert forall k :: k in EdgeMap([e, f]) && EdgeMap([e, f])[k] == e ==> k == CanvasEdits.EdgeKey(e);
  }
}
