/** The canvas's search for the nodes a run can get to (automation-canvas.tsx `reachableSet`). */
module Reachability {
  import opened FlowGraph

  /** Targets of the edges that leave `id`, in edge order. */
  function Targets(edges: seq<Edge>, id: string): seq<string> {
    if edges == [] then []
    else
      var last := edges[|edges| - 1];
      Targets(edges[..|edges| - 1], id) + (if last.from == id then [last.to] else [])
  }

  lemma {:induction false} TargetsAreEdges(edges: seq<Edge>, id: string, t: string)
    ensures t in Targets(edges, id) <==> exists e :: e in edges && e.from == id && e.to == t
  {
    if edges != [] {
      var init, last := edges[..|edges| - 1], edges[|edges| - 1];
      TargetsAreEdges(init, id, t);
      assert edges == init + [last];
    }
  }

  /** The lists are the targets, node by node. */
  ghost predicate Lists(edges: seq<Edge>, adj: map<string, seq<string>>) {
    forall id :: (if id in adj then adj[id] else []) == Targets(edges, id)
  }

  lemma {:induction false} ListsNothing()
    ensures Lists([], map[])
  {
  }

  lemma {:induction false} ListsEdge(edges: seq<Edge>, e: Edge, adj: map<string, seq<string>>)
    requires Lists(edges, adj)
    ensures Lists(edges + [e], adj[e.from := (if e.from in adj then adj[e.from] else []) + [e.to]])
  {
    assert (edges + [e])[..|edges|] == edges;
  }

  method Adjacency(edges: seq<Edge>) returns (adj: map<string, seq<string>>)
    ensures Lists(edges, adj)
  {
    hide *;
    adj := map[];
    ListsNothing();
    assert edges[..0] == [];
    for i := 0 to |edges|
      invariant Lists(edges[..i], adj)
    {
      assert edges[..i + 1] == edges[..i] + [edges[i]];
      var e := edges[i];
      ListsEdge(edges[..i], e, adj);
      var list := if e.from in adj then adj[e.from] else [];
      adj := adj[e.from := list + [e.to]];
    }
    assert edges[..|edges|] == edges;
  }

  ghost predicate Distinct(s: seq<string>) {
    forall i, j :: 0 <= i < j < |s| ==> s[i] != s[j]
  }

  lemma {:induction false} DistinctFits(s: seq<string>, u: set<string>)
    requires Distinct(s) && forall x :: x in s ==> x in u
    ensures |s| <= |u|
  {
    if s != [] {
      var init, last := s[..|s| - 1], s[|s| - 1];
      assert forall x :: x in init ==> x in s;
      DistinctFits(init, u - {last});
    }
  }

  /** Every id the search can ever see. */
  ghost function Universe(g: Graph): set<string> {
    {"trigger"} + set e | e in g.edges :: e.to
  }

  /**
   What has been found after `head` ids were taken from the queue: `order` lists every id ever
   enqueued, each once; all of them are reached, and the taken ones have all their targets found.
   */
  ghost predicate Found(g: Graph, order: seq<string>, head: nat, seen: set<string>) {
    && Distinct(order) && head <= |order|
    && (forall x :: x in order <==> x in seen)
    && "trigger" in seen && seen <= Universe(g)
    && (forall x :: x in seen ==> Reaches(g, "trigger", x))
    && (forall e :: e in g.edges && e.from in order[..head] ==> e.to in seen)
  }

  lemma {:induction false} FindOne(g: Graph, order: seq<string>, head: nat, seen: set<string>, id: string, t: string)
    requires Found(g, order, head, seen) && id in seen && t !in seen
    requires t in Targets(g.edges, id)
    ensures Found(g, order + [t], head, seen + {t})
  {
    TargetsAreEdges(g.edges, id, t);
    assert HasEdge(g, id, t);
    ReachesNext(g, "trigger", id, t);
    assert (order + [t])[..head] == order[..head];
  }

  lemma {:induction false} TakeOne(g: Graph, order: seq<string>, head: nat, seen: set<string>)
    requires Found(g, order, head, seen) && head < |order|
    requires forall t :: t in Targets(g.edges, order[head]) ==> t in seen
    ensures Found(g, order, head + 1, seen)
  {
    forall e | e in g.edges && e.from in order[..head + 1] ensures e.to in seen {
      if e.from !in order[..head] {
        assert e.from == order[head];
        TargetsAreEdges(g.edges, order[head], e.to);
      }
    }
  }

  lemma {:induction false} AllFound(g: Graph, order: seq<string>, seen: set<string>, id: string)
    requires Found(g, order, |order|, seen)
    ensures id in seen <==> Reaches(g, "trigger", id)
  {
    if Reaches(g, "trigger", id) {
      var p :| Connects(g, p, "trigger", id);
      assert order[..|order|] == order;
      ClosedHoldsPath(g, seen, p);
    }
  }

  /**
   Exactly the ids connected to the trigger by a walk along edges, for every graph, cyclic ones
   included. `order` is every id ever enqueued: each was enqueued once, which is why the search ends.
   */
  method ReachableSet(g: Graph) returns (seen: set<string>, ghost order: seq<string>)
    ensures forall id :: id in seen <==> Reaches(g, "trigger", id)
    ensures Distinct(order) && forall id :: id in seen <==> id in order
  {
    hide Found, Targets, Universe, Reaches, Distinct;
    var adj := Adjacency(g.edges);
    seen := {"trigger"};
    var q := ["trigger"];
    ghost var head := 0;
    order := ["trigger"];
    StartFound(g);
    while |q| > 0
      invariant Found(g, order, head, seen)
      invariant head <= |order| && q == order[head..]
      decreases |Universe(g)| - head
    {
      Bounded(g, order, head, seen);
      var id := q[0];
      q := q[1..];
      assert id == order[head];
      var targets := if id in adj then adj[id] else [];
      assert targets == Targets(g.edges, id);
      for i := 0 to |targets|
        invariant Found(g, order, head, seen) && head < |order| && order[head] == id && id in seen
        invariant q == order[head + 1..]
        invariant forall k :: 0 <= k < i ==> targets[k] in seen
      {
        var t := targets[i];
        if t !in seen {
          FindOne(g, order, head, seen, id, t);
          seen := seen + {t};
          q := q + [t];
          order := order + [t];
        }
      }
      TakeOne(g, order, head, seen);
      head := head + 1;
    }
    assert head == |order|;
    forall id ensures id in seen <==> Reaches(g, "trigger", id) {
      AllFound(g, order, seen, id);
    }
    FoundOnce(g, order, head, seen);
  }

  lemma {:induction false} StartFound(g: Graph)
    ensures Found(g, ["trigger"], 0, {"trigger"})
  {
    ReachesItself(g, "trigger");
    assert ["trigger"][0] in ["trigger"];
  }

  lemma {:induction false} FoundOnce(g: Graph, order: seq<string>, head: nat, seen: set<string>)
    requires Found(g, order, head, seen)
    ensures Distinct(order) && forall x :: x in seen <==> x in order
  {
  }

  lemma {:induction false} Bounded(g: Graph, order: seq<string>, head: nat, seen: set<string>)
    requires Found(g, order, head, seen)
    ensures |order| <= |Universe(g)| && forall x :: x in order ==> x in seen
  {
    DistinctFits(order, Universe(g));
  }
}
