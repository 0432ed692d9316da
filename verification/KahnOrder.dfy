/**
 The order in which the engine takes a flow's nodes (api/apps/api/src/automations.ts `runGraph`):
 Kahn's algorithm, and after it the nodes it could not place, as declared.
 */
module KahnOrder {
  import opened FlowGraph
  import opened Sequences
  import Reachability

  predicate IsNode(g: Graph, id: string) {
    exists n :: n in g.nodes && n.id == id
  }

  /** The engine sees an edge only between two nodes there are. */
  predicate Joins(g: Graph, e: Edge) {
    IsNode(g, e.from) && IsNode(g, e.to)
  }

  ghost predicate IsSource(g: Graph, from: string, to: string) {
    exists e :: e in g.edges && Joins(g, e) && e.from == from && e.to == to
  }

  ghost predicate Entered(g: Graph, id: string) {
    exists from :: IsSource(g, from, id)
  }

  function Ids(nodes: seq<Node>): seq<string> {
    seq(|nodes|, i requires 0 <= i < |nodes| => nodes[i].id)
  }

  ghost predicate UniqueIds(g: Graph) {
    forall id :: multiset(Ids(g.nodes))[id] <= 1
  }

  lemma {:induction false} IdsAreNodes(g: Graph, id: string)
    ensures id in Ids(g.nodes) <==> IsNode(g, id)
    ensures multiset(Ids(g.nodes))[id] > 0 <==> IsNode(g, id)
  {
    if IsNode(g, id) {
      var n :| n in g.nodes && n.id == id;
      var i :| 0 <= i < |g.nodes| && g.nodes[i] == n;
      assert Ids(g.nodes)[i] == id;
    }
  }

  /** The edges the engine follows out of a node, in edge order. */
  function Outgoing(g: Graph, edges: seq<Edge>, id: string): seq<Edge> {
    if edges == [] then []
    else
      var last := edges[|edges| - 1];
      Outgoing(g, edges[..|edges| - 1], id) + (if Joins(g, last) && last.from == id then [last] else [])
  }

  lemma {:induction false} OutgoingAre(g: Graph, edges: seq<Edge>, id: string, e: Edge)
    ensures e in Outgoing(g, edges, id) <==> e in edges && Joins(g, e) && e.from == id
  {
    if edges != [] {
      var init, last := edges[..|edges| - 1], edges[|edges| - 1];
      OutgoingAre(g, init, id, e);
      assert edges == init + [last];
    }
  }

  ghost function To(id: string): Edge -> bool {
    (e: Edge) => e.to == id
  }

  /** An edge into `id` whose source has not been taken. */
  ghost function Pending(g: Graph, id: string, taken: set<string>): Edge -> bool {
    (e: Edge) => Joins(g, e) && e.to == id && e.from !in taken
  }

  /**
   What makes `order` an order of the engine, of which Kahn's algorithm placed the first `sorted`:
   it takes exactly the nodes, none with an incoming edge twice. With unique ids it takes each once,
   a placed node comes after all its sources, and a node whose sources were all placed was placed.
   */
  ghost predicate IsOrder(g: Graph, order: seq<string>, sorted: nat) {
    && sorted <= |order|
    && (forall id :: id in order <==> IsNode(g, id))
    && (forall id :: Entered(g, id) || UniqueIds(g) ==> multiset(order)[id] <= 1)
    && (UniqueIds(g) ==> SourcesFirst(g, order, sorted) && PlacedWhenFree(g, order[..sorted]))
  }

  ghost predicate SourcesFirst(g: Graph, order: seq<string>, sorted: nat)
    requires sorted <= |order|
  {
    forall i, from :: 0 <= i < sorted && IsSource(g, from, order[i]) ==> from in order[..i]
  }

  ghost predicate PlacedWhenFree(g: Graph, placed: seq<string>) {
    forall id :: IsNode(g, id) && (forall from :: IsSource(g, from, id) ==> from in placed) ==> id in placed
  }

  // ── the degrees ────────────────────────────────────────────────────────────

  /** A node's degree is positive exactly as long as it has a source that has not been taken. */
  lemma {:induction false} PendingMeans(g: Graph, id: string, taken: set<string>)
    ensures Count(g.edges, Pending(g, id, taken)) == 0 <==> forall from :: IsSource(g, from, id) ==> from in taken
  {
    CountZero(g.edges, Pending(g, id, taken));
    if forall from :: IsSource(g, from, id) ==> from in taken {
      forall i | 0 <= i < |g.edges| ensures !Pending(g, id, taken)(g.edges[i]) {
        if Joins(g, g.edges[i]) && g.edges[i].to == id {
          assert IsSource(g, g.edges[i].from, id);
        }
      }
    }
    if Count(g.edges, Pending(g, id, taken)) == 0 {
      forall from | IsSource(g, from, id) ensures from in taken {
        var e :| e in g.edges && Joins(g, e) && e.from == from && e.to == id;
        var i :| 0 <= i < |g.edges| && g.edges[i] == e;
        assert !Pending(g, id, taken)(g.edges[i]);
      }
    }
  }

  /** Taking a node frees its targets by one for every edge to them. */
  lemma {:induction false} PendingTake(g: Graph, edges: seq<Edge>, id: string, taken: set<string>, x: string)
    requires x !in taken
    ensures Count(edges, Pending(g, id, taken + {x}))
            == Count(edges, Pending(g, id, taken)) - Count(Outgoing(g, edges, x), To(id))
  {
    if edges != [] {
      var init, last := edges[..|edges| - 1], edges[|edges| - 1];
      PendingTake(g, init, id, taken, x);
      if Joins(g, last) && last.from == x {
        CountSnoc(Outgoing(g, init, x), last, To(id));
      } else {
        assert Outgoing(g, edges, x) == Outgoing(g, init, x);
      }
    }
  }

  /** Every node at zero. */
  method ZeroDegrees(g: Graph) returns (deg: map<string, int>)
    ensures forall id :: id in deg <==> IsNode(g, id)
    ensures forall id :: id in deg ==> deg[id] == 0
  {
    deg := map[];
    for i := 0 to |g.nodes|
      invariant forall id :: id in deg <==> exists k :: 0 <= k < i && g.nodes[k].id == id
      invariant forall id :: id in deg ==> deg[id] == 0
    {
      deg := deg[g.nodes[i].id := 0];
    }
    forall id ensures id in deg <==> IsNode(g, id) {
      if id in deg {
        var k :| 0 <= k < |g.nodes| && g.nodes[k].id == id;
        assert g.nodes[k] in g.nodes;
      }
    }
  }

  ghost predicate Lists(g: Graph, edges: seq<Edge>, outgoing: map<string, seq<Edge>>) {
    forall id :: (if id in outgoing then outgoing[id] else []) == Outgoing(g, edges, id)
  }

  ghost predicate Counts(g: Graph, edges: seq<Edge>, deg: map<string, int>) {
    && (forall id :: id in deg <==> IsNode(g, id))
    && (forall id :: id in deg ==> deg[id] == Count(edges, Pending(g, id, {})))
  }

  lemma {:induction false} ListsEdge(g: Graph, edges: seq<Edge>, e: Edge, outgoing: map<string, seq<Edge>>)
    requires Lists(g, edges, outgoing)
    ensures var list := if e.from in outgoing then outgoing[e.from] else [];
            Lists(g, edges + [e], if Joins(g, e) then outgoing[e.from := list + [e]] else outgoing)
  {
    assert (edges + [e])[..|edges|] == edges;
  }

  lemma {:induction false} CountsEdge(g: Graph, edges: seq<Edge>, e: Edge, deg: map<string, int>)
    requires Counts(g, edges, deg)
    ensures Joins(g, e) ==> e.from in deg && e.to in deg
    ensures Counts(g, edges + [e], if Joins(g, e) then deg[e.to := deg[e.to] + 1] else deg)
  {
    hide Count;
    forall id ensures Count(edges + [e], Pending(g, id, {}))
                      == Count(edges, Pending(g, id, {})) + (if Joins(g, e) && e.to == id then 1 else 0) {
      CountSnoc(edges, e, Pending(g, id, {}));
    }
  }

  lemma {:induction false} NoEdges(g: Graph, deg: map<string, int>)
    requires (forall id :: id in deg <==> IsNode(g, id)) && (forall id :: id in deg ==> deg[id] == 0)
    ensures Lists(g, [], map[]) && Counts(g, [], deg)
  {
  }

  /** The engine's two maps. */
  method Degrees(g: Graph) returns (outgoing: map<string, seq<Edge>>, deg: map<string, int>)
    ensures Lists(g, g.edges, outgoing) && Counts(g, g.edges, deg)
  {
    deg := ZeroDegrees(g);
    outgoing := map[];
    NoEdges(g, deg);
    hide Lists, Counts, Outgoing, Count;
    for i := 0 to |g.edges|
      invariant Lists(g, g.edges[..i], outgoing) && Counts(g, g.edges[..i], deg)
    {
      var e := g.edges[i];
      assert g.edges[..i + 1] == g.edges[..i] + [e];
      ListsEdge(g, g.edges[..i], e, outgoing);
      CountsEdge(g, g.edges[..i], e, deg);
      if !Joins(g, e) {
        continue;
      }
      var list := if e.from in outgoing then outgoing[e.from] else [];
      outgoing := outgoing[e.from := list + [e]];
      deg := deg[e.to := deg[e.to] + 1];
    }
    assert g.edges[..|g.edges|] == g.edges;
  }

  // ── the queue ──────────────────────────────────────────────────────────────

  /** After a node's edges `outs`: the degrees, and the nodes freed, each once. */
  ghost predicate Followed(outs: seq<Edge>, deg0: map<string, int>, deg: map<string, int>, freed: seq<string>) {
    && deg.Keys == deg0.Keys
    && (forall id :: id in deg ==> deg[id] == deg0[id] - Count(outs, To(id)))
    && (forall id :: multiset(freed)[id] == if id in deg && deg0[id] > 0 >= deg[id] then 1 else 0)
  }

  lemma {:induction false} FollowEdge(outs: seq<Edge>, e: Edge, deg0: map<string, int>, deg: map<string, int>,
                                      freed: seq<string>)
    requires Followed(outs, deg0, deg, freed) && e.to in deg0
    ensures e.to in deg
    ensures var deg' := deg[e.to := deg[e.to] - 1];
            Followed(outs + [e], deg0, deg', if deg'[e.to] == 0 then freed + [e.to] else freed)
  {
    hide Count;
    forall id ensures Count(outs + [e], To(id)) == Count(outs, To(id)) + (if e.to == id then 1 else 0) {
      CountSnoc(outs, e, To(id));
    }
  }

  method Follow(outs: seq<Edge>, deg0: map<string, int>, queue0: seq<string>)
    returns (deg: map<string, int>, queue: seq<string>, freed: seq<string>)
    requires forall e :: e in outs ==> e.to in deg0
    ensures Followed(outs, deg0, deg, freed) && queue == queue0 + freed
  {
    deg, queue, freed := deg0, queue0, [];
    NothingFollowed(deg0);
    hide *;
    for k := 0 to |outs|
      invariant Followed(outs[..k], deg0, deg, freed) && queue == queue0 + freed
    {
      var e := outs[k];
      assert outs[..k + 1] == outs[..k] + [e];
      FollowEdge(outs[..k], e, deg0, deg, freed);
      deg := deg[e.to := deg[e.to] - 1];
      assert queue0 + (freed + [e.to]) == (queue0 + freed) + [e.to];
      if deg[e.to] == 0 {
        queue := queue + [e.to];
        freed := freed + [e.to];
      }
    }
    assert outs[..|outs|] == outs;
  }

  lemma {:induction false} NothingFollowed(deg: map<string, int>)
    ensures Followed([], deg, deg, [])
  {
  }

  /** `seen`: the nodes taken and those waiting in the queue. */
  ghost predicate Enqueued(g: Graph, seen: seq<string>, deg: map<string, int>) {
    && (forall id :: id in deg <==> IsNode(g, id))
    && (forall id :: multiset(seen)[id] <= multiset(Ids(g.nodes))[id])
    && (forall id :: Entered(g, id) ==> multiset(seen)[id] <= 1)
    && (forall id :: id in deg ==> (deg[id] <= 0 <==> multiset(seen)[id] > 0))
  }

  /** With unique ids the degrees count the sources that were not taken. */
  ghost predicate Exact(g: Graph, order: seq<string>, deg: map<string, int>) {
    UniqueIds(g) ==> SourcesFirst(g, order, |order|) && Remain(g, order, deg)
  }

  ghost predicate Remain(g: Graph, order: seq<string>, deg: map<string, int>) {
    forall id :: id in deg ==> deg[id] == Count(g.edges, Pending(g, id, Taken(order)))
  }

  /** Where Kahn's loop stands: `order` taken, `queue` waiting. */
  ghost predicate Progress(g: Graph, order: seq<string>, queue: seq<string>, deg: map<string, int>) {
    Enqueued(g, order + queue, deg) && Exact(g, order, deg)
  }

  ghost function Taken(order: seq<string>): set<string> {
    set id | id in order
  }

  /** Ids with a positive degree. */
  ghost function Waiting(deg: map<string, int>): set<string> {
    set id | id in deg && deg[id] > 0
  }

  method InitialQueue(g: Graph, deg: map<string, int>) returns (queue: seq<string>)
    requires Counts(g, g.edges, deg)
    ensures forall id :: multiset(queue)[id] == if id in deg && deg[id] == 0 then multiset(Ids(g.nodes))[id] else 0
  {
    hide Count;
    queue := [];
    for i := 0 to |g.nodes|
      invariant forall id :: multiset(queue)[id]
                             == if id in deg && deg[id] == 0 then multiset(Ids(g.nodes[..i]))[id] else 0
    {
      var n := g.nodes[i];
      assert n in g.nodes;
      assert Ids(g.nodes[..i + 1]) == Ids(g.nodes[..i]) + [n.id];
      if deg[n.id] == 0 {
        queue := queue + [n.id];
      }
    }
    assert g.nodes[..|g.nodes|] == g.nodes;
  }

  lemma {:induction false} StartEnqueued(g: Graph, queue: seq<string>, deg: map<string, int>)
    requires Counts(g, g.edges, deg)
    requires forall id :: multiset(queue)[id] == if id in deg && deg[id] == 0 then multiset(Ids(g.nodes))[id] else 0
    ensures Enqueued(g, queue, deg)
  {
    hide Count, Entered, IsNode, Ids;
    forall id ensures id in deg ==> (deg[id] == 0 <==> !Entered(g, id)) {
      if id in deg {
        FreeFromTheStart(g, id);
      }
    }
    forall id ensures multiset(Ids(g.nodes))[id] > 0 <==> IsNode(g, id) {
      IdsAreNodes(g, id);
    }
    forall id | Entered(g, id) ensures IsNode(g, id) {
      EnteredIsNode(g, id);
    }
  }

  lemma {:induction false} FreeFromTheStart(g: Graph, id: string)
    ensures Count(g.edges, Pending(g, id, {})) == 0 <==> !Entered(g, id)
  {
    PendingMeans(g, id, {});
  }

  lemma {:induction false} EnteredIsNode(g: Graph, id: string)
    requires Entered(g, id)
    ensures IsNode(g, id)
  {
  }

  lemma {:induction false} StartProgress(g: Graph, queue: seq<string>, deg: map<string, int>)
    requires Counts(g, g.edges, deg)
    requires forall id :: multiset(queue)[id] == if id in deg && deg[id] == 0 then multiset(Ids(g.nodes))[id] else 0
    ensures Progress(g, [], queue, deg)
  {
    StartEnqueued(g, queue, deg);
    hide Count, Enqueued;
    assert [] + queue == queue && Taken([]) == {};
  }

  lemma {:induction false} TakeSources(g: Graph, order: seq<string>, queue: seq<string>, deg: map<string, int>)
    requires Progress(g, order, queue, deg) && queue != [] && UniqueIds(g)
    ensures queue[0] !in order && SourcesFirst(g, order + [queue[0]], |order| + 1)
  {
    var id := queue[0];
    assert multiset(order + queue) == multiset(order) + multiset(queue);
    assert id in queue && multiset(queue)[id] > 0;
    IdsAreNodes(g, id);
    assert deg[id] <= 0;
    PendingMeans(g, id, Taken(order));
    forall i, from | 0 <= i < |order| + 1 && IsSource(g, from, (order + [id])[i]) ensures from in (order + [id])[..i] {
      assert (order + [id])[..i] == order[..i];
      assert order[..|order|] == order;
    }
  }

  lemma {:induction false} TakeDegrees(g: Graph, order: seq<string>, id: string, deg: map<string, int>,
                                       deg': map<string, int>, freed: seq<string>)
    requires id !in order && Remain(g, order, deg)
    requires Followed(Outgoing(g, g.edges, id), deg, deg', freed)
    ensures Remain(g, order + [id], deg')
  {
    hide Count, Outgoing;
    assert Taken(order + [id]) == Taken(order) + {id};
    forall x | x in deg' ensures deg'[x] == Count(g.edges, Pending(g, x, Taken(order + [id]))) {
      PendingTake(g, g.edges, x, Taken(order), id);
    }
  }

  lemma {:induction false} TakeEnqueued(g: Graph, outs: seq<Edge>, seen: seq<string>, deg: map<string, int>,
                                        deg': map<string, int>, freed: seq<string>, seen': seq<string>)
    requires Enqueued(g, seen, deg) && Followed(outs, deg, deg', freed)
    requires multiset(seen') == multiset(seen) + multiset(freed)
    ensures Enqueued(g, seen', deg')
  {
    hide Count, Entered, IsNode, Ids;
    forall id ensures id in deg ==> multiset(Ids(g.nodes))[id] > 0 {
      IdsAreNodes(g, id);
    }
    assert forall id :: multiset(seen')[id] == multiset(seen)[id] + multiset(freed)[id];
  }

  lemma {:induction false} TakeSeen(order: seq<string>, queue: seq<string>, freed: seq<string>)
    requires queue != []
    ensures (order + [queue[0]]) + (queue[1..] + freed) == (order + queue) + freed
    ensures multiset((order + queue) + freed) == multiset(order + queue) + multiset(freed)
  {
  }

  lemma {:induction false} TakeProgress(g: Graph, order: seq<string>, queue: seq<string>, deg: map<string, int>,
                                        deg': map<string, int>, freed: seq<string>)
    requires Progress(g, order, queue, deg) && queue != []
    requires Followed(Outgoing(g, g.edges, queue[0]), deg, deg', freed)
    ensures Progress(g, order + [queue[0]], queue[1..] + freed, deg')
  {
    hide Enqueued, Followed, Remain, SourcesFirst, Outgoing, UniqueIds;
    TakeSeen(order, queue, freed);
    TakeEnqueued(g, Outgoing(g, g.edges, queue[0]), order + queue, deg, deg', freed, (order + queue) + freed);
    if UniqueIds(g) {
      TakeSources(g, order, queue, deg);
      TakeDegrees(g, order, queue[0], deg, deg', freed);
    }
  }

  /** What the loop's end depends on: each node freed leaves the waiting ones. */
  lemma {:induction false} TakeEnds(outs: seq<Edge>, deg: map<string, int>, deg': map<string, int>, freed: seq<string>)
    requires Followed(outs, deg, deg', freed)
    ensures |freed| + |Waiting(deg')| == |Waiting(deg)|
  {
    hide Count;
    assert forall id :: id in freed <==> multiset(freed)[id] > 0;
    OnceEach(freed);
    assert Waiting(deg) == Waiting(deg') + Taken(freed);
    assert Waiting(deg') !! Taken(freed);
  }

  lemma {:induction false} OnceEach(s: seq<string>)
    requires forall id :: multiset(s)[id] <= 1
    ensures |Taken(s)| == |s|
  {
    if s != [] {
      var init, last := s[..|s| - 1], s[|s| - 1];
      assert s == init + [last];
      SplitLast(init, last);
      OnceEach(init);
      assert Taken(s) == Taken(init) + {last};
    }
  }

  lemma {:induction false} SplitLast(init: seq<string>, last: string)
    requires forall id :: multiset(init + [last])[id] <= 1
    ensures (forall id :: multiset(init)[id] <= 1) && last !in init
  {
    assert forall id :: multiset(init + [last])[id] == multiset(init)[id] + multiset([last])[id];
    assert multiset([last])[last] == 1;
    assert last in init ==> multiset(init)[last] > 0;
  }

  lemma {:induction false} Placed(g: Graph, order: seq<string>, deg: map<string, int>)
    requires Progress(g, order, [], deg)
    ensures UniqueIds(g) ==> PlacedWhenFree(g, order)
    ensures forall id :: id in order ==> IsNode(g, id)
    ensures forall id :: multiset(order)[id] <= multiset(Ids(g.nodes))[id]
    ensures forall id :: Entered(g, id) || UniqueIds(g) ==> multiset(order)[id] <= 1
  {
    hide Count;
    assert order + [] == order;
    forall id | id in order ensures IsNode(g, id) {
      assert multiset(order)[id] > 0;
      IdsAreNodes(g, id);
    }
    if UniqueIds(g) {
      forall id | IsNode(g, id) && forall from :: IsSource(g, from, id) ==> from in order ensures id in order {
        PendingMeans(g, id, Taken(order));
        assert multiset(order)[id] > 0;
      }
    }
  }

  /** If as many were placed as there are nodes, all were. */
  lemma {:induction false} NothingMissing(g: Graph, order: seq<string>)
    requires forall id :: multiset(order)[id] <= multiset(Ids(g.nodes))[id]
    requires |order| >= |g.nodes|
    ensures forall id :: IsNode(g, id) ==> id in order
  {
    var a, b := multiset(order), multiset(Ids(g.nodes));
    assert a <= b;
    assert b == a + (b - a);
    assert |b| == |a| + |b - a|;
    assert |a| == |order| && |b| == |g.nodes|;
    assert b - a == multiset{};
    forall id | IsNode(g, id) ensures id in order {
      IdsAreNodes(g, id);
      assert id in b;
    }
  }

  /** The nodes Kahn's algorithm did not reach, as declared. */
  method AddMissing(g: Graph, placed: seq<string>) returns (order: seq<string>)
    requires forall id :: id in placed ==> IsNode(g, id)
    requires forall id :: Entered(g, id) || UniqueIds(g) ==> multiset(placed)[id] <= 1
    ensures placed <= order
    ensures forall id :: id in order <==> IsNode(g, id)
    ensures forall id :: Entered(g, id) || UniqueIds(g) ==> multiset(order)[id] <= 1
  {
    hide UniqueIds, Entered;
    order := placed;
    for i := 0 to |g.nodes|
      invariant placed <= order
      invariant forall id :: id in order ==> IsNode(g, id)
      invariant forall k :: 0 <= k < i ==> g.nodes[k].id in order
      invariant forall id :: Entered(g, id) || UniqueIds(g) ==> multiset(order)[id] <= 1
    {
      assert g.nodes[i] in g.nodes;
      if g.nodes[i].id !in order {
        order := order + [g.nodes[i].id];
      }
    }
    forall id | IsNode(g, id) ensures id in order {
      var n :| n in g.nodes && n.id == id;
      var k :| 0 <= k < |g.nodes| && g.nodes[k] == n;
    }
  }

  /** One turn of the loop. */
  method Turn(g: Graph, outgoing: map<string, seq<Edge>>, deg0: map<string, int>, order: seq<string>,
              queue0: seq<string>)
    returns (deg: map<string, int>, queue: seq<string>)
    requires Lists(g, g.edges, outgoing) && Progress(g, order, queue0, deg0) && queue0 != []
    ensures Progress(g, order + [queue0[0]], queue, deg)
    ensures |Waiting(deg)| + |queue| < |Waiting(deg0)| + |queue0|
  {
    var id := queue0[0];
    var outs := if id in outgoing then outgoing[id] else [];
    assert outs == Outgoing(g, g.edges, id);
    TargetsKnown(g, order, queue0, deg0, id);
    hide Progress, Followed, Outgoing, Lists, Waiting;
    var freed;
    deg, queue, freed := Follow(outs, deg0, queue0[1..]);
    TakeEnds(outs, deg0, deg, freed);
    TakeProgress(g, order, queue0, deg0, deg, freed);
  }

  /** The whole of it. */
  method Order(g: Graph) returns (order: seq<string>, sorted: nat)
    ensures IsOrder(g, order, sorted)
  {
    var outgoing, deg := Degrees(g);
    var queue := InitialQueue(g, deg);
    StartProgress(g, queue, deg);
    order := [];
    hide *;
    while |queue| > 0
      invariant Lists(g, g.edges, outgoing) && Progress(g, order, queue, deg)
      decreases |Waiting(deg)| + |queue|
    {
      var id := queue[0];
      deg, queue := Turn(g, outgoing, deg, order, queue);
      order := order + [id];
    }
    Placed(g, order, deg);
    sorted := |order|;
    ghost var placed := order;
    if |order| < |g.nodes| {
      order := AddMissing(g, order);
    } else {
      NothingMissing(g, order);
    }
    LoopOrder(g, placed, deg, order);
  }

  lemma {:induction false} TargetsKnown(g: Graph, order: seq<string>, queue: seq<string>, deg: map<string, int>,
                                        id: string)
    requires Progress(g, order, queue, deg)
    ensures forall e :: e in Outgoing(g, g.edges, id) ==> e.to in deg
  {
    forall e | e in Outgoing(g, g.edges, id) ensures e.to in deg {
      OutgoingAre(g, g.edges, id, e);
    }
  }

  lemma {:induction false} LoopOrder(g: Graph, placed: seq<string>, deg: map<string, int>, order: seq<string>)
    requires Progress(g, placed, [], deg) && placed <= order
    requires UniqueIds(g) ==> PlacedWhenFree(g, placed)
    requires forall id :: id in order <==> IsNode(g, id)
    requires forall id :: Entered(g, id) || UniqueIds(g) ==> multiset(order)[id] <= 1
    ensures IsOrder(g, order, |placed|)
  {
    hide UniqueIds, Count, PlacedWhenFree, Entered, IsSource;
    assert order[..|placed|] == placed;
    if UniqueIds(g) {
      forall i, from | 0 <= i < |placed| && IsSource(g, from, order[i]) ensures from in order[..i] {
        assert placed[i] == order[i] && placed[..i] == order[..i];
      }
    }
  }

  // ── when every node is placed ──────────────────────────────────────────────

  function Seen(g: Graph): (seen: Graph)
    ensures seen.nodes == g.nodes
    ensures forall a, b :: HasEdge(seen, a, b) <==> IsSource(g, a, b)
  {
    Graph(g.nodes, JoiningEdges(g, g.edges))
  }

  function JoiningEdges(g: Graph, edges: seq<Edge>): (joining: seq<Edge>)
    ensures forall e :: e in joining <==> e in edges && Joins(g, e)
  {
    if edges == [] then []
    else
      assert forall e :: e in edges <==> e == edges[0] || e in edges[1..];
      (if Joins(g, edges[0]) then [edges[0]] else []) + JoiningEdges(g, edges[1..])
  }

  /** Along a path the nodes come in the order they were placed. */
  lemma {:induction false} PathInOrder(g: Graph, order: seq<string>, p: seq<string>) returns (a: nat, b: nat)
    requires IsOrder(g, order, |order|) && UniqueIds(g) && IsPath(Seen(g), p) && |p| > 1
    ensures a < b < |order| && order[a] == p[0] && order[b] == p[|p| - 1]
  {
    hide Seen, UniqueIds, PlacedWhenFree;
    var k := |p| - 2;
    assert HasEdge(Seen(g), p[k], p[k + 1]) && IsSource(g, p[k], p[k + 1]);
    b := IndexIn(order, p[k + 1]);
    assert p[k] in order[..b];
    var c := IndexIn(order[..b], p[k]);
    if k == 0 {
      a := c;
    } else {
      SubPath(Seen(g), p, 0, k);
      var b0;
      a, b0 := PathInOrder(g, order, p[0..k + 1]);
      SamePlace(order, b0, c);
    }
  }

  lemma {:induction false} IndexIn(s: seq<string>, x: string) returns (i: nat)
    requires x in s
    ensures i < |s| && s[i] == x
  {
    i :| 0 <= i < |s| && s[i] == x;
  }

  lemma {:induction false} SamePlace(s: seq<string>, i: nat, j: nat)
    requires i < |s| && j < |s| && s[i] == s[j] && multiset(s)[s[i]] <= 1
    ensures i == j
  {
    if i < j {
      Twice(s, i, j);
    } else if j < i {
      Twice(s, j, i);
    }
  }

  lemma {:induction false} Twice(s: seq<string>, i: nat, j: nat)
    requires i < j < |s| && s[i] == s[j]
    ensures multiset(s)[s[i]] >= 2
  {
    assert s == s[..j] + s[j..];
    assert s[..j][i] in s[..j] && s[j..][0] in s[j..];
  }

  ghost predicate Unplaced(g: Graph, placed: seq<string>, p: seq<string>) {
    forall i :: 0 <= i < |p| ==> IsNode(g, p[i]) && p[i] !in placed
  }

  lemma {:induction false} FirstUnplaced(g: Graph, placed: seq<string>, p: seq<string>)
    requires Unplaced(g, placed, p) && p != []
    ensures IsNode(g, p[0]) && p[0] !in placed
  {
  }

  lemma {:induction false} UnplacedCons(g: Graph, placed: seq<string>, from: string, q: seq<string>)
    requires Unplaced(g, placed, q) && IsNode(g, from) && from !in placed
    ensures Unplaced(g, placed, [from] + q)
  {
    hide IsNode;
  }

  /** Sources of nodes that were not placed, as far back as wanted: none of them was placed either. */
  lemma {:induction false} Backward(g: Graph, placed: seq<string>, start: string, n: nat) returns (p: seq<string>)
    requires PlacedWhenFree(g, placed) && IsNode(g, start) && start !in placed
    ensures IsPath(Seen(g), p) && |p| == n + 1 && Unplaced(g, placed, p)
  {
    hide PlacedWhenFree, Seen, HasEdge, IsNode;
    if n == 0 {
      p := [start];
    } else {
      var q := Backward(g, placed, start, n - 1);
      hide Unplaced, IsPath;
      FirstUnplaced(g, placed, q);
      var from := OneMoreBack(g, placed, q[0]);
      PathCons(Seen(g), from, q);
      UnplacedCons(g, placed, from, q);
      p := [from] + q;
    }
  }

  lemma {:induction false} OneMoreBack(g: Graph, placed: seq<string>, id: string) returns (from: string)
    requires PlacedWhenFree(g, placed) && IsNode(g, id) && id !in placed
    ensures HasEdge(Seen(g), from, id) && IsNode(g, from) && from !in placed
  {
    hide Seen;
    from :| IsSource(g, from, id) && from !in placed;
  }

  /** With unique ids Kahn's algorithm places every node if and only if the edges form no cycle. */
  lemma {:induction false} AllPlacedIffAcyclic(g: Graph, order: seq<string>, sorted: nat)
    requires IsOrder(g, order, sorted) && UniqueIds(g)
    ensures sorted == |order| <==> Acyclic(Seen(g))
  {
    if sorted == |order| {
      forall p | IsPath(Seen(g), p) && |p| > 1 ensures p[0] != p[|p| - 1] {
        var a, b := PathInOrder(g, order, p);
        if p[0] == p[|p| - 1] {
          SamePlace(order, a, b);
        }
      }
    } else {
      var cycle := Cycle(g, order, sorted);
      assert !Acyclic(Seen(g));
    }
  }

  lemma {:induction false} Cycle(g: Graph, order: seq<string>, sorted: nat) returns (cycle: seq<string>)
    requires IsOrder(g, order, sorted) && UniqueIds(g) && sorted < |order|
    ensures IsPath(Seen(g), cycle) && |cycle| > 1 && cycle[0] == cycle[|cycle| - 1]
  {
    hide *;
    NotPlaced(g, order, sorted);
    var all := Taken(order);
    var p := Backward(g, order[..sorted], order[sorted], |all|);
    UnplacedAreTaken(g, order, sorted, p);
    var i, j := Repeats(p, all);
    SubPath(Seen(g), p, i, j);
    cycle := p[i..j + 1];
  }

  lemma {:induction false} UnplacedAreTaken(g: Graph, order: seq<string>, sorted: nat, p: seq<string>)
    requires IsOrder(g, order, sorted) && Unplaced(g, order[..sorted], p)
    ensures forall x :: x in p ==> x in Taken(order)
  {
    hide UniqueIds, Entered, SourcesFirst, PlacedWhenFree;
  }

  lemma {:induction false} NotPlaced(g: Graph, order: seq<string>, sorted: nat)
    requires IsOrder(g, order, sorted) && UniqueIds(g) && sorted < |order|
    ensures PlacedWhenFree(g, order[..sorted])
    ensures order[sorted] !in order[..sorted] && IsNode(g, order[sorted])
  {
    hide PlacedWhenFree, SourcesFirst;
    assert order[sorted] in order;
    if order[sorted] in order[..sorted] {
      var k := IndexIn(order[..sorted], order[sorted]);
      SamePlace(order, k, sorted);
    }
  }

  lemma {:induction false} Repeats(p: seq<string>, all: set<string>) returns (i: nat, j: nat)
    requires |p| > |all| && forall x :: x in p ==> x in all
    ensures i < j < |p| && p[i] == p[j]
  {
    if Reachability.Distinct(p) {
      Reachability.DistinctFits(p, all);
    }
    i, j :| 0 <= i < j < |p| && p[i] == p[j];
  }
}
