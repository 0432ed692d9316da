/**
 Where a node sends a graph's run (api/apps/api/src/automations.ts `runGraph`): which of its edges a node
 that ran makes active, and so which nodes behind a branch run.
 */
module Branching {
  import opened Engine
  import opened FlowGraph
  import opened KahnOrder
  import opened Options

  // ── one turn ───────────────────────────────────────────────────────────────

  lemma {:induction false} ElsewhereStays(env: Env, g: Graph, id: string, s: State, e: Edge)
    requires e.from != id
    ensures e in Visit(env, g, id, s).active <==> e in s.active
  {
    hide RunNode, CallsAfter, InputsFor, Fires, Reached, ActiveSources, AnyStop, Stamp;
    var found := Lookup(g.nodes, id);
    if found.Some? {
      OutgoingAre(g, g.edges, id, e);
    }
  }

  lemma {:induction false} OthersStay(env: Env, g: Graph, order: seq<string>, k: nat, e: Edge)
    requires k <= |order| && e.from !in order[k..]
    ensures e in Walk(env, g, order).active <==> e in Walk(env, g, order[..k]).active
    ensures e.from in Walk(env, g, order).ran <==> e.from in Walk(env, g, order[..k]).ran
    ensures e.from !in Walk(env, g, order[..k]).steps || e.from in Walk(env, g, order).steps
    ensures e.from in Walk(env, g, order[..k]).steps ==>
              Walk(env, g, order).steps[e.from] == Walk(env, g, order[..k]).steps[e.from]
    ensures e.from !in Walk(env, g, order[..k]).items || e.from in Walk(env, g, order).items
    ensures e.from in Walk(env, g, order[..k]).items ==>
              Walk(env, g, order).items[e.from] == Walk(env, g, order[..k]).items[e.from]
  {
    if k < |order| {
      var init, last := order[..|order| - 1], order[|order| - 1];
      assert order[k..] == init[k..] + [last] && init[..k] == order[..k];
      OthersStay(env, g, init, k, e);
      ElsewhereStays(env, g, last, Walk(env, g, init), e);
      hide RunNode, CallsAfter, InputsFor, Fired, Reached, Lookup, AnyStop, Stamp;
    } else {
      assert order[..k] == order;
    }
  }

  /** Nothing has gone out of a node that has not had its turn. */
  lemma {:induction false} NothingYet(env: Env, g: Graph, order: seq<string>, e: Edge)
    requires e.from !in order
    ensures e !in Walk(env, g, order).active && e.from !in Walk(env, g, order).ran
  {
    OthersStay(env, g, order, 0, e);
    assert order[0..] == order && order[..0] == [];
  }

  // ── what a node's turn comes to ────────────────────────────────────────────

  /** The run before the k-th turn, and what the node whose turn it is reads. */
  function Before(env: Env, g: Graph, order: seq<string>, k: nat): State
    requires k <= |order|
  {
    Walk(env, g, order[..k])
  }

  function Reading(g: Graph, s: State, id: string): (inputs: seq<Engine.Item>)
    ensures inputs != []
  {
    InputsFor(ActiveSources(g, g.edges, s.active, id), s.items)
  }

  /** A branch's conditions hold over the context of its turn; none at all hold always. */
  predicate HoldsAt(env: Env, g: Graph, s: State, n: Node) {
    var plane := Plane(Reading(g, s, n.id)[0], s.steps);
    !n.config.payload.Conditions? || n.config.payload.conditions == []
    || env.holds(s.calls, n.config.payload.all, n.config.payload.conditions, Some(plane))
  }

  /** The k-th node of the order, which has but one turn, ran, and the run went on. */
  ghost predicate RanAt(env: Env, g: Graph, order: seq<string>, k: nat, n: Node) {
    && k < |order| && order[k] == n.id && Lookup(g.nodes, n.id) == Some(n)
    && n.id !in order[..k] && n.id !in order[k + 1..]
    && !Walk(env, g, order).stopped && n.id in Walk(env, g, order).ran
  }

  lemma {:induction false} NotStoppedBefore(env: Env, g: Graph, order: seq<string>, k: nat)
    requires k <= |order| && !Walk(env, g, order).stopped
    ensures !Walk(env, g, order[..k]).stopped
  {
    if Walk(env, g, order[..k]).stopped {
      StoppedStays(env, g, order, k);
    }
  }

  /** The turn itself: what came of the node, and that its edges are active as it fired them. */
  lemma {:induction false} TurnOf(env: Env, g: Graph, order: seq<string>, k: nat, n: Node, e: Edge)
    requires RanAt(env, g, order, k, n) && e in g.edges && Joins(g, e) && e.from == n.id
    ensures var s, before := Walk(env, g, order), Before(env, g, order, k);
            var inputs := Reading(g, before, n.id);
            && n.id in s.steps
            && s.steps[n.id] == RunNode(env, before.calls, n, inputs, Plane(inputs[0], before.steps))
            && (e in s.active <==> Fires(n, s.steps[n.id], e))
  {
    var before, after := Walk(env, g, order[..k]), Walk(env, g, order[..k + 1]);
    assert order[..k + 1][..k] == order[..k];
    NotStoppedBefore(env, g, order, k + 1);
    NotStoppedBefore(env, g, order, k);
    OthersStay(env, g, order, k + 1, e);
    NothingYet(env, g, order[..k], e);
    OutgoingAre(g, g.edges, n.id, e);
    hide RunNode, CallsAfter, InputsFor, Fires, ActiveSources, AnyStop, Stamp, Walk, Outgoing;
    assert after == Visit(env, g, n.id, before) by {
      WalkSnoc(env, g, order[..k], order[k]);
      assert order[..k + 1] == order[..k] + [order[k]];
    }
  }

  /**
   A branch that ran makes active exactly its edges without a label and those of its verdict: the "true"
   ones when its conditions held over the context of its turn, the "false" ones when they did not.
   */
  lemma {:induction false} BranchActivates(env: Env, g: Graph, order: seq<string>, k: nat, n: Node, e: Edge)
    requires RanAt(env, g, order, k, n) && n.kind == Branch && e in g.edges && Joins(g, e) && e.from == n.id
    ensures var holds := HoldsAt(env, g, Before(env, g, order, k), n);
            e in Walk(env, g, order).active <==> e.when == Always || e.when == (if holds then OnTrue else OnFalse)
  {
    TurnOf(env, g, order, k, n, e);
    hide Walk, InputsFor, ActiveSources, Lookup;
  }

  /** An item node that fired a handle makes active its edges of that handle, an edge without a label
      counting as "true"; one that fired none makes all of its edges active. */
  lemma {:induction false} ItemActivates(env: Env, g: Graph, order: seq<string>, k: nat, n: Node, e: Edge)
    requires RanAt(env, g, order, k, n) && n.kind == Item && e in g.edges && Joins(g, e) && e.from == n.id
    ensures var before := Before(env, g, order, k);
            var inputs := Reading(g, before, n.id);
            var fired := env.run(before.calls, n, inputs, Plane(inputs[0], before.steps)).fired;
            e in Walk(env, g, order).active
            <==> match fired
                 case Always => true
                 case OnTrue => e.when == Always || e.when == OnTrue
                 case OnFalse => e.when == OnFalse
  {
    TurnOf(env, g, order, k, n, e);
    hide Walk, InputsFor, ActiveSources, Lookup;
  }

  /** Any other node that ran makes all of its edges active. */
  lemma {:induction false} OthersActivate(env: Env, g: Graph, order: seq<string>, k: nat, n: Node, e: Edge)
    requires RanAt(env, g, order, k, n) && n.kind != Branch && n.kind != Item
    requires e in g.edges && Joins(g, e) && e.from == n.id
    ensures e in Walk(env, g, order).active
  {
    TurnOf(env, g, order, k, n, e);
    hide Walk, InputsFor, ActiveSources, Lookup;
  }

  // ── what flows from node to node ───────────────────────────────────────────

  /** What an edge brings is read in edge order: one active edge into the node adds its source once. */
  lemma {:induction false} SourcesInOrder(g: Graph, a: seq<Edge>, e: Edge, b: seq<Edge>, active: set<Edge>, id: string)
    ensures ActiveSources(g, a + [e] + b, active, id)
            == ActiveSources(g, a, active, id)
               + (if e in active && e.to == id && IsNode(g, e.from) then [e.from] else [])
               + ActiveSources(g, b, active, id)
    decreases |b|
  {
    hide ActiveSources, IsNode;
    if b == [] {
      assert a + [e] + b == a + [e];
      SourcesSnoc(g, a, e, active, id);
      NoSources(g, b, active, id);
    } else {
      var init, last := b[..|b| - 1], b[|b| - 1];
      assert a + [e] + b == (a + [e] + init) + [last] && b == init + [last];
      SourcesInOrder(g, a, e, init, active, id);
      SourcesSnoc(g, a + [e] + init, last, active, id);
      SourcesSnoc(g, init, last, active, id);
    }
  }

  /** The items of several sources follow one another; without any the node reads the run's seed. */
  lemma {:induction false} ItemsInOrder(a: seq<string>, x: string, b: seq<string>, items: map<string, seq<Engine.Item>>)
    ensures Collected(a + [x] + b, items)
            == Collected(a, items) + (if x in items then items[x] else []) + Collected(b, items)
    ensures InputsFor(a, items) == if Collected(a, items) == [] then [Seed] else Collected(a, items)
    decreases |b|
  {
    hide Collected;
    var own := if x in items then items[x] else [];
    CollectedSnoc(a, x, items);
    if b == [] {
      assert a + [x] + b == a + [x];
      NothingCollected(items);
    } else {
      var init, last := b[..|b| - 1], b[|b| - 1];
      var more := if last in items then items[last] else [];
      assert a + [x] + b == (a + [x] + init) + [last] && b == init + [last];
      ItemsInOrder(a, x, init, items);
      CollectedSnoc(a + [x] + init, last, items);
      CollectedSnoc(init, last, items);
      assert Collected(a, items) + own + (Collected(init, items) + more)
          == (Collected(a, items) + own + Collected(init, items)) + more;
    }
  }

  lemma {:induction false} CollectedSnoc(from: seq<string>, x: string, items: map<string, seq<Engine.Item>>)
    ensures Collected(from + [x], items) == Collected(from, items) + (if x in items then items[x] else [])
  {
    assert (from + [x])[..|from|] == from;
  }

  lemma {:induction false} NothingCollected(items: map<string, seq<Engine.Item>>)
    ensures Collected([], items) == []
  {
  }

  /** What a node that ran hands on: what it read, unless it is an action, which hands on its result, or an
      item node, which hands on its own items. */
  lemma {:induction false} HandsOnItems(env: Env, g: Graph, order: seq<string>, k: nat, n: Node)
    requires RanAt(env, g, order, k, n)
    ensures var s, before := Walk(env, g, order), Before(env, g, order, k);
            var inputs, plane := Reading(g, before, n.id), Plane(Reading(g, before, n.id)[0], before.steps);
            var payload := n.config.payload;
            && n.id in s.items
            && s.items[n.id]
               == match n.kind
                  case ActionStep =>
                    [Made(if payload.Act? then Some(env.act(before.calls, payload.action, Some(plane))) else None)]
                  case Item => env.run(before.calls, n, inputs, plane).items
                  case _ => inputs
  {
    var e := Edge(n.id, n.id, Always);
    var before, after := Walk(env, g, order[..k]), Walk(env, g, order[..k + 1]);
    NotStoppedBefore(env, g, order, k + 1);
    NotStoppedBefore(env, g, order, k);
    OthersStay(env, g, order, k + 1, e);
    NothingYet(env, g, order[..k], e);
    hide CallsAfter, InputsFor, Fires, ActiveSources, AnyStop, Stamp, Walk, Outgoing;
    assert after == Visit(env, g, n.id, before) by {
      WalkSnoc(env, g, order[..k], order[k]);
      assert order[..k + 1] == order[..k] + [order[k]];
    }
  }

  // ── behind a branch ────────────────────────────────────────────────────────

  /** The only edge of the graph into its target. */
  ghost predicate OnlyEdge(g: Graph, e: Edge) {
    e in g.edges && Joins(g, e) && forall f :: f in g.edges && Joins(g, f) && f.to == e.to ==> f == e
  }

  lemma {:induction false} OneTurn(g: Graph, order: seq<string>, sorted: nat, id: string) returns (k: nat)
    requires IsOrder(g, order, sorted) && UniqueIds(g) && IsNode(g, id)
    ensures k < |order| && order[k] == id && id !in order[..k] && id !in order[k + 1..]
  {
    hide UniqueIds, SourcesFirst, PlacedWhenFree, Entered;
    k := IndexIn(order, id);
    if id in order[..k] {
      var j := IndexIn(order[..k], id);
      SamePlace(order, j, k);
    }
    if id in order[k + 1..] {
      var j := IndexIn(order[k + 1..], id);
      assert order[k + 1 + j] == id;
      SamePlace(order, k, k + 1 + j);
    }
  }

  /** In a graph without cycles, unless the run is halted, a node other than a trigger runs if and only if
      an edge into it is active at the end. */
  lemma {:induction false} RunsIfEntered(env: Env, g: Graph, order: seq<string>, sorted: nat, id: string)
    requires IsOrder(g, order, sorted) && UniqueIds(g) && Acyclic(Seen(g)) && IsNode(g, id) && !IsTrigger(g, id)
    requires !Walk(env, g, order).stopped
    ensures var s := Walk(env, g, order);
            id in s.ran <==> exists e :: e in g.edges && Joins(g, e) && e.to == id && e in s.active
  {
    WhichNodesRun(env, g, order, sorted, id);
    AllPlacedIffAcyclic(g, order, sorted);
    assert order[..|order|] == order;
    WalkSettles(env, g, order, |order|);
    hide Walk, UniqueIds, Acyclic, Seen, Fires, IsOrder, IsTrigger;
    var s := Walk(env, g, order);
    assert forall e :: e in s.active <==> Sent(g, s, e);
  }

  /**
   So of a graph without cycles a node that only a branch leads to, by one edge, runs if and only if the
   branch ran and the edge has no label or its label is the branch's verdict: "true" when its conditions
   held over the context of its turn, "false" when they did not.
   */
  lemma {:induction false} BehindABranch(env: Env, g: Graph, order: seq<string>, sorted: nat, n: Node, e: Edge)
    returns (k: nat)
    requires IsOrder(g, order, sorted) && UniqueIds(g) && Acyclic(Seen(g)) && !Walk(env, g, order).stopped
    requires OnlyEdge(g, e) && !IsTrigger(g, e.to) && Lookup(g.nodes, e.from) == Some(n) && n.kind == Branch
    ensures k < |order| && order[k] == e.from
    ensures e.to in Walk(env, g, order).ran
            <==> e.from in Walk(env, g, order).ran
                 && (e.when == Always
                     || e.when == (if HoldsAt(env, g, Before(env, g, order, k), n) then OnTrue else OnFalse))
  {
    hide *;
    EndsAreNodes(g, e);
    k := OneTurn(g, order, sorted, e.from);
    RunsIfEntered(env, g, order, sorted, e.to);
    OnlyOne(g, e, Walk(env, g, order).active);
    LookupIs(g, e.from, n);
    if e.from in Walk(env, g, order).ran {
      RanIs(env, g, order, k, n);
      BranchActivates(env, g, order, k, n, e);
    } else {
      ActiveRan(env, g, order, e);
    }
  }

  lemma {:induction false} EndsAreNodes(g: Graph, e: Edge)
    requires OnlyEdge(g, e)
    ensures IsNode(g, e.from) && IsNode(g, e.to) && e in g.edges && Joins(g, e)
  {
  }

  lemma {:induction false} OnlyOne(g: Graph, e: Edge, active: set<Edge>)
    requires OnlyEdge(g, e)
    ensures (exists f :: f in g.edges && Joins(g, f) && f.to == e.to && f in active) <==> e in active
  {
  }

  lemma {:induction false} LookupIs(g: Graph, id: string, n: Node)
    requires Lookup(g.nodes, id) == Some(n)
    ensures n.id == id
  {
  }

  lemma {:induction false} RanIs(env: Env, g: Graph, order: seq<string>, k: nat, n: Node)
    requires k < |order| && order[k] == n.id && Lookup(g.nodes, n.id) == Some(n)
    requires n.id !in order[..k] && n.id !in order[k + 1..]
    requires !Walk(env, g, order).stopped && n.id in Walk(env, g, order).ran
    ensures RanAt(env, g, order, k, n)
  {
  }

  lemma {:induction false} ActiveRan(env: Env, g: Graph, order: seq<string>, e: Edge)
    requires e.from !in Walk(env, g, order).ran
    ensures e !in Walk(env, g, order).active
  {
    WalkGrounded(env, g, order);
    hide Walk, Founded;
    assert e in Walk(env, g, order).active ==> Leaves(g, Walk(env, g, order).ran, e);
  }
}
