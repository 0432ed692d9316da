/**
 The engine that runs automations (api/apps/api/src/automations.ts): a flow's graph (`runGraph`,
 without browser nodes) and a rule that is a plain list of actions (`runAutomations`,
 `executeAutomation`).
 */
module Engine {
  import opened FlowGraph
  import opened KahnOrder
  import opened Options
  import Actions
  import DeriveGraph
  import Templates

  /** What one action, or one tool call of a node, came to; `about`: the result's other fields; `asked`:
      what it asked for that; `puts`: what it put into the context. */
  datatype Result = Result(ok: bool, detail: string, stop: bool, about: Templates.Ctx, asked: Actions.Asked,
                           puts: Templates.Ctx)

  /** A result as a graph run records it, with its node. */
  datatype Stamped = Stamped(node: string, result: Result)

  /** Items on the data plane: the run's seed, what an action made, or what a node made. */
  datatype Item = Seed | Made(result: Option<Result>) | Other(text: string)

  /** What a node puts under its id in `steps`. */
  datatype Output = Event | Matched(holds: bool) | Came(result: Option<Result>) | Told(value: Templates.Value)

  /** What a node's run came to; `fired` is the handle an item node steers its out-edges by. */
  datatype Out = Out(results: seq<Result>, output: Output, fired: When, items: seq<Item>)

  /** What only a graph run puts in the context: the current item (text, json, item), and `steps`. */
  datatype Plane = Plane(item: Item, steps: map<string, Out>)

  /** What has been done to the world so far. */
  datatype Call = Did(action: Action, result: Result) | Ran(node: Node, out: Out)

  /** The environment's answers, which may depend on everything done before; `fired` of an item node
      is Always when it steers nothing. */
  datatype Env = Env(
    holds: (seq<Call>, bool, seq<Condition>, Option<Plane>) -> bool,
    act: (seq<Call>, Action, Option<Plane>) -> Result,
    run: (seq<Call>, Node, seq<Item>, Plane) -> Out)

  /** evaluateConditions: an empty list holds. */
  predicate Holds(env: Env, calls: seq<Call>, all: bool, conditions: seq<Condition>, plane: Option<Plane>) {
    conditions == [] || env.holds(calls, all, conditions, plane)
  }

  // ── a rule that is a list of actions ───────────────────────────────────────

  function Calls(actions: seq<Action>, results: seq<Result>): seq<Call>
    requires |results| <= |actions|
  {
    seq(|results|, k requires 0 <= k < |results| => Did(actions[k], results[k]))
  }

  predicate Halted(results: seq<Result>) {
    results != [] && results[|results| - 1].stop
  }

  /** The first k actions, each on the plane it sees after those before it, up to the first stop. */
  function Performed(env: Env, actions: seq<Action>, plane: seq<Result> -> Option<Plane>,
                     k: nat): (results: seq<Result>)
    requires k <= |actions|
    ensures |results| <= k && (!Halted(results) ==> |results| == k)
  {
    if k == 0 then []
    else
      var before := Performed(env, actions, plane, k - 1);
      if Halted(before) then before
      else before + [env.act(Calls(actions, before), actions[k - 1], plane(before))]
  }

  function NoPlane(): seq<Result> -> Option<Plane> {
    (before: seq<Result>) => None
  }

  /** What a linear rule does: nothing unless its conditions hold, else its actions up to a stop. */
  function Linear(env: Env, d: DeriveGraph.Draft): seq<Result> {
    if Holds(env, [], d.all, d.conditions, None) then Performed(env, d.actions, NoPlane(), |d.actions|) else []
  }

  method RunLinear(env: Env, d: DeriveGraph.Draft) returns (results: seq<Result>)
    ensures results == Linear(env, d)
  {
    results := [];
    if !Holds(env, [], d.all, d.conditions, None) {
      return;
    }
    for i := 0 to |d.actions|
      invariant results == Performed(env, d.actions, NoPlane(), i) && !Halted(results)
    {
      var r := env.act(Calls(d.actions, results), d.actions[i], None);
      results := results + [r];
      if r.stop {
        PerformedStays(env, d.actions, NoPlane(), i + 1, |d.actions|);
        return;
      }
    }
  }

  /** After a stop nothing more is performed. */
  lemma {:induction false} PerformedStays(env: Env, actions: seq<Action>, plane: seq<Result> -> Option<Plane>, j: nat,
                                          k: nat)
    requires j <= k <= |actions| && Halted(Performed(env, actions, plane, j))
    ensures Performed(env, actions, plane, k) == Performed(env, actions, plane, j)
  {
    if j < k {
      PerformedStays(env, actions, plane, j, k - 1);
    }
  }

  // ── a graph ────────────────────────────────────────────────────────────────

  /** Where a graph run stands. */
  datatype State = State(ran: seq<string>, active: set<Edge>, results: seq<Stamped>, items: map<string, seq<Item>>,
                         steps: map<string, Out>, calls: seq<Call>, stopped: bool)

  const START := State([], {}, [], map[], map[], [], false)

  /** The node of that id; of two the later one. */
  function Lookup(nodes: seq<Node>, id: string): (found: Option<Node>)
    ensures found.Some? ==> found.value in nodes && found.value.id == id
    ensures found.None? ==> forall n :: n in nodes ==> n.id != id
  {
    if nodes == [] then None
    else
      var init, last := nodes[..|nodes| - 1], nodes[|nodes| - 1];
      assert nodes == init + [last];
      if last.id == id then Some(last) else Lookup(init, id)
  }

  /** The sources of the active edges into `id`, in edge order. */
  function ActiveSources(g: Graph, edges: seq<Edge>, active: set<Edge>, id: string): (from: seq<string>)
    ensures forall x :: x in from <==>
            exists e :: e in edges && e in active && e.to == id && e.from == x && IsNode(g, x)
  {
    if edges == [] then []
    else
      var init, last := edges[..|edges| - 1], edges[|edges| - 1];
      assert edges == init + [last];
      ActiveSources(g, init, active, id)
      + (if last in active && last.to == id && IsNode(g, last.from) then [last.from] else [])
  }

  /** What flows into a node: its active sources' items, the seed when there are none. */
  function Collected(from: seq<string>, items: map<string, seq<Item>>): seq<Item> {
    if from == [] then []
    else
      var last := from[|from| - 1];
      Collected(from[..|from| - 1], items) + (if last in items then items[last] else [])
  }

  function InputsFor(from: seq<string>, items: map<string, seq<Item>>): (inputs: seq<Item>)
    ensures inputs != []
  {
    if Collected(from, items) == [] then [Seed] else Collected(from, items)
  }

  function ActionOut(r: Result): Out {
    Out([r], Came(Some(r)), Always, [Made(Some(r))])
  }

  function RunNode(env: Env, calls: seq<Call>, n: Node, inputs: seq<Item>, plane: Plane): Out {
    match n.kind
    case Trigger => Out([], Event, Always, inputs)
    case Branch =>
      var payload := n.config.payload;
      var (all, conditions) := if payload.Conditions? then (payload.all, payload.conditions) else (true, []);
      Out([], Matched(Holds(env, calls, all, conditions, Some(plane))), Always, inputs)
    case ActionStep =>
      if !n.config.payload.Act? then Out([], Came(None), Always, [Made(None)])
      else
        var r := env.act(calls, n.config.payload.action, Some(plane));
        ActionOut(r)
    case Agent => env.run(calls, n, inputs, plane).(fired := Always, items := inputs)
    case Item => env.run(calls, n, inputs, plane)
  }

  function CallsAfter(calls: seq<Call>, n: Node, out: Out): seq<Call> {
    match n.kind
    case ActionStep =>
      if n.config.payload.Act? && out.results != [] then calls + [Did(n.config.payload.action, out.results[0])]
      else calls
    case Agent => calls + [Ran(n, out)]
    case Item => calls + [Ran(n, out)]
    case _ => calls
  }

  /** Whether a node that ran sends the run along its edge. */
  predicate Fires(n: Node, out: Out, e: Edge) {
    if n.kind == Branch then e.when == Always || e.when == (if out.output == Matched(true) then OnTrue else OnFalse)
    else if n.kind == Item && out.fired != Always then (if e.when == Always then OnTrue else e.when) == out.fired
    else true
  }

  predicate AnyStop(results: seq<Result>) {
    exists r :: r in results && r.stop
  }

  function Stamp(id: string, results: seq<Result>): seq<Stamped> {
    seq(|results|, k requires 0 <= k < |results| => Stamped(id, results[k]))
  }

  predicate Reached(g: Graph, n: Node, s: State) {
    n.kind == Trigger || ActiveSources(g, g.edges, s.active, n.id) != []
  }

  /** One node's turn. */
  function Visit(env: Env, g: Graph, id: string, s: State): State {
    match Lookup(g.nodes, id)
    case None => s
    case Some(n) =>
      if s.stopped || !Reached(g, n, s) then s
      else
        var inputs := InputsFor(ActiveSources(g, g.edges, s.active, id), s.items);
        var out := RunNode(env, s.calls, n, inputs, Plane(inputs[0], s.steps));
        var stops := AnyStop(out.results);
        State(s.ran + [id],
              if stops then s.active else s.active + Fired(g, n, out),
              s.results + Stamp(id, out.results),
              s.items[id := out.items], s.steps[id := out], CallsAfter(s.calls, n, out), stops)
  }

  function Fired(g: Graph, n: Node, out: Out): set<Edge> {
    set e | e in Outgoing(g, g.edges, n.id) && Fires(n, out, e)
  }

  /** The nodes' turns, in this order. */
  function Walk(env: Env, g: Graph, order: seq<string>): State {
    if order == [] then START else Visit(env, g, order[|order| - 1], Walk(env, g, order[..|order| - 1]))
  }

  lemma {:induction false} StoppedStays(env: Env, g: Graph, order: seq<string>, k: nat)
    requires k <= |order| && Walk(env, g, order[..k]).stopped
    ensures Walk(env, g, order) == Walk(env, g, order[..k])
  {
    if k < |order| {
      assert order[..|order| - 1][..k] == order[..k];
      StoppedStays(env, g, order[..|order| - 1], k);
    } else {
      assert order[..k] == order;
    }
  }

  /** The edges a node that ran activates. */
  method Activate(g: Graph, n: Node, out: Out, outs: seq<Edge>, active0: set<Edge>) returns (active: set<Edge>)
    requires outs == Outgoing(g, g.edges, n.id)
    ensures active == active0 + Fired(g, n, out)
  {
    active := active0;
    for k := 0 to |outs|
      invariant active == active0 + set e | e in outs[..k] && Fires(n, out, e)
    {
      assert outs[..k + 1] == outs[..k] + [outs[k]];
      if Fires(n, out, outs[k]) {
        active := active + {outs[k]};
      }
    }
    assert outs[..|outs|] == outs;
  }

  /** runGraph, once its order is settled. */
  method RunGraph(env: Env, g: Graph) returns (results: seq<Stamped>, order: seq<string>, sorted: nat)
    ensures IsOrder(g, order, sorted) && results == Walk(env, g, order).results
  {
    hide IsOrder, ActiveSources, InputsFor, RunNode, Fired, Lookup;
    var ids;
    ids, sorted := Order(g);
    order := ids;
    var active: set<Edge>, calls: seq<Call> := {}, [];
    var items: map<string, seq<Item>>, steps: map<string, Out> := map[], map[];
    results := [];
    ghost var ran: seq<string> := [];
    for i := 0 to |ids|
      invariant State(ran, active, results, items, steps, calls, false) == Walk(env, g, ids[..i])
    {
      assert ids[..i + 1][..i] == ids[..i];
      var found := Lookup(g.nodes, ids[i]);
      if found.None? {
        continue;
      }
      var n := found.value;
      var from := ActiveSources(g, g.edges, active, n.id);
      if n.kind != Trigger && from == [] {
        continue;
      }
      var inputs := InputsFor(from, items);
      var out := RunNode(env, calls, n, inputs, Plane(inputs[0], steps));
      ran := ran + [n.id];
      steps := steps[n.id := out];
      items := items[n.id := out.items];
      calls := CallsAfter(calls, n, out);
      results := results + Stamp(n.id, out.results);
      if AnyStop(out.results) {
        StoppedStays(env, g, ids, i + 1);
        return;
      }
      active := Activate(g, n, out, Outgoing(g, g.edges, n.id), active);
    }
    assert ids[..|ids|] == ids;
  }

  // ── every graph ────────────────────────────────────────────────────────────

  predicate IsTrigger(g: Graph, id: string) {
    var n := Lookup(g.nodes, id); n.Some? && n.value.kind == Trigger
  }

  /** What holds after any nodes' turns: a node that ran is a trigger or was entered from one that
      ran, and an active edge leaves one that ran. */
  ghost predicate Grounded(g: Graph, s: State) {
    (forall x :: x in s.ran ==> Founded(g, s.ran, x)) && (forall e :: e in s.active ==> Leaves(g, s.ran, e))
  }

  ghost predicate Founded(g: Graph, ran: seq<string>, x: string) {
    IsNode(g, x) && (IsTrigger(g, x) || exists from :: from in ran && IsSource(g, from, x))
  }

  ghost predicate Leaves(g: Graph, ran: seq<string>, e: Edge) {
    e in g.edges && Joins(g, e) && e.from in ran
  }

  lemma {:induction false} MoreRan(g: Graph, ran: seq<string>, id: string)
    ensures forall x :: Founded(g, ran, x) ==> Founded(g, ran + [id], x)
    ensures forall e :: Leaves(g, ran, e) ==> Leaves(g, ran + [id], e)
  {
    hide IsNode, IsTrigger, IsSource;
    forall x | Founded(g, ran, x) ensures Founded(g, ran + [id], x) {
      if !IsTrigger(g, x) {
        var from :| from in ran && IsSource(g, from, x);
        assert from in ran + [id];
      }
    }
  }

  lemma {:induction false} FiredLeave(g: Graph, ran: seq<string>, n: Node, out: Out)
    requires n.id in ran
    ensures forall e :: e in Fired(g, n, out) ==> Leaves(g, ran, e)
  {
    hide Fires;
    forall e | e in Fired(g, n, out) ensures Leaves(g, ran, e) {
      OutgoingAre(g, g.edges, n.id, e);
    }
  }

  lemma {:induction false} ReachedIsFounded(g: Graph, n: Node, s: State)
    requires Grounded(g, s) && Lookup(g.nodes, n.id) == Some(n) && Reached(g, n, s)
    ensures Founded(g, s.ran, n.id)
  {
    if n.kind != Trigger {
      var x := ActiveSources(g, g.edges, s.active, n.id)[0];
      assert x in ActiveSources(g, g.edges, s.active, n.id);
      var e :| e in g.edges && e in s.active && e.to == n.id && e.from == x;
      assert Leaves(g, s.ran, e) && IsSource(g, x, n.id);
    }
  }

  lemma {:induction false} VisitGrounded(env: Env, g: Graph, id: string, s: State)
    requires Grounded(g, s)
    ensures Grounded(g, Visit(env, g, id, s))
  {
    hide RunNode, CallsAfter, InputsFor, Fired, Founded, Leaves, Reached, ActiveSources, Stamp, AnyStop;
    var found := Lookup(g.nodes, id);
    if found.Some? && !s.stopped && Reached(g, found.value, s) {
      var n := found.value;
      ReachedIsFounded(g, n, s);
      MoreRan(g, s.ran, id);
      forall out ensures forall e :: e in Fired(g, n, out) ==> Leaves(g, s.ran + [id], e) {
        FiredLeave(g, s.ran + [id], n, out);
      }
    }
  }

  lemma {:induction false} WalkGrounded(env: Env, g: Graph, order: seq<string>)
    ensures Grounded(g, Walk(env, g, order))
  {
    hide Grounded, Visit;
    if order == [] {
      NothingRan(g);
    } else {
      WalkGrounded(env, g, order[..|order| - 1]);
      VisitGrounded(env, g, order[|order| - 1], Walk(env, g, order[..|order| - 1]));
    }
  }

  lemma {:induction false} NothingRan(g: Graph)
    ensures Grounded(g, START)
  {
  }

  lemma {:induction false} RanInOrder(env: Env, g: Graph, order: seq<string>)
    ensures multiset(Walk(env, g, order).ran) <= multiset(order)
  {
    if order != [] {
      var init, last := order[..|order| - 1], order[|order| - 1];
      assert order == init + [last];
      RanInOrder(env, g, init);
      hide RunNode, CallsAfter, InputsFor, Fired, Reached, Lookup;
    }
  }

  /**
   In every run of every graph, cyclic or not and whatever the environment answers, no node that does
   anything runs twice; with unique ids no node at all does.
   */
  lemma {:induction false} EachRunsAtMostOnce(env: Env, g: Graph, order: seq<string>, sorted: nat, id: string)
    requires IsOrder(g, order, sorted) && (UniqueIds(g) || !IsTrigger(g, id))
    ensures multiset(Walk(env, g, order).ran)[id] <= 1
  {
    hide UniqueIds, Walk, SourcesFirst, PlacedWhenFree;
    WalkGrounded(env, g, order);
    RanInOrder(env, g, order);
    var ran := Walk(env, g, order).ran;
    if id in ran && !UniqueIds(g) {
      var from :| from in ran && IsSource(g, from, id);
      assert Entered(g, id);
    }
  }

  /** Triggers alone give no results, so running one twice shows nowhere in them. */
  lemma {:induction false} ResultsAreOfNodes(env: Env, g: Graph, order: seq<string>)
    ensures forall r :: r in Walk(env, g, order).results ==> r.node in Walk(env, g, order).ran && !IsTrigger(g, r.node)
  {
    if order != [] {
      var init := order[..|order| - 1];
      ResultsAreOfNodes(env, g, init);
      hide CallsAfter, InputsFor, Fired, Reached, Lookup;
    }
  }

  /** A run from a single trigger stays inside the nodes the canvas shows as reachable. */
  lemma {:induction false} RunsInsideReachable(env: Env, g: Graph, order: seq<string>)
    requires forall id :: IsTrigger(g, id) ==> id == "trigger"
    ensures forall id :: id in Walk(env, g, order).ran ==> Reaches(g, "trigger", id)
  {
    if order != [] {
      var init, last := order[..|order| - 1], order[|order| - 1];
      RunsInsideReachable(env, g, init);
      WalkGrounded(env, g, init);
      var s := Walk(env, g, init);
      hide Walk, Grounded, RunNode, CallsAfter, InputsFor, Fired, Reaches, Lookup;
      OneMoreReached(env, g, last, s);
    }
  }

  lemma {:induction false} OneMoreReached(env: Env, g: Graph, id: string, s: State)
    requires forall x :: IsTrigger(g, x) ==> x == "trigger"
    requires Grounded(g, s) && forall x :: x in s.ran ==> Reaches(g, "trigger", x)
    ensures forall x :: x in Visit(env, g, id, s).ran ==> Reaches(g, "trigger", x)
  {
    hide RunNode, CallsAfter, InputsFor, Fired, Reaches;
    var found := Lookup(g.nodes, id);
    if found.Some? && !s.stopped && Reached(g, found.value, s) {
      if found.value.kind == Trigger {
        assert IsTrigger(g, id);
        ReachesItself(g, id);
      } else {
        var x := ActiveSources(g, g.edges, s.active, id)[0];
        assert x in ActiveSources(g, g.edges, s.active, id);
        var e :| e in g.edges && e in s.active && e.to == id && e.from == x;
        assert x in s.ran && HasEdge(g, x, id);
        ReachesNext(g, "trigger", x, id);
      }
    }
  }

  // ── every acyclic graph ────────────────────────────────────────────────────

  /** An active edge is one that a node which ran sends the run along. */
  ghost predicate ActiveAreFired(g: Graph, s: State) {
    && (forall x :: x in s.ran ==> x in s.steps && Lookup(g.nodes, x).Some?)
    && (forall e :: e in s.active <==> Sent(g, s, e))
  }

  ghost predicate Sent(g: Graph, s: State, e: Edge) {
    e in g.edges && Joins(g, e) && e.from in s.ran && e.from in s.steps && Lookup(g.nodes, e.from).Some?
    && Fires(Lookup(g.nodes, e.from).value, s.steps[e.from], e)
  }

  lemma {:induction false} VisitFires(env: Env, g: Graph, id: string, s: State)
    requires ActiveAreFired(g, s) && id !in s.ran && !Visit(env, g, id, s).stopped
    ensures ActiveAreFired(g, Visit(env, g, id, s))
  {
    hide RunNode, CallsAfter, InputsFor, Fires, Reached;
    forall e ensures e in Outgoing(g, g.edges, id) <==> e in g.edges && Joins(g, e) && e.from == id {
      OutgoingAre(g, g.edges, id, e);
    }
  }

  /** The first k nodes of the order ran exactly if something sent the run to them. */
  ghost predicate Settled(g: Graph, order: seq<string>, k: nat, s: State)
    requires k <= |order|
  {
    && (forall x :: x in s.ran ==> x in order[..k])
    && (forall j :: 0 <= j < k ==> (order[j] in s.ran <==> Chosen(g, s, order[j])))
  }

  predicate Chosen(g: Graph, s: State, id: string) {
    IsTrigger(g, id) || ActiveSources(g, g.edges, s.active, id) != []
  }

  /** Edges from a later node never enter an earlier one. */
  lemma {:induction false} LaterSendsNothingBack(g: Graph, order: seq<string>, j: nat, k: nat, out: Out, n: Node)
    requires IsOrder(g, order, |order|) && UniqueIds(g) && j <= k < |order| && n.id == order[k]
    ensures forall e :: e in Fired(g, n, out) ==> e.to != order[j]
  {
    hide UniqueIds, PlacedWhenFree, Fires;
    forall e | e in Fired(g, n, out) ensures e.to != order[j] {
      OutgoingAre(g, g.edges, n.id, e);
      if e.to == order[j] {
        assert IsSource(g, order[k], order[j]);
        var i := IndexIn(order[..j], order[k]);
        SamePlace(order, i, k);
      }
    }
  }

  lemma {:induction false} StillChosen(g: Graph, s: State, t: State, id: string)
    requires s.active <= t.active && forall e :: e in t.active && e.to == id ==> e in s.active
    ensures Chosen(g, s, id) <==> Chosen(g, t, id)
  {
    var from, to := ActiveSources(g, g.edges, s.active, id), ActiveSources(g, g.edges, t.active, id);
    if from != [] {
      assert from[0] in from && from[0] in to;
    }
    if to != [] {
      assert to[0] in to && to[0] in from;
    }
  }

  lemma {:induction false} TurnSettles(env: Env, g: Graph, order: seq<string>, k: nat, s: State)
    requires IsOrder(g, order, |order|) && UniqueIds(g) && k < |order| && Settled(g, order, k, s)
    requires !Visit(env, g, order[k], s).stopped
    ensures Settled(g, order, k + 1, Visit(env, g, order[k], s))
  {
    var t, id := Visit(env, g, order[k], s), order[k];
    hide UniqueIds, PlacedWhenFree, SourcesFirst, RunNode, CallsAfter, InputsFor, Fires, ActiveSources;
    assert order[..k + 1] == order[..k] + [id];
    assert multiset(order)[id] <= 1;
    assert id !in order[..k] by {
      if id in order[..k] {
        var i := IndexIn(order[..k], id);
        SamePlace(order, i, k);
      }
    }
    var found := Lookup(g.nodes, id);
    assert found.Some? by {
      assert id in order && IsNode(g, id);
    }
    forall j | 0 <= j < k + 1 ensures order[j] in t.ran <==> Chosen(g, t, order[j]) {
      if t.ran != s.ran {
        var out := t.steps[id];
        LaterSendsNothingBack(g, order, j, k, out, found.value);
        StillChosen(g, s, t, order[j]);
        if j < k {
          assert order[j] in order[..k];
        }
      } else {
        assert t == s;
      }
    }
  }

  lemma {:induction false} WalkSettles(env: Env, g: Graph, order: seq<string>, k: nat)
    requires IsOrder(g, order, |order|) && UniqueIds(g) && k <= |order| && !Walk(env, g, order[..k]).stopped
    ensures Settled(g, order, k, Walk(env, g, order[..k])) && ActiveAreFired(g, Walk(env, g, order[..k]))
  {
    hide IsOrder, Visit;
    if k > 0 {
      assert order[..k][..k - 1] == order[..k - 1];
      var s := Walk(env, g, order[..k - 1]);
      NotYetStopped(env, g, order[k - 1], s);
      WalkSettles(env, g, order, k - 1);
      TurnSettles(env, g, order, k - 1, s);
      NotYetRun(g, order, k - 1, s);
      VisitFires(env, g, order[k - 1], s);
    }
  }

  lemma {:induction false} NotYetStopped(env: Env, g: Graph, id: string, s: State)
    ensures s.stopped ==> Visit(env, g, id, s).stopped
  {
  }

  lemma {:induction false} NotYetRun(g: Graph, order: seq<string>, k: nat, s: State)
    requires IsOrder(g, order, |order|) && UniqueIds(g) && k < |order| && Settled(g, order, k, s)
    ensures order[k] !in s.ran
  {
    hide SourcesFirst, PlacedWhenFree, Chosen;
    if order[k] in order[..k] {
      var i := IndexIn(order[..k], order[k]);
      SamePlace(order, i, k);
    }
  }

  /**
   What a graph without cycles means, said without an order: unless the run is halted by a stop, a
   node runs if and only if it is a trigger or some node that ran sends the run along an edge to it.
   */
  lemma {:induction false} WhichNodesRun(env: Env, g: Graph, order: seq<string>, sorted: nat, id: string)
    requires IsOrder(g, order, sorted) && UniqueIds(g) && Acyclic(Seen(g)) && IsNode(g, id)
    requires !Walk(env, g, order).stopped
    ensures var s := Walk(env, g, order);
            id in s.ran <==> IsTrigger(g, id) || exists e :: Sent(g, s, e) && e.to == id
  {
    AllPlacedIffAcyclic(g, order, sorted);
    assert order[..|order|] == order;
    WalkSettles(env, g, order, |order|);
    hide Walk, UniqueIds, SourcesFirst, PlacedWhenFree, Acyclic, Seen;
    var s := Walk(env, g, order);
    var j := IndexIn(order, id);
    var from := ActiveSources(g, g.edges, s.active, id);
    if from != [] {
      assert from[0] in from;
    }
    if exists e :: Sent(g, s, e) && e.to == id {
      var e :| Sent(g, s, e) && e.to == id;
      assert e.from in from;
    }
  }

  // ── the derived graph ──────────────────────────────────────────────────────

  lemma {:induction false} DistinctOnce(s: seq<string>, x: string)
    requires forall i, j :: 0 <= i < j < |s| ==> s[i] != s[j]
    ensures multiset(s)[x] <= 1
  {
    if s != [] {
      var init, last := s[..|s| - 1], s[|s| - 1];
      assert s == init + [last];
      DistinctOnce(init, x);
    }
  }

  lemma {:induction false} DerivedIdsUnique(d: DeriveGraph.Draft)
    ensures UniqueIds(DeriveGraph.Derived(d))
  {
    var g := DeriveGraph.Derived(d);
    DeriveGraph.DerivedIsChain(d);
    forall x ensures multiset(Ids(g.nodes))[x] <= 1 {
      DistinctOnce(Ids(g.nodes), x);
    }
  }

  /** How many columns a draft's graph has. */
  function Width(d: DeriveGraph.Draft): (n: nat)
    ensures n == |DeriveGraph.Derived(d).nodes| >= 1
  {
    d.Lead() + |d.actions|
  }

  lemma {:induction false} ColumnIsNode(d: DeriveGraph.Draft, j: nat)
    requires j < Width(d)
    ensures IsNode(DeriveGraph.Derived(d), DeriveGraph.IdAt(d, j))
    ensures DeriveGraph.NodeAt(d, j).id == DeriveGraph.IdAt(d, j)
  {
    var g := DeriveGraph.Derived(d);
    assert g.nodes[j] == DeriveGraph.NodeAt(d, j) && g.nodes[j] in g.nodes;
  }

  lemma {:induction false} ColumnSource(d: DeriveGraph.Draft, from: string, j: nat)
    requires j < Width(d)
    ensures IsSource(DeriveGraph.Derived(d), from, DeriveGraph.IdAt(d, j)) <==>
            j > 0 && from == DeriveGraph.IdAt(d, j - 1)
  {
    var g := DeriveGraph.Derived(d);
    hide DeriveGraph.IdAt, IsNode;
    if j > 0 {
      var e := g.edges[j - 1];
      assert e == DeriveGraph.EdgeAt(d, j - 1);
      ColumnIsNode(d, j - 1);
      ColumnIsNode(d, j);
    }
    if IsSource(g, from, DeriveGraph.IdAt(d, j)) {
      var e :| e in g.edges && Joins(g, e) && e.from == from && e.to == DeriveGraph.IdAt(d, j);
      var k :| 0 <= k < |g.edges| && g.edges[k] == e;
      assert e == DeriveGraph.EdgeAt(d, k);
      DeriveGraph.IdsDistinct(d, k + 1, j);
    }
  }

  lemma {:induction false} ColumnPlaced(d: DeriveGraph.Draft, order: seq<string>, sorted: nat, j: nat)
    requires IsOrder(DeriveGraph.Derived(d), order, sorted) && j < Width(d)
    ensures DeriveGraph.IdAt(d, j) in order[..sorted]
  {
    var g := DeriveGraph.Derived(d);
    DerivedIdsUnique(d);
    hide DeriveGraph.Derived, DeriveGraph.IdAt, UniqueIds, SourcesFirst, IsSource, IsNode;
    ColumnIsNode(d, j);
    if j > 0 {
      ColumnPlaced(d, order, sorted, j - 1);
    }
    forall from | IsSource(g, from, DeriveGraph.IdAt(d, j)) ensures from in order[..sorted] {
      ColumnSource(d, from, j);
    }
  }

  /** The engine takes a derived graph's columns from left to right. */
  lemma {:induction false} ColumnInOrder(d: DeriveGraph.Draft, order: seq<string>, sorted: nat, j: nat)
    requires IsOrder(DeriveGraph.Derived(d), order, sorted) && j < |order|
    ensures j < Width(d) && order[j] == DeriveGraph.IdAt(d, j)
  {
    var g := DeriveGraph.Derived(d);
    DerivedIdsUnique(d);
    hide DeriveGraph.IdAt, UniqueIds, SourcesFirst, PlacedWhenFree, IsSource;
    var k := WhichColumn(d, order, sorted, j);
    ColumnPlaced(d, order, sorted, k);
    var p := IndexIn(order[..sorted], order[j]);
    SamePlace(order, p, j);
    if k > 0 {
      ColumnBefore(d, order, sorted, j, k);
      var c := IndexIn(order[..j], DeriveGraph.IdAt(d, k - 1));
      ColumnInOrder(d, order, sorted, c);
      DeriveGraph.IdsDistinct(d, c, k - 1);
      assert k == c + 1 <= j;
    }
    if k < j {
      ColumnInOrder(d, order, sorted, k);
      SamePlace(order, k, j);
    }
  }

  lemma {:induction false} WhichColumn(d: DeriveGraph.Draft, order: seq<string>, sorted: nat, j: nat) returns (k: nat)
    requires IsOrder(DeriveGraph.Derived(d), order, sorted) && j < |order|
    ensures k < Width(d) && order[j] == DeriveGraph.IdAt(d, k)
  {
    hide UniqueIds, SourcesFirst, PlacedWhenFree, Entered;
    var g := DeriveGraph.Derived(d);
    assert order[j] in order && IsNode(g, order[j]);
    var n :| n in g.nodes && n.id == order[j];
    k :| 0 <= k < |g.nodes| && g.nodes[k] == n;
    assert n == DeriveGraph.NodeAt(d, k);
  }

  lemma {:induction false} ColumnBefore(d: DeriveGraph.Draft, order: seq<string>, sorted: nat, j: nat, k: nat)
    requires IsOrder(DeriveGraph.Derived(d), order, sorted) && UniqueIds(DeriveGraph.Derived(d)) && j < sorted
    requires 0 < k < Width(d) && order[j] == DeriveGraph.IdAt(d, k)
    ensures DeriveGraph.IdAt(d, k - 1) in order[..j]
  {
    hide DeriveGraph.IdAt, DeriveGraph.Derived, UniqueIds, PlacedWhenFree, IsSource, Entered;
    ColumnSource(d, DeriveGraph.IdAt(d, k - 1), k);
  }

  lemma {:induction false} ColumnsInOrder(d: DeriveGraph.Draft, order: seq<string>, sorted: nat)
    requires IsOrder(DeriveGraph.Derived(d), order, sorted)
    ensures |order| == Width(d) && forall j :: 0 <= j < |order| ==> order[j] == DeriveGraph.IdAt(d, j)
  {
    hide DeriveGraph.Derived, DeriveGraph.IdAt;
    forall j | 0 <= j < |order| ensures j < Width(d) && order[j] == DeriveGraph.IdAt(d, j) {
      ColumnInOrder(d, order, sorted, j);
    }
    var last := Width(d) - 1;
    ColumnPlaced(d, order, sorted, last);
    var i := IndexIn(order[..sorted], DeriveGraph.IdAt(d, last));
    DeriveGraph.IdsDistinct(d, i, last);
    ColumnInOrder(d, order, sorted, |order| - 1);
  }

  // ── what the derived graph does ────────────────────────────────────────────

  const TRIGGERED := Out([], Event, Always, [Seed])

  /** What `steps` holds once the first columns ran. */
  function LeadSteps(d: DeriveGraph.Draft, matched: bool): map<string, Out> {
    if d.Lead() == 1 then map["trigger" := TRIGGERED]
    else map["trigger" := TRIGGERED, "branch" := Out([], Matched(matched), Always, [Seed])]
  }

  function StepsAfter(d: DeriveGraph.Draft, matched: bool, results: seq<Result>): map<string, Out> {
    if results == [] then LeadSteps(d, matched)
    else
      var k := |results| - 1;
      StepsAfter(d, matched, results[..k])[DeriveGraph.ActionId(k) := ActionOut(results[k])]
  }

  /** The item an action of the chain finds: what the one before it made. */
  function ItemAfter(results: seq<Result>): Item {
    if results == [] then Seed else Made(Some(results[|results| - 1]))
  }

  /** The plane an action of the chain sees. */
  function ChainPlane(d: DeriveGraph.Draft, matched: bool): seq<Result> -> Option<Plane> {
    (before: seq<Result>) => Some(Plane(ItemAfter(before), StepsAfter(d, matched, before)))
  }

  /** The rule's conditions, as the branch node finds them. */
  predicate Matches(env: Env, d: DeriveGraph.Draft) {
    Holds(env, [], d.all, d.conditions, Some(Plane(Seed, map["trigger" := TRIGGERED])))
  }

  function StampAll(results: seq<Result>): seq<Stamped> {
    seq(|results|, k requires 0 <= k < |results| => Stamped(DeriveGraph.ActionId(k), results[k]))
  }

  /** After the lead columns and i actions of the chain. */
  ghost predicate AtAction(env: Env, d: DeriveGraph.Draft, i: nat, s: State)
    requires i <= |d.actions|
  {
    var rs := Performed(env, d.actions, ChainPlane(d, true), i);
    && s.results == StampAll(rs) && (s.stopped <==> Halted(rs))
    && (!s.stopped ==> s.calls == Calls(d.actions, rs) && s.steps == StepsAfter(d, true, rs)
                       && Carried(d, d.Lead() + i - 1, ItemAfter(rs), s))
  }

  /** Column j has run last: its item is ready, its edge active, and none after it. */
  ghost predicate Carried(d: DeriveGraph.Draft, j: nat, item: Item, s: State) {
    && DeriveGraph.IdAt(d, j) in s.items && s.items[DeriveGraph.IdAt(d, j)] == [item]
    && (j + 1 < Width(d) ==> DeriveGraph.EdgeAt(d, j) in s.active)
    && forall k :: k > j ==> DeriveGraph.EdgeAt(d, k) !in s.active
  }

  lemma {:induction false} LookupColumn(d: DeriveGraph.Draft, j: nat)
    requires j < Width(d)
    ensures Lookup(DeriveGraph.Derived(d).nodes, DeriveGraph.IdAt(d, j)) == Some(DeriveGraph.NodeAt(d, j))
  {
    var g, id := DeriveGraph.Derived(d), DeriveGraph.IdAt(d, j);
    ColumnIsNode(d, j);
    hide DeriveGraph.IdAt;
    var n := Lookup(g.nodes, id);
    assert g.nodes[j] == DeriveGraph.NodeAt(d, j) && g.nodes[j] in g.nodes;
    var k :| 0 <= k < |g.nodes| && g.nodes[k] == n.value;
    ColumnIsNode(d, k);
    DeriveGraph.IdsDistinct(d, j, k);
  }

  lemma {:induction false} NoSources(g: Graph, edges: seq<Edge>, active: set<Edge>, id: string)
    requires forall i :: 0 <= i < |edges| ==> edges[i].to != id
    ensures ActiveSources(g, edges, active, id) == []
  {
    if edges != [] {
      NoSources(g, edges[..|edges| - 1], active, id);
    }
  }

  lemma {:induction false} OneSource(g: Graph, edges: seq<Edge>, active: set<Edge>, id: string, k: nat)
    requires k < |edges| && edges[k].to == id && IsNode(g, edges[k].from)
    requires forall i :: 0 <= i < |edges| && i != k ==> edges[i].to != id
    ensures ActiveSources(g, edges, active, id) == if edges[k] in active then [edges[k].from] else []
  {
    hide IsNode, ActiveSources;
    var init, last := edges[..|edges| - 1], edges[|edges| - 1];
    SourcesSnoc(g, init, last, active, id);
    assert edges == init + [last];
    if k == |edges| - 1 {
      NoSources(g, init, active, id);
    } else {
      OneSource(g, init, active, id, k);
    }
  }

  lemma {:induction false} SourcesSnoc(g: Graph, edges: seq<Edge>, e: Edge, active: set<Edge>, id: string)
    ensures ActiveSources(g, edges + [e], active, id)
            == ActiveSources(g, edges, active, id)
                + (if e in active && e.to == id && IsNode(g, e.from) then [e.from] else [])
  {
    hide IsNode;
    assert (edges + [e])[..|edges|] == edges;
  }

  lemma {:induction false} EdgeOfColumns(d: DeriveGraph.Draft, k: nat)
    requires k + 1 < Width(d)
    ensures var e := DeriveGraph.Derived(d).edges[k];
            e == DeriveGraph.EdgeAt(d, k) && e.from == DeriveGraph.IdAt(d, k) && e.to == DeriveGraph.IdAt(d, k + 1)
  {
  }

  /** A column is entered from the one before it, if at all. */
  lemma {:induction false} SourcesOfColumn(d: DeriveGraph.Draft, active: set<Edge>, j: nat)
    requires j < Width(d)
    ensures var g := DeriveGraph.Derived(d);
            ActiveSources(g, g.edges, active, DeriveGraph.IdAt(d, j))
            == if 0 < j && DeriveGraph.EdgeAt(d, j - 1) in active then [DeriveGraph.IdAt(d, j - 1)] else []
  {
    var g, id := DeriveGraph.Derived(d), DeriveGraph.IdAt(d, j);
    assert |g.edges| == Width(d) - 1;
    hide DeriveGraph.Derived, DeriveGraph.IdAt, DeriveGraph.EdgeAt, DeriveGraph.NodeAt, ActiveSources, IsNode;
    forall i | 0 <= i < |g.edges| && i + 1 != j ensures g.edges[i].to != id {
      EdgeOfColumns(d, i);
      DeriveGraph.IdsDistinct(d, i + 1, j);
    }
    if j == 0 {
      NoSources(g, g.edges, active, id);
    } else {
      EdgeOfColumns(d, j - 1);
      ColumnIsNode(d, j - 1);
      OneSource(g, g.edges, active, id, j - 1);
    }
  }

  lemma {:induction false} OutgoingOfColumn(d: DeriveGraph.Draft, j: nat, e: Edge)
    requires j < Width(d)
    ensures var g := DeriveGraph.Derived(d);
            e in Outgoing(g, g.edges, DeriveGraph.IdAt(d, j)) <==> j + 1 < Width(d) && e == DeriveGraph.EdgeAt(d, j)
  {
    var g, id := DeriveGraph.Derived(d), DeriveGraph.IdAt(d, j);
    OutgoingAre(g, g.edges, id, e);
    ColumnIsNode(d, j);
    hide DeriveGraph.IdAt, DeriveGraph.NodeAt, IsNode;
    if j + 1 < Width(d) {
      assert g.edges[j] == DeriveGraph.EdgeAt(d, j);
      ColumnIsNode(d, j + 1);
    }
    if e in Outgoing(g, g.edges, id) {
      var k :| 0 <= k < |g.edges| && g.edges[k] == e;
      assert e == DeriveGraph.EdgeAt(d, k);
      DeriveGraph.IdsDistinct(d, k, j);
    }
  }

  /** And left to the one after it, if at all. */
  lemma {:induction false} FiredOfColumn(d: DeriveGraph.Draft, j: nat, out: Out)
    requires j < Width(d)
    ensures Fired(DeriveGraph.Derived(d), DeriveGraph.NodeAt(d, j), out)
            == if j + 1 < Width(d) && Fires(DeriveGraph.NodeAt(d, j), out, DeriveGraph.EdgeAt(d, j))
               then {DeriveGraph.EdgeAt(d, j)} else {}
  {
    var g, n := DeriveGraph.Derived(d), DeriveGraph.NodeAt(d, j);
    ColumnIsNode(d, j);
    hide Fires, DeriveGraph.IdAt, DeriveGraph.NodeAt, DeriveGraph.EdgeAt, DeriveGraph.Derived, Outgoing;
    forall e ensures e in Outgoing(g, g.edges, n.id) <==> j + 1 < Width(d) && e == DeriveGraph.EdgeAt(d, j) {
      OutgoingOfColumn(d, j, e);
    }
  }

  lemma {:induction false} EdgesDiffer(d: DeriveGraph.Draft, j: nat, k: nat)
    ensures DeriveGraph.EdgeAt(d, j) == DeriveGraph.EdgeAt(d, k) ==> j == k
  {
    DeriveGraph.IdsDistinct(d, j, k);
  }

  /** Activating a column's edge carries the run on to the next. */
  lemma {:induction false} CarryOn(d: DeriveGraph.Draft, j: nat, active: set<Edge>, fired: set<Edge>)
    requires forall k :: k >= j ==> DeriveGraph.EdgeAt(d, k) !in active
    requires fired == if j + 1 < Width(d) then {DeriveGraph.EdgeAt(d, j)} else {}
    ensures j + 1 < Width(d) ==> DeriveGraph.EdgeAt(d, j) in active + fired
    ensures forall k :: k > j ==> DeriveGraph.EdgeAt(d, k) !in active + fired
  {
    forall k | k > j ensures DeriveGraph.EdgeAt(d, k) !in active + fired {
      EdgesDiffer(d, j, k);
    }
  }

  lemma {:induction false} OneItem(id: string, items: map<string, seq<Item>>, item: Item)
    requires id in items && items[id] == [item]
    ensures InputsFor([id], items) == [item]
  {
    assert [id][..0] == [];
    assert Collected([], items) == [];
    assert Collected([id], items) == [] + [item];
  }

  /** An action's turn when the run has come to it. */
  lemma {:induction false} ActionTurn(env: Env, d: DeriveGraph.Draft, i: nat, item: Item, s: State)
    requires i < |d.actions| && !s.stopped && Carried(d, d.Lead() + i - 1, item, s)
    ensures var j, r := d.Lead() + i, env.act(s.calls, d.actions[i], Some(Plane(item, s.steps)));
            var t := Visit(env, DeriveGraph.Derived(d), DeriveGraph.IdAt(d, j), s);
            && t.results == s.results + [Stamped(DeriveGraph.ActionId(i), r)] && t.stopped == r.stop
            && t.calls == s.calls + [Did(d.actions[i], r)]
            && t.steps == s.steps[DeriveGraph.ActionId(i) := ActionOut(r)]
            && (!r.stop ==> Carried(d, j, Made(Some(r)), t))
  {
    hide DeriveGraph.Derived, DeriveGraph.NodeAt, DeriveGraph.IdAt, DeriveGraph.EdgeAt, DeriveGraph.ActionId, Lookup,
         ActiveSources, InputsFor, Fired, Visit, RunNode, AnyStop, Stamp, Outgoing;
    var g, j := DeriveGraph.Derived(d), d.Lead() + i;
    var n, id := DeriveGraph.NodeAt(d, j), DeriveGraph.IdAt(d, j);
    ActionColumn(d, i);
    var prev := DeriveGraph.IdAt(d, j - 1);
    LookupColumn(d, j);
    SourcesOfColumn(d, s.active, j);
    OneItem(prev, s.items, item);
    var r := env.act(s.calls, d.actions[i], Some(Plane(item, s.steps)));
    var out := ActionOut(r);
    ActionRuns(env, s.calls, n, d.actions[i], item, s.steps);
    FiredOfColumn(d, j, out);
    ActionFires(n, out, DeriveGraph.EdgeAt(d, j));
    VisitIs(env, g, id, s, n, [prev], [item], out);
    CarryOn(d, j, s.active, Fired(g, n, out));
  }

  lemma {:induction false} ActionFires(n: Node, out: Out, e: Edge)
    requires n.kind == ActionStep
    ensures Fires(n, out, e)
  {
  }

  lemma {:induction false} ActionColumn(d: DeriveGraph.Draft, i: nat)
    requires i < |d.actions|
    ensures var n := DeriveGraph.NodeAt(d, d.Lead() + i);
            n.kind == ActionStep && n.config.payload == Act(d.actions[i])
            && n.id == DeriveGraph.IdAt(d, d.Lead() + i) == DeriveGraph.ActionId(i)
  {
  }

  /** What an action node's turn comes to by itself. */
  lemma {:induction false} ActionRuns(env: Env, calls: seq<Call>, n: Node, action: Action, item: Item,
                                      steps: map<string, Out>)
    requires n.kind == ActionStep && n.config.payload == Act(action)
    ensures var r := env.act(calls, action, Some(Plane(item, steps)));
            var out := ActionOut(r);
            && RunNode(env, calls, n, [item], Plane(item, steps)) == out
            && AnyStop(out.results) == r.stop && Stamp(n.id, out.results) == [Stamped(n.id, r)]
            && CallsAfter(calls, n, out) == calls + [Did(action, r)]
  {
    var r := env.act(calls, action, Some(Plane(item, steps)));
    assert r in [r];
  }

  /** The columns, as far as k. */
  function ColumnIds(d: DeriveGraph.Draft, k: nat): seq<string> {
    seq(k, j requires 0 <= j < k => DeriveGraph.IdAt(d, j))
  }

  lemma {:induction false} NextColumnTurn(env: Env, d: DeriveGraph.Draft, k: nat)
    ensures Walk(env, DeriveGraph.Derived(d), ColumnIds(d, k + 1))
            == Visit(env, DeriveGraph.Derived(d), DeriveGraph.IdAt(d, k),
                Walk(env, DeriveGraph.Derived(d), ColumnIds(d, k)))
    ensures Walk(env, DeriveGraph.Derived(d), ColumnIds(d, 0)) == START
  {
    hide DeriveGraph.Derived, DeriveGraph.IdAt, Visit;
    OneMoreId(d, k);
    WalkSnoc(env, DeriveGraph.Derived(d), ColumnIds(d, k), DeriveGraph.IdAt(d, k));
  }

  lemma {:induction false} OneMoreId(d: DeriveGraph.Draft, k: nat)
    ensures ColumnIds(d, k + 1) == ColumnIds(d, k) + [DeriveGraph.IdAt(d, k)] && ColumnIds(d, 0) == []
  {
    hide DeriveGraph.IdAt;
  }

  lemma {:induction false} WalkSnoc(env: Env, g: Graph, order: seq<string>, id: string)
    ensures Walk(env, g, order + [id]) == Visit(env, g, id, Walk(env, g, order)) && Walk(env, g, []) == START
  {
    hide Visit;
    assert (order + [id])[..|order|] == order;
  }

  /** The trigger's turn. */
  lemma {:induction false} TriggerTurn(env: Env, d: DeriveGraph.Draft)
    ensures var t := Walk(env, DeriveGraph.Derived(d), ColumnIds(d, 1));
            && t.results == [] && !t.stopped && t.calls == [] && t.steps == map["trigger" := TRIGGERED]
            && Carried(d, 0, Seed, t)
  {
    hide Walk, Visit, DeriveGraph.Derived, DeriveGraph.NodeAt, DeriveGraph.IdAt, DeriveGraph.EdgeAt, Lookup,
         ActiveSources, InputsFor, Fired, Fires, RunNode, Stamp, AnyStop, CallsAfter, ColumnIds, Outgoing;
    var g := DeriveGraph.Derived(d);
    var n := DeriveGraph.NodeAt(d, 0);
    NextColumnTurn(env, d, 0);
    LookupColumn(d, 0);
    SourcesOfColumn(d, {}, 0);
    TriggerRuns(env, d, n);
    FiredOfColumn(d, 0, TRIGGERED);
    VisitIs(env, g, "trigger", START, n, [], [Seed], TRIGGERED);
    CarryOn(d, 0, {}, Fired(g, n, TRIGGERED));
  }

  lemma {:induction false} TriggerRuns(env: Env, d: DeriveGraph.Draft, n: Node)
    requires n == DeriveGraph.NodeAt(d, 0)
    ensures n.kind == Trigger && n.id == "trigger" == DeriveGraph.IdAt(d, 0) && InputsFor([], map[]) == [Seed]
    ensures RunNode(env, [], n, [Seed], Plane(Seed, map[])) == TRIGGERED && !AnyStop(TRIGGERED.results)
    ensures Stamp(n.id, TRIGGERED.results) == [] && CallsAfter([], n, TRIGGERED) == []
    ensures forall e :: Fires(n, TRIGGERED, e)
  {
    assert Collected([], map[]) == [];
  }

  lemma {:induction false} BranchColumn(d: DeriveGraph.Draft)
    requires d.Lead() == 2
    ensures DeriveGraph.NodeAt(d, 1)
            == Node("branch", Branch, Config(Conditions(d.all, d.conditions), XY(DeriveGraph.COL, 0)))
    ensures DeriveGraph.IdAt(d, 0) == "trigger" && DeriveGraph.IdAt(d, 1) == "branch"
            && DeriveGraph.EdgeAt(d, 1).when == OnTrue
  {
  }

  lemma {:induction false} BranchVisit(env: Env, d: DeriveGraph.Draft, s: State)
    requires d.Lead() == 2 && !s.stopped && Carried(d, 0, Seed, s) && s.calls == []
             && s.steps == map["trigger" := TRIGGERED]
    ensures var t := Visit(env, DeriveGraph.Derived(d), "branch", s);
            && t.results == s.results && !t.stopped && t.calls == [] && t.steps == LeadSteps(d, Matches(env, d))
            && (Matches(env, d) ==> Carried(d, 1, Seed, t)) && (!Matches(env, d) ==> t.active == s.active)
  {
    hide DeriveGraph.Derived, DeriveGraph.NodeAt, DeriveGraph.EdgeAt, DeriveGraph.IdAt, Lookup, ActiveSources,
         InputsFor, Fired, Visit, RunNode, Matches, Holds, AnyStop, Stamp, Outgoing, LeadSteps, Fires, CallsAfter;
    var g, m := DeriveGraph.Derived(d), Matches(env, d);
    var n, out := DeriveGraph.NodeAt(d, 1), Out([], Matched(m), Always, [Seed]);
    BranchColumn(d);
    LookupColumn(d, 1);
    SourcesOfColumn(d, s.active, 1);
    OneItem("trigger", s.items, Seed);
    BranchRuns(env, d, n, s.steps);
    FiredOfColumn(d, 1, out);
    VisitIs(env, g, "branch", s, n, ["trigger"], [Seed], out);
    if m {
      CarryOn(d, 1, s.active, Fired(g, n, out));
    }
  }

  /** A turn in which the node runs, put together from its parts. */
  lemma {:induction false} VisitIs(env: Env, g: Graph, id: string, s: State, n: Node, from: seq<string>,
                                   inputs: seq<Item>, out: Out)
    requires Lookup(g.nodes, id) == Some(n) && !s.stopped
    requires ActiveSources(g, g.edges, s.active, id) == from && (n.kind == Trigger || from != [])
    requires inputs == InputsFor(from, s.items) && out == RunNode(env, s.calls, n, inputs, Plane(inputs[0], s.steps))
    ensures Visit(env, g, id, s)
            == State(s.ran + [id], if AnyStop(out.results) then s.active else s.active + Fired(g, n, out),
                     s.results + Stamp(id, out.results), s.items[id := out.items], s.steps[id := out],
                     CallsAfter(s.calls, n, out), AnyStop(out.results))
  {
    hide InputsFor, RunNode, CallsAfter, Fired, ActiveSources, AnyStop;
  }

  lemma {:induction false} BranchRuns(env: Env, d: DeriveGraph.Draft, n: Node, steps: map<string, Out>)
    requires d.Lead() == 2 && n.kind == Branch && n.config.payload == Conditions(d.all, d.conditions)
    requires steps == map["trigger" := TRIGGERED]
    ensures var out := Out([], Matched(Matches(env, d)), Always, [Seed]);
            && RunNode(env, [], n, [Seed], Plane(Seed, steps)) == out
            && !AnyStop(out.results) && Stamp(n.id, out.results) == [] && CallsAfter([], n, out) == []
            && steps["branch" := out] == LeadSteps(d, Matches(env, d))
            && forall e: Edge :: e.when == OnTrue ==> Fires(n, out, e) == Matches(env, d)
  {
    hide Matches;
    assert Matches(env, d) == Holds(env, [], d.all, d.conditions, Some(Plane(Seed, steps))) by {
      MatchesIs(env, d);
    }
  }

  lemma {:induction false} MatchesIs(env: Env, d: DeriveGraph.Draft)
    ensures Matches(env, d) == Holds(env, [], d.all, d.conditions, Some(Plane(Seed, map["trigger" := TRIGGERED])))
  {
  }

  /** The branch's turn, if there is one: without a match no column after it is active. */
  lemma {:induction false} BranchTurn(env: Env, d: DeriveGraph.Draft)
    requires d.Lead() == 2
    ensures var t := Walk(env, DeriveGraph.Derived(d), ColumnIds(d, 2));
            && t.results == [] && !t.stopped && t.calls == [] && t.steps == LeadSteps(d, Matches(env, d))
            && (Matches(env, d) ==> Carried(d, 1, Seed, t))
            && (!Matches(env, d) ==> Idle(d, t))
  {
    TriggerTurn(env, d);
    NextColumnTurn(env, d, 1);
    BranchColumn(d);
    hide Walk, DeriveGraph.Derived, DeriveGraph.IdAt, DeriveGraph.EdgeAt, Visit, Holds, LeadSteps;
    BranchVisit(env, d, Walk(env, DeriveGraph.Derived(d), ColumnIds(d, 1)));
  }

  ghost predicate Idle(d: DeriveGraph.Draft, s: State) {
    s.results == [] && forall k :: k >= 1 ==> DeriveGraph.EdgeAt(d, k) !in s.active
  }

  /** Where nothing after the branch is active, nothing more runs. */
  lemma {:induction false} StaysIdle(env: Env, d: DeriveGraph.Draft, k: nat)
    requires d.Lead() == 2 && !Matches(env, d) && 2 <= k <= Width(d)
    ensures Idle(d, Walk(env, DeriveGraph.Derived(d), ColumnIds(d, k)))
  {
    hide Walk, Visit, ActiveSources, Lookup, DeriveGraph.Derived, DeriveGraph.IdAt, DeriveGraph.NodeAt,
         DeriveGraph.EdgeAt, Matches, LeadSteps, Carried, ColumnIds;
    var g := DeriveGraph.Derived(d);
    if k == 2 {
      BranchTurn(env, d);
    } else {
      var j := k - 1;
      StaysIdle(env, d, j);
      NextColumnTurn(env, d, j);
      var s := Walk(env, g, ColumnIds(d, j));
      LookupColumn(d, j);
      SourcesOfColumn(d, s.active, j);
      ActionColumn(d, j - 2);
      NotReached(env, g, DeriveGraph.IdAt(d, j), s, DeriveGraph.NodeAt(d, j));
    }
  }

  lemma {:induction false} NotReached(env: Env, g: Graph, id: string, s: State, n: Node)
    requires Lookup(g.nodes, id) == Some(n) && n.kind != Trigger && ActiveSources(g, g.edges, s.active, id) == []
    ensures Visit(env, g, id, s) == s
  {
  }

  lemma {:induction false} AtFirstAction(env: Env, d: DeriveGraph.Draft)
    requires Matches(env, d)
    ensures AtAction(env, d, 0, Walk(env, DeriveGraph.Derived(d), ColumnIds(d, d.Lead())))
  {
    hide Walk, DeriveGraph.Derived, Carried, Holds;
    if d.Lead() == 1 {
      TriggerTurn(env, d);
    } else {
      BranchTurn(env, d);
    }
    assert Calls(d.actions, []) == [] && StampAll([]) == [];
  }

  lemma {:induction false} MoreCalls(actions: seq<Action>, results: seq<Result>, r: Result)
    requires |results| < |actions|
    ensures Calls(actions, results + [r]) == Calls(actions, results) + [Did(actions[|results|], r)]
    ensures StampAll(results + [r]) == StampAll(results) + [Stamped(DeriveGraph.ActionId(|results|), r)]
  {
    hide DeriveGraph.ActionId;
  }

  lemma {:induction false} MoreSteps(d: DeriveGraph.Draft, results: seq<Result>, r: Result)
    ensures StepsAfter(d, true, results + [r])
            == StepsAfter(d, true, results)[DeriveGraph.ActionId(|results|) := ActionOut(r)]
    ensures ItemAfter(results + [r]) == Made(Some(r))
  {
    hide DeriveGraph.ActionId, LeadSteps;
    assert (results + [r])[..|results|] == results;
  }

  lemma {:induction false} AtEveryAction(env: Env, d: DeriveGraph.Draft, i: nat)
    requires Matches(env, d) && i <= |d.actions|
    ensures AtAction(env, d, i, Walk(env, DeriveGraph.Derived(d), ColumnIds(d, d.Lead() + i)))
  {
    hide *;
    if i == 0 {
      AtFirstAction(env, d);
    } else {
      AtEveryAction(env, d, i - 1);
      NextColumnTurn(env, d, d.Lead() + i - 1);
      AtNextAction(env, d, i, Walk(env, DeriveGraph.Derived(d), ColumnIds(d, d.Lead() + i - 1)));
    }
  }

  lemma {:induction false} AtNextAction(env: Env, d: DeriveGraph.Draft, i: nat, s: State)
    requires 0 < i <= |d.actions| && AtAction(env, d, i - 1, s)
    ensures AtAction(env, d, i, Visit(env, DeriveGraph.Derived(d), DeriveGraph.IdAt(d, d.Lead() + i - 1), s))
  {
    hide Carried, StepsAfter, DeriveGraph.Derived, DeriveGraph.IdAt, Calls, StampAll, ItemAfter, Visit, Performed,
         ChainPlane, Halted;
    var rs := Performed(env, d.actions, ChainPlane(d, true), i - 1);
    var r := env.act(s.calls, d.actions[i - 1], Some(Plane(ItemAfter(rs), s.steps)));
    OneMorePerformed(env, d, i);
    if s.stopped {
      StoppedIgnores(env, DeriveGraph.Derived(d), DeriveGraph.IdAt(d, d.Lead() + i - 1), s);
    } else {
      ActionTurn(env, d, i - 1, ItemAfter(rs), s);
      MoreCalls(d.actions, rs, r);
      MoreSteps(d, rs, r);
      HaltedSnoc(rs, r);
    }
  }

  lemma {:induction false} HaltedSnoc(results: seq<Result>, r: Result)
    ensures Halted(results + [r]) == r.stop
  {
  }

  lemma {:induction false} OneMorePerformed(env: Env, d: DeriveGraph.Draft, i: nat)
    requires 0 < i <= |d.actions|
    ensures var rs := Performed(env, d.actions, ChainPlane(d, true), i - 1);
            Performed(env, d.actions, ChainPlane(d, true), i)
            == if Halted(rs) then rs
               else rs + [env.act(Calls(d.actions, rs), d.actions[i - 1],
                   Some(Plane(ItemAfter(rs), StepsAfter(d, true, rs))))]
  {
    hide StepsAfter, ItemAfter, Calls;
  }

  lemma {:induction false} StoppedIgnores(env: Env, g: Graph, id: string, s: State)
    requires s.stopped
    ensures Visit(env, g, id, s) == s
  {
  }

  /**
   What the derived graph means to the engine, for every draft, every environment and every order the
   engine can take: nothing when the conditions do not hold, else the rule's actions in order, each
   once, up to and including the first stop. Each action sees the plane of the chain.
   */
  lemma {:induction false} DerivedMeansTheRule(env: Env, d: DeriveGraph.Draft, order: seq<string>, sorted: nat)
    requires IsOrder(DeriveGraph.Derived(d), order, sorted)
    ensures Walk(env, DeriveGraph.Derived(d), order).results
            == if Matches(env, d) then StampAll(Performed(env, d.actions, ChainPlane(d, true), |d.actions|)) else []
  {
    ColumnsInOrder(d, order, sorted);
    assert order == ColumnIds(d, Width(d));
    hide IsOrder, Walk, DeriveGraph.Derived;
    if Matches(env, d) {
      AtEveryAction(env, d, |d.actions|);
    } else {
      StaysIdle(env, d, Width(d));
    }
  }
}
