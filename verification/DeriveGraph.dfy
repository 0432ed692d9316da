/**
 The graph derived from a linear rule (web/src/lib/automation-draft.ts `deriveGraph`). What it means
 to the engine is said in Engine.
 */
module DeriveGraph {
  import opened FlowGraph

  const COL: int := 320

  /** The part of a draft the graph is derived from. */
  datatype Draft = Draft(all: bool, conditions: seq<Condition>, actions: seq<Action>)
  {
    /** Columns before the first action: the trigger, and the branch when there are conditions. */
    function Lead(): (n: nat)
      ensures 1 <= n <= 2
    {
      if conditions == [] then 1 else 2
    }
  }

  // ── ids ────────────────────────────────────────────────────────────────────

  function Digit(d: nat): (c: char)
    requires d < 10
    ensures '0' <= c <= '9' && c as int - '0' as int == d
  {
    '0' + d as char
  }

  function Decimal(n: nat): (s: string)
    ensures s != "" && forall c :: c in s ==> '0' <= c <= '9'
  {
    if n < 10 then [Digit(n)] else Decimal(n / 10) + [Digit(n % 10)]
  }

  lemma {:induction false} DecimalInjective(m: nat, n: nat)
    requires Decimal(m) == Decimal(n)
    ensures m == n
    decreases m
  {
    var s, t := Decimal(m), Decimal(n);
    assert s[|s| - 1] == Digit(m % 10) && t[|t| - 1] == Digit(n % 10);
    if m >= 10 && n >= 10 {
      assert s[..|s| - 1] == Decimal(m / 10) && t[..|t| - 1] == Decimal(n / 10);
      DecimalInjective(m / 10, n / 10);
    }
  }

  function ActionId(i: nat): string { "action-" + Decimal(i) }

  lemma {:induction false} ActionIdsDistinct(i: nat, j: nat)
    ensures ActionId(i) == ActionId(j) ==> i == j
    ensures ActionId(i) != "trigger" && ActionId(i) != "branch"
  {
    assert ActionId(i)[7..] == Decimal(i) && ActionId(j)[7..] == Decimal(j);
    if ActionId(i) == ActionId(j) {
      DecimalInjective(i, j);
    }
    assert ActionId(i)[0] == 'a';
  }

  // ── the derived graph, column by column ────────────────────────────────────

  function IdAt(d: Draft, j: nat): string {
    if j == 0 then "trigger" else if j < d.Lead() then "branch" else ActionId(j - d.Lead())
  }

  function NodeAt(d: Draft, j: nat): Node
    requires j < d.Lead() + |d.actions|
  {
    var position := XY(j * COL, 0);
    if j == 0 then Node("trigger", Trigger, Config(NoPayload, position))
    else if j < d.Lead() then Node("branch", Branch, Config(Conditions(d.all, d.conditions), position))
    else Node(ActionId(j - d.Lead()), ActionStep, Config(Act(d.actions[j - d.Lead()]), position))
  }

  /** The edge that leaves column j: the branch goes on only when its conditions hold. */
  function EdgeAt(d: Draft, j: nat): Edge {
    Edge(IdAt(d, j), IdAt(d, j + 1), if j == 1 && d.Lead() == 2 then OnTrue else Always)
  }

  /** The first k columns. */
  function Columns(d: Draft, k: nat): Graph
    requires 1 <= k <= d.Lead() + |d.actions|
  {
    Graph(seq(k, j requires 0 <= j < k => NodeAt(d, j)), seq(k - 1, j requires 0 <= j < k - 1 => EdgeAt(d, j)))
  }

  function Derived(d: Draft): Graph { Columns(d, d.Lead() + |d.actions|) }

  lemma {:induction false} NextColumn(d: Draft, k: nat)
    requires 1 <= k < d.Lead() + |d.actions|
    ensures Columns(d, k + 1) == Graph(Columns(d, k).nodes + [NodeAt(d, k)], Columns(d, k).edges + [EdgeAt(d, k - 1)])
  {
    hide NodeAt, EdgeAt;
    var now, next := Columns(d, k), Columns(d, k + 1);
    assert next.nodes == now.nodes + [NodeAt(d, k)];
    assert next.edges == now.edges + [EdgeAt(d, k - 1)];
  }

  lemma {:induction false} FirstColumn(d: Draft)
    ensures Columns(d, 1) == Graph([Node("trigger", Trigger, Config(NoPayload, XY(0, 0)))], [])
  {
    assert Columns(d, 1).nodes == [NodeAt(d, 0)];
  }

  method Derive(d: Draft) returns (g: Graph)
    ensures g == Derived(d)
  {
    hide Columns;
    var nodes: seq<Node>, edges: seq<Edge>, col := [], [], 0;
    nodes := nodes + [Node("trigger", Trigger, Config(NoPayload, XY(col * COL, 0)))];
    var prev, prevWhen := "trigger", Always;
    FirstColumn(d);
    if |d.conditions| > 0 {
      NextColumn(d, 1);
      col := col + 1;
      nodes := nodes + [Node("branch", Branch, Config(Conditions(d.all, d.conditions), XY(col * COL, 0)))];
      edges := edges + [Edge(prev, "branch", Always)];
      prev, prevWhen := "branch", OnTrue;
    }
    for i := 0 to |d.actions|
      invariant col == d.Lead() + i - 1
      invariant Graph(nodes, edges) == Columns(d, col + 1)
      invariant prev == IdAt(d, col)
      invariant prevWhen == if col == 1 && d.Lead() == 2 then OnTrue else Always
    {
      NextColumn(d, col + 1);
      col := col + 1;
      var id := ActionId(i);
      nodes := nodes + [Node(id, ActionStep, Config(Act(d.actions[i]), XY(col * COL, 0)))];
      edges := edges + [if prevWhen != Always then Edge(prev, id, prevWhen) else Edge(prev, id, Always)];
      prev, prevWhen := id, Always;
    }
    g := Graph(nodes, edges);
  }

  lemma {:induction false} IdsDistinct(d: Draft, i: nat, j: nat)
    ensures IdAt(d, i) == IdAt(d, j) ==> i == j
  {
    if i >= d.Lead() {
      ActionIdsDistinct(i - d.Lead(), if j >= d.Lead() then j - d.Lead() else 0);
    }
    if j >= d.Lead() {
      ActionIdsDistinct(j - d.Lead(), 0);
    }
  }

  /** Ids are distinct, every edge joins a column to the next, and every node is reached. */
  lemma {:induction false} DerivedIsChain(d: Draft)
    ensures var g := Derived(d);
            && (forall i, j :: 0 <= i < j < |g.nodes| ==> g.nodes[i].id != g.nodes[j].id)
            && |g.edges| == |g.nodes| - 1
            && (forall k :: 0 <= k < |g.edges| ==>
                g.edges[k].from == g.nodes[k].id && g.edges[k].to == g.nodes[k + 1].id)
            && (forall n :: n in g.nodes ==> Reaches(g, "trigger", n.id))
  {
    var g := Derived(d);
    forall i, j | 0 <= i < j < |g.nodes| ensures g.nodes[i].id != g.nodes[j].id {
      IdsDistinct(d, i, j);
    }
    forall n | n in g.nodes ensures Reaches(g, "trigger", n.id) {
      var j :| 0 <= j < |g.nodes| && g.nodes[j] == n;
      ColumnReached(d, j);
    }
  }

  lemma {:induction false} ColumnReached(d: Draft, j: nat)
    requires j < d.Lead() + |d.actions|
    ensures Reaches(Derived(d), "trigger", IdAt(d, j))
  {
    var g := Derived(d);
    if j == 0 {
      hide Reaches, Derived;
      ReachesItself(g, "trigger");
    } else {
      hide *;
      ColumnReached(d, j - 1);
      ColumnEdge(d, j - 1);
      ReachesNext(g, "trigger", IdAt(d, j - 1), IdAt(d, j));
    }
  }

  lemma {:induction false} ColumnEdge(d: Draft, j: nat)
    requires j + 1 < d.Lead() + |d.actions|
    ensures HasEdge(Derived(d), IdAt(d, j), IdAt(d, j + 1))
  {
    var g := Derived(d);
    assert g.edges[j] == EdgeAt(d, j) && g.edges[j] in g.edges;
  }

  lemma {:induction false} EdgeJoinsColumns(d: Draft, a: string, b: string) returns (j: nat)
    requires HasEdge(Derived(d), a, b)
    ensures j + 1 < d.Lead() + |d.actions| && a == IdAt(d, j) && b == IdAt(d, j + 1)
  {
    var edges := Derived(d).edges;
    var e :| e in edges && e.from == a && e.to == b;
    j :| 0 <= j < |edges| && edges[j] == e;
    assert e == EdgeAt(d, j);
  }

  /** Every edge goes one column on, so a walk ends as many columns on as it has edges. */
  lemma {:induction false} PathAdvances(d: Draft, p: seq<string>) returns (from: nat)
    requires IsPath(Derived(d), p) && |p| > 1
    ensures from + |p| - 1 < d.Lead() + |d.actions|
    ensures p[0] == IdAt(d, from) && p[|p| - 1] == IdAt(d, from + |p| - 1)
  {
    hide Derived, IdAt;
    var k := |p| - 2;
    assert HasEdge(Derived(d), p[k], p[k + 1]);
    var j := EdgeJoinsColumns(d, p[k], p[k + 1]);
    if k == 0 {
      from := j;
    } else {
      var init := p[..k + 1];
      forall i | 0 <= i < |init| - 1 ensures HasEdge(Derived(d), init[i], init[i + 1]) {
        assert HasEdge(Derived(d), p[i], p[i + 1]);
      }
      from := PathAdvances(d, init);
      IdsDistinct(d, from + k, j);
    }
  }

  lemma {:induction false} DerivedIsAcyclic(d: Draft)
    ensures Acyclic(Derived(d))
  {
    forall p | IsPath(Derived(d), p) && |p| > 1 ensures p[0] != p[|p| - 1] {
      var from := PathAdvances(d, p);
      IdsDistinct(d, from, from + |p| - 1);
    }
  }

  // ── isFlow ─────────────────────────────────────────────────────────────────

  predicate IsFlow(g: Graph) {
    exists n :: n in g.nodes && n.kind != Trigger
  }

  /** A derived graph carries more than its trigger exactly when the rule has something to say. */
  lemma {:induction false} DerivedIsFlow(d: Draft)
    ensures IsFlow(Derived(d)) <==> d.conditions != [] || d.actions != []
  {
    var g := Derived(d);
    if |g.nodes| > 1 {
      assert g.nodes[1] == NodeAt(d, 1) && g.nodes[1] in g.nodes;
    }
  }

  /** The layout: one column of 320 after another on the line of the trigger. */
  lemma {:induction false} DerivedLayout(d: Draft, j: nat)
    requires j < |Derived(d).nodes|
    ensures Derived(d).nodes[j].config.position == XY(320 * j, 0)
  {
  }

  /** The branch holds all the rule's conditions, as they are to be matched, and is there only if there are
      any; the actions follow in their order; and only the edge out of the branch has a label. */
  lemma {:induction false} DerivedHoldsTheRule(d: Draft)
    ensures var g := Derived(d);
            var lead := if d.conditions == [] then 1 else 2;
            && |g.nodes| == lead + |d.actions| && g.nodes[0].kind == Trigger
            && (lead == 2 ==> g.nodes[1].kind == Branch && g.nodes[1].config.payload == Conditions(d.all, d.conditions))
            && (forall i :: 0 <= i < |d.actions| ==>
                  g.nodes[lead + i].kind == ActionStep && g.nodes[lead + i].config.payload == Act(d.actions[i]))
            && (forall k :: 0 <= k < |g.edges| ==>
                  g.edges[k].when == if g.nodes[k].kind == Branch then OnTrue else Always)
  {
  }
}
