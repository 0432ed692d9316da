/**
 Edits of a flow on the canvas (automation-canvas.tsx: `patchNodeConfig`, `removeNodes`,
 `removeEdges`, `addNode`, `duplicateNode`, `onConnect`): pure functions from a graph to the graph
 committed after it.
 */
module CanvasEdits {
  import opened FlowGraph
  import opened Sequences
  import DeriveGraph

  // ── edge keys ──────────────────────────────────────────────────────────────

  function WhenText(w: When): string {
    match w case Always => "" case OnTrue => "true" case OnFalse => "false"
  }

  /** What the keys of a source's edges begin with. */
  function Head(from: string, w: When): string {
    from + "::" + WhenText(w) + "::"
  }

  function EdgeKey(e: Edge): string {
    e.from + "::" + WhenText(e.when) + "::" + e.to
  }

  /** No source's head begins another source's. */
  ghost predicate ApartHeads(sources: set<string>) {
    forall a, b, v, w :: a in sources && b in sources && a != b ==> !(Head(a, v) <= Head(b, w))
  }

  lemma {:induction false} KeyIsHead(e: Edge)
    ensures EdgeKey(e) == Head(e.from, e.when) + e.to
  {
  }

  /** Two beginnings of one text: the shorter begins the longer. */
  lemma {:induction false} Beginnings(a: string, b: string, s: string)
    requires a <= s && b <= s
    ensures a <= b || b <= a
  {
  }

  lemma {:induction false} RestInjective(e: Edge, f: Edge)
    requires WhenText(e.when) + "::" + e.to == WhenText(f.when) + "::" + f.to
    ensures e.when == f.when && e.to == f.to
  {
    var rest := WhenText(e.when) + "::" + e.to;
    assert rest[0] == (match e.when case Always => ':' case OnTrue => 't' case OnFalse => 'f');
    assert rest[0] == (match f.when case Always => ':' case OnTrue => 't' case OnFalse => 'f');
    assert e.to == rest[|WhenText(e.when)| + 2..] == f.to;
  }

  /** One source's edges never share a key. */
  lemma {:induction false} SameSource(e: Edge, f: Edge)
    requires e.from == f.from && EdgeKey(e) == EdgeKey(f)
    ensures e == f
  {
    var restE, restF := WhenText(e.when) + "::" + e.to, WhenText(f.when) + "::" + f.to;
    assert EdgeKey(e) == (e.from + "::") + restE && EdgeKey(f) == (e.from + "::") + restF;
    assert restE == EdgeKey(e)[|e.from| + 2..] == restF;
    RestInjective(e, f);
  }

  /** Two edges that share a key, of sources one of whose heads begins the other's. */
  lemma {:induction false} Collision(a: string, v: When, b: string, w: When) returns (e: Edge, f: Edge)
    requires Head(a, v) <= Head(b, w)
    ensures e.from == a && f.from == b && EdgeKey(e) == EdgeKey(f)
  {
    hide Head;
    e, f := Edge(a, Head(b, w)[|Head(a, v)|..], v), Edge(b, "", w);
    KeyIsHead(e);
    KeyIsHead(f);
    assert Head(b, w) + "" == Head(b, w);
  }

  /**
   Exactly when edges with these sources are told apart by their keys, whatever their targets: no
   source's head begins another's.
   */
  lemma {:induction false} WhenKeysTellApart(sources: set<string>)
    ensures (forall e: Edge, f: Edge :: e.from in sources && f.from in sources && EdgeKey(e) == EdgeKey(f) ==> e == f)
            <==> ApartHeads(sources)
  {
    hide EdgeKey, Head;
    if ApartHeads(sources) {
      forall e: Edge, f: Edge | e.from in sources && f.from in sources && EdgeKey(e) == EdgeKey(f) ensures e == f {
        KeysTellApart(sources, e, f);
      }
    } else {
      var a, b, v, w :| a in sources && b in sources && a != b && Head(a, v) <= Head(b, w);
      var e, f := Collision(a, v, b, w);
    }
  }

  lemma {:induction false} KeysTellApart(sources: set<string>, e: Edge, f: Edge)
    requires ApartHeads(sources) && e.from in sources && f.from in sources && EdgeKey(e) == EdgeKey(f)
    ensures e == f
  {
    hide EdgeKey, Head;
    KeyIsHead(e);
    KeyIsHead(f);
    Beginnings(Head(e.from, e.when), Head(f.from, f.when), EdgeKey(e));
    assert e.from == f.from;
    SameSource(e, f);
  }

  /** An id that the first "::" of a text that starts with it and "::" does not cut short. */
  predicate SafeId(id: string) {
    FirstPair(id + "::", ':') == |id|
  }

  lemma {:induction false} NoColonIsSafe(id: string)
    requires ':' !in id
    ensures SafeId(id)
  {
    if id == "" {
      assert id + "::" == "::";
    } else {
      assert (id + "::")[1..] == id[1..] + "::";
      assert id[0] in id;
      assert forall c :: c in id[1..] ==> c in id;
      NoColonIsSafe(id[1..]);
    }
  }

  /** A safe id ends where the first "::" of its head is. */
  lemma {:induction false} SafeHead(id: string, w: When, more: string)
    requires SafeId(id)
    ensures FirstPair(Head(id, w) + more, ':') == |id| && (Head(id, w) + more)[..|id|] == id
  {
    assert Head(id, w) + more == (id + "::") + (WhenText(w) + "::" + more);
    FirstPairInPrefix(id + "::", WhenText(w) + "::" + more, ':');
  }

  /** Ids without colons in particular are safe, and safe ids have heads apart. */
  lemma {:induction false} SafeIdsAreApart(sources: set<string>)
    requires forall id :: id in sources ==> SafeId(id)
    ensures ApartHeads(sources)
  {
    hide SafeId, Head, FirstPair;
    forall a, b, v, w | a in sources && b in sources && Head(a, v) <= Head(b, w) ensures a == b {
      var more := Head(b, w)[|Head(a, v)|..];
      assert Head(a, v) + more == Head(b, w) == Head(b, w) + "";
      SafeHead(a, v, more);
      SafeHead(b, w, "");
    }
  }

  lemma {:induction false} EdgeKeyInjective(e: Edge, f: Edge)
    requires SafeId(e.from) && SafeId(f.from)
    ensures EdgeKey(e) == EdgeKey(f) ==> e == f
  {
    SafeIdsAreApart({e.from, f.from});
    WhenKeysTellApart({e.from, f.from});
  }

  /** A colon alone does no harm: the source "x::foo" is not safe, yet no key of it is one of "q". */
  lemma {:induction false} UnsafeButApart()
    ensures !SafeId("x::foo") && ApartHeads({"x::foo", "q"})
  {
    assert "x::foo" + "::" == "x::foo::" && "x::foo::"[1..] == "::foo::";
    assert FirstPair("::foo::", ':') == 0;
    forall v, w ensures !(Head("x::foo", v) <= Head("q", w)) && !(Head("q", w) <= Head("x::foo", v)) {
      assert Head("x::foo", v)[0] == 'x' && Head("q", w)[0] == 'q';
    }
  }

  /** With colons in ids two edges can share a key. */
  lemma {:induction false} ColonsCollide()
    ensures var e, f := Edge("a", "::b", Always), Edge("a::", "b", Always);
            e != f && EdgeKey(e) == EdgeKey(f)
  {
  }

  // ── the edits ──────────────────────────────────────────────────────────────

  datatype Edit =
    | PatchConfig(id: string, mutate: Config -> Config)
    | RemoveNodes(ids: seq<string>)
    | RemoveEdges(keys: seq<string>)
    | AddNode(kind: NodeType, config: Config, newId: string)
    | DuplicateNode(id: string, newId: string)
    | Connect(source: string, target: string, handle: When)

  function Filter<T(!new)>(s: seq<T>, keep: T -> bool): (r: seq<T>)
    ensures forall x :: x in r <==> x in s && keep(x)
  {
    if s == [] then []
    else (if keep(s[0]) then [s[0]] else []) + Filter(s[1..], keep)
  }

  function Patched(nodes: seq<Node>, id: string, mutate: Config -> Config): (r: seq<Node>)
    ensures |r| == |nodes|
    ensures forall i :: 0 <= i < |nodes| ==>
              r[i] == if nodes[i].id == id then nodes[i].(config := mutate(nodes[i].config)) else nodes[i]
  {
    seq(|nodes|, i requires 0 <= i < |nodes| =>
          if nodes[i].id == id then nodes[i].(config := mutate(nodes[i].config)) else nodes[i])
  }

  /** The graph an edit commits; edits the canvas refuses commit the graph as it was. */
  function Apply(g: Graph, edit: Edit): Graph {
    match edit
    case PatchConfig(id, mutate) => g.(nodes := Patched(g.nodes, id, mutate))
    case RemoveNodes(ids) =>
      var gone := (id: string) => id in ids && id != "trigger";
      Graph(Filter(g.nodes, (n: Node) => !gone(n.id)), Filter(g.edges, (e: Edge) => !gone(e.from) && !gone(e.to)))
    case RemoveEdges(keys) => g.(edges := Filter(g.edges, (e: Edge) => EdgeKey(e) !in keys))
    case AddNode(kind, config, newId) => g.(nodes := g.nodes + [Node(newId, kind, config)])
    case DuplicateNode(id, newId) =>
      var found := Find(g.nodes, id);
      if found == [] || found[0].kind == Trigger then g
      else
        var c := found[0].config;
        var copy := c.(position := XY(c.position.x + 40, c.position.y + 60));
        g.(nodes := g.nodes + [Node(newId, found[0].kind, copy)])
    case Connect(source, target, handle) =>
      if source == "" || target == "" || source == target then g
      else if Edge(source, target, handle) in g.edges then g
      else g.(edges := g.edges + [Edge(source, target, handle)])
  }

  predicate HasNode(g: Graph, id: string) {
    exists n :: n in g.nodes && n.id == id
  }

  /** `n_` and eight characters of a UUID's text. */
  predicate IsFreshId(id: string) {
    |id| == 10 && id[..2] == "n_" && ':' !in id
  }

  /**
   What the canvas lets the user do: new nodes get an id no node has and are never triggers; an edge
   is drawn between rendered nodes, and a trigger has no target handle.
   */
  predicate Legal(g: Graph, edit: Edit) {
    match edit
    case AddNode(kind, _, newId) => kind != Trigger && IsFreshId(newId) && !HasNode(g, newId)
    case DuplicateNode(_, newId) => IsFreshId(newId) && !HasNode(g, newId)
    case Connect(source, target, _) => HasNode(g, source) && HasNode(g, target) && target != "trigger"
    case _ => true
  }

  ghost predicate UniqueIds(nodes: seq<Node>) {
    forall i, j :: 0 <= i < j < |nodes| ==> nodes[i].id != nodes[j].id
  }

  ghost predicate UniqueEdges(edges: seq<Edge>) {
    forall i, j :: 0 <= i < j < |edges| ==> edges[i] != edges[j]
  }

  /** One trigger, under its own id; unique ids, and none with a colon; no edge dangles, loops on its
      node, enters the trigger or is there twice. */
  ghost predicate WellFormed(g: Graph) {
    && UniqueIds(g.nodes) && UniqueEdges(g.edges)
    && HasNode(g, "trigger")
    && (forall n :: n in g.nodes ==> (n.kind == Trigger <==> n.id == "trigger") && ':' !in n.id)
    && (forall e :: e in g.edges ==> HasNode(g, e.from) && HasNode(g, e.to) && e.from != e.to && e.to != "trigger")
  }

  // ── every run of edits ─────────────────────────────────────────────────────

  lemma {:induction false} FilterKeepsUniqueIds(nodes: seq<Node>, keep: Node -> bool)
    requires UniqueIds(nodes)
    ensures UniqueIds(Filter(nodes, keep))
  {
    if nodes != [] {
      var rest := Filter(nodes[1..], keep);
      FilterKeepsUniqueIds(nodes[1..], keep);
      forall i | 0 <= i < |rest| ensures rest[i].id != nodes[0].id {
        assert rest[i] in nodes[1..];
      }
    }
  }

  lemma {:induction false} FilterKeepsUniqueEdges(edges: seq<Edge>, keep: Edge -> bool)
    requires UniqueEdges(edges)
    ensures UniqueEdges(Filter(edges, keep))
  {
    if edges != [] {
      var rest := Filter(edges[1..], keep);
      FilterKeepsUniqueEdges(edges[1..], keep);
      forall i | 0 <= i < |rest| ensures rest[i] != edges[0] {
        assert rest[i] in edges[1..];
      }
    }
  }

  lemma {:induction false} PatchKeepsNodes(g: Graph, id: string, mutate: Config -> Config)
    requires WellFormed(g)
    ensures WellFormed(Apply(g, PatchConfig(id, mutate)))
  {
    var h := Apply(g, PatchConfig(id, mutate));
    forall x | HasNode(g, x) ensures HasNode(h, x) {
      var n :| n in g.nodes && n.id == x;
      var i :| 0 <= i < |g.nodes| && g.nodes[i] == n;
      assert h.nodes[i].id == x;
    }
  }

  lemma {:induction false} RemoveNodesKeeps(g: Graph, ids: seq<string>)
    requires WellFormed(g)
    ensures WellFormed(Apply(g, RemoveNodes(ids)))
  {
    var h := Apply(g, RemoveNodes(ids));
    var gone := (id: string) => id in ids && id != "trigger";
    FilterKeepsUniqueIds(g.nodes, (n: Node) => !gone(n.id));
    FilterKeepsUniqueEdges(g.edges, (e: Edge) => !gone(e.from) && !gone(e.to));
    forall x | HasNode(g, x) && !gone(x) ensures HasNode(h, x) {
      var n :| n in g.nodes && n.id == x;
      assert n in h.nodes;
    }
  }

  lemma {:induction false} RemoveEdgesKeeps(g: Graph, keys: seq<string>)
    requires WellFormed(g)
    ensures WellFormed(Apply(g, RemoveEdges(keys)))
  {
    var h := Apply(g, RemoveEdges(keys));
    FilterKeepsUniqueEdges(g.edges, (e: Edge) => EdgeKey(e) !in keys);
    assert h.nodes == g.nodes;
    assert forall x :: HasNode(g, x) ==> HasNode(h, x);
  }

  lemma {:induction false} NewNodeKeeps(g: Graph, n: Node)
    requires WellFormed(g) && n.kind != Trigger && IsFreshId(n.id) && !HasNode(g, n.id)
    ensures WellFormed(g.(nodes := g.nodes + [n]))
  {
    var h := g.(nodes := g.nodes + [n]);
    forall x | HasNode(g, x) ensures HasNode(h, x) {
      var m :| m in g.nodes && m.id == x;
      assert m in h.nodes;
    }
    assert n.id[..2] == "n_" && "trigger"[..2] == "tr";
    forall i | 0 <= i < |g.nodes| ensures g.nodes[i].id != n.id {
      assert g.nodes[i] in g.nodes;
    }
  }

  lemma {:induction false} ConnectKeeps(g: Graph, e: Edge)
    requires WellFormed(g) && HasNode(g, e.from) && HasNode(g, e.to)
    requires e.from != e.to && e.to != "trigger" && e !in g.edges
    ensures WellFormed(g.(edges := g.edges + [e]))
  {
    var h := g.(edges := g.edges + [e]);
    assert h.nodes == g.nodes;
    forall x | HasNode(g, x) ensures HasNode(h, x) {
      var n :| n in g.nodes && n.id == x;
    }
    forall i | 0 <= i < |g.edges| ensures g.edges[i] != e {
      assert g.edges[i] in g.edges;
    }
  }

  lemma {:induction false} EditKeepsWellFormed(g: Graph, edit: Edit)
    requires WellFormed(g) && Legal(g, edit)
    ensures WellFormed(Apply(g, edit))
  {
    hide WellFormed, Patched, Filter;
    match edit
    case PatchConfig(id, mutate) => PatchKeepsNodes(g, id, mutate);
    case RemoveNodes(ids) => RemoveNodesKeeps(g, ids);
    case RemoveEdges(keys) => RemoveEdgesKeeps(g, keys);
    case AddNode(kind, config, newId) => NewNodeKeeps(g, Node(newId, kind, config));
    case DuplicateNode(id, newId) =>
      if Apply(g, edit) != g {
        var n := Find(g.nodes, id)[0];
        NewNodeKeeps(g,
            Node(newId, n.kind, n.config.(position := XY(n.config.position.x + 40, n.config.position.y + 60))));
      }
    case Connect(source, target, handle) =>
      if Apply(g, edit) != g {
        ConnectKeeps(g, Edge(source, target, handle));
      }
  }

  function Run(g: Graph, edits: seq<Edit>): Graph
    decreases |edits|
  {
    if edits == [] then g else Run(Apply(g, edits[0]), edits[1..])
  }

  ghost predicate LegalRun(g: Graph, edits: seq<Edit>)
    decreases |edits|
  {
    edits == [] || (Legal(g, edits[0]) && LegalRun(Apply(g, edits[0]), edits[1..]))
  }

  /** Every sequence of canvas edits keeps a graph well formed; the trigger in particular stays. */
  lemma {:induction false} RunKeepsWellFormed(g: Graph, edits: seq<Edit>)
    requires WellFormed(g) && LegalRun(g, edits)
    ensures WellFormed(Run(g, edits))
    decreases |edits|
  {
    hide WellFormed, Legal, Apply;
    if edits != [] {
      EditKeepsWellFormed(g, edits[0]);
      RunKeepsWellFormed(Apply(g, edits[0]), edits[1..]);
    }
  }

  // ── what an edit commits ───────────────────────────────────────────────────

  /** A patch changes the config of that node alone, and nothing else. */
  lemma {:induction false} PatchCommits(g: Graph, id: string, mutate: Config -> Config)
    ensures var h := Apply(g, PatchConfig(id, mutate));
            && h.edges == g.edges && |h.nodes| == |g.nodes|
            && forall i :: 0 <= i < |g.nodes| ==>
                 && h.nodes[i].id == g.nodes[i].id && h.nodes[i].kind == g.nodes[i].kind
                 && h.nodes[i].config == if g.nodes[i].id == id then mutate(g.nodes[i].config) else g.nodes[i].config
  {
  }

  /** Deleting nodes leaves the trigger and the nodes not named, and the edges between those that are left;
      deleting edges leaves the nodes and the edges whose keys are not named. */
  lemma {:induction false} DeletesCommit(g: Graph, names: seq<string>)
    ensures var h := Apply(g, RemoveNodes(names));
            && (forall n :: n in h.nodes <==> n in g.nodes && (n.id == "trigger" || n.id !in names))
            && (forall e :: e in h.edges <==>
                  e in g.edges && (e.from == "trigger" || e.from !in names) && (e.to == "trigger" || e.to !in names))
    ensures var h := Apply(g, RemoveEdges(names));
            h.nodes == g.nodes && forall e :: e in h.edges <==> e in g.edges && EdgeKey(e) !in names
  {
    hide EdgeKey;
  }

  /** A deletion keeps what it leaves in its order, each as often as it was there. */
  lemma {:induction false} FilterKeepsOrder<T(!new)>(a: seq<T>, x: T, b: seq<T>, keep: T -> bool)
    ensures Filter(a + [x] + b, keep) == Filter(a, keep) + (if keep(x) then [x] else []) + Filter(b, keep)
  {
    FilterAppend(a + [x], b, keep);
    FilterAppend(a, [x], keep);
    FilterOne(x, keep);
    hide Filter;
  }

  lemma {:induction false} FilterOne<T(!new)>(x: T, keep: T -> bool)
    ensures Filter([x], keep) == if keep(x) then [x] else []
  {
    assert [x][1..] == [] && Filter([x][1..], keep) == [];
  }

  /** A new node comes last; so does the copy of a node, moved by 40 and 60, of which a trigger has none. */
  lemma {:induction false} AdditionsCommit(g: Graph, n: Node, newId: string)
    requires UniqueIds(g.nodes) && n in g.nodes
    ensures Apply(g, AddNode(n.kind, n.config, newId)) == Graph(g.nodes + [Node(newId, n.kind, n.config)], g.edges)
    ensures Apply(g, DuplicateNode(n.id, newId))
            == if n.kind == Trigger then g
               else var at := n.config.position;
                    Graph(g.nodes + [Node(newId, n.kind, Config(n.config.payload, XY(at.x + 40, at.y + 60)))], g.edges)
  {
    FindIs(g.nodes, n);
  }

  lemma {:induction false} FindIs(nodes: seq<Node>, n: Node)
    requires UniqueIds(nodes) && n in nodes
    ensures Find(nodes, n.id) == [n]
  {
    var k :| 0 <= k < |nodes| && nodes[k] == n;
    if k > 0 {
      assert nodes[0].id != nodes[k].id && nodes[1..][k - 1] == n;
      FindIs(nodes[1..], n);
    }
  }

  /** An edge is drawn last, unless an end is missing, it would loop, or it is there. */
  lemma {:induction false} ConnectCommits(g: Graph, source: string, target: string, handle: When)
    ensures var e := Edge(source, target, handle);
            Apply(g, Connect(source, target, handle))
            == if source != "" && target != "" && source != target && e !in g.edges then Graph(g.nodes, g.edges + [e])
               else g
  {
  }

  // ── edits that undo one another ────────────────────────────────────────────

  lemma {:induction false} FilterAppend<T(!new)>(a: seq<T>, b: seq<T>, keep: T -> bool)
    ensures Filter(a + b, keep) == Filter(a, keep) + Filter(b, keep)
  {
    if a == [] {
      assert a + b == b;
    } else {
      assert (a + b)[1..] == a[1..] + b;
      FilterAppend(a[1..], b, keep);
    }
  }

  lemma {:induction false} FilterAll<T(!new)>(s: seq<T>, keep: T -> bool)
    requires forall x :: x in s ==> keep(x)
    ensures Filter(s, keep) == s
  {
    if s != [] {
      assert s[0] in s && forall x :: x in s[1..] ==> x in s;
      FilterAll(s[1..], keep);
    }
  }

  /** All but a last item are kept. */
  lemma {:induction false} FilterDropsLast<T(!new)>(s: seq<T>, last: T, keep: T -> bool)
    requires (forall x :: x in s ==> keep(x)) && !keep(last)
    ensures Filter(s, keep) == s && Filter(s + [last], keep) == s
  {
    FilterAppend(s, [last], keep);
    assert Filter([last], keep) == [];
    FilterAll(s, keep);
  }

  /** Deleting a node just added gives back the very graph there was, order included. */
  lemma {:induction false} AddUndone(g: Graph, kind: NodeType, config: Config, newId: string)
    requires WellFormed(g) && Legal(g, AddNode(kind, config, newId))
    ensures Apply(Apply(g, AddNode(kind, config, newId)), RemoveNodes([newId])) == g
  {
    hide Filter;
    var gone := (id: string) => id in [newId] && id != "trigger";
    var keepNode, keepEdge := (n: Node) => !gone(n.id), (e: Edge) => !gone(e.from) && !gone(e.to);
    assert newId[..2] == "n_" && "trigger"[..2] == "tr";
    FilterDropsLast(g.nodes, Node(newId, kind, config), keepNode);
    FilterDropsLast(g.edges, Edge(newId, newId, Always), keepEdge);
  }

  /** Deleting an edge just drawn by its key gives back the very graph there was. */
  lemma {:induction false} ConnectUndone(g: Graph, source: string, target: string, handle: When)
    requires WellFormed(g) && Legal(g, Connect(source, target, handle))
    requires Apply(g, Connect(source, target, handle)) != g
    ensures Apply(Apply(g, Connect(source, target, handle)), RemoveEdges([EdgeKey(Edge(source, target, handle))])) == g
  {
    hide Filter, EdgeKey;
    var e := Edge(source, target, handle);
    var n :| n in g.nodes && n.id == source;
    NoColonIsSafe(source);
    forall f | f in g.edges ensures EdgeKey(f) !in [EdgeKey(e)] {
      SourceIsSafe(g, f);
      EdgeKeyInjective(e, f);
    }
    FilterDropsLast(g.edges, e, (f: Edge) => EdgeKey(f) !in [EdgeKey(e)]);
  }

  // ── where a run begins ─────────────────────────────────────────────────────

  lemma {:induction false} IdAtHasNoColon(d: DeriveGraph.Draft, j: nat)
    ensures ':' !in DeriveGraph.IdAt(d, j)
  {
    if j >= d.Lead() {
      var digits := DeriveGraph.Decimal(j - d.Lead());
      assert DeriveGraph.IdAt(d, j) == "action-" + digits;
    }
  }

  /** The canvas of a linear rule starts from its derived graph, which is well formed. */
  lemma {:induction false} DerivedIsWellFormed(d: DeriveGraph.Draft)
    ensures WellFormed(DeriveGraph.Derived(d))
  {
    var g := DeriveGraph.Derived(d);
    DeriveGraph.DerivedIsChain(d);
    assert g.nodes[0].id == "trigger" && g.nodes[0] in g.nodes;
    forall n | n in g.nodes ensures (n.kind == Trigger <==> n.id == "trigger") && ':' !in n.id {
      var j :| 0 <= j < |g.nodes| && g.nodes[j] == n;
      DeriveGraph.IdsDistinct(d, 0, j);
      IdAtHasNoColon(d, j);
    }
    forall e | e in g.edges ensures HasNode(g, e.from) && HasNode(g, e.to) && e.from != e.to && e.to != "trigger" {
      var k :| 0 <= k < |g.edges| && g.edges[k] == e;
      assert g.nodes[k] in g.nodes && g.nodes[k + 1] in g.nodes;
      DeriveGraph.IdsDistinct(d, 0, k + 1);
    }
    forall i, j | 0 <= i < j < |g.edges| ensures g.edges[i] != g.edges[j] {
      assert g.nodes[i].id != g.nodes[j].id;
    }
  }

  /** Deleting an edge by its key deletes that edge and no other. */
  lemma {:induction false} RemoveEdgeRemovesOne(g: Graph, e: Edge)
    requires WellFormed(g) && e in g.edges
    ensures forall f :: f in Apply(g, RemoveEdges([EdgeKey(e)])).edges <==> f in g.edges && f != e
  {
    forall f | f in g.edges ensures EdgeKey(f) in [EdgeKey(e)] <==> f == e {
      SourceIsSafe(g, e);
      SourceIsSafe(g, f);
      EdgeKeyInjective(e, f);
    }
  }

  lemma {:induction false} SourceIsSafe(g: Graph, e: Edge)
    requires WellFormed(g) && e in g.edges
    ensures SafeId(e.from)
  {
    var n :| n in g.nodes && n.id == e.from;
    NoColonIsSafe(e.from);
  }
}
