/** The executable graph of an automation (web/src/lib/automations.ts `FlowGraph`). */
module FlowGraph {

  /** An action's `type`. */
  datatype Kind =
    | Assign | SetStatus | Reply | Notify | RunCommand | Http | Rag | KbUpsert | ContactUpdate | BroadcastSend
    | SetFields | WebFetch | BrowserExtract | SetPriority | AddTags | ApplyTagRules | AiTag | Survey | Stop
    | Escalate | Unknown

  /** One typed action: its fields that hold text, `autoReply`, and whatever else it is configured by. */
  datatype Action = Action(kind: Kind, texts: map<string, string>, autoReply: bool, rest: string)
  {
    function Text(field: string, default: string): string {
      if field in texts then texts[field] else default
    }

    predicate Has(field: string) {
      Text(field, "") != ""
    }
  }

  datatype Condition = Condition(field: string, op: string, value: string)

  datatype XY = XY(x: int, y: int)
  datatype NodeType = Trigger | Branch | ActionStep | Agent | Item

  /** A node's config: its type-specific payload, and the canvas position the engine ignores. */
  datatype Payload =
    | NoPayload | Conditions(all: bool, conditions: seq<Condition>) | Act(action: Action) | Other(text: string)
  datatype Config = Config(payload: Payload, position: XY)

  /** An edge's `when`: undefined, "true" or "false". */
  datatype When = Always | OnTrue | OnFalse

  datatype Node = Node(id: string, kind: NodeType, config: Config)
  datatype Edge = Edge(from: string, to: string, when: When)
  datatype Graph = Graph(nodes: seq<Node>, edges: seq<Edge>)

  /** The first node of that id, if any. */
  function Find(nodes: seq<Node>, id: string): (found: seq<Node>)
    ensures forall n :: n in found ==> n in nodes && n.id == id
  {
    if nodes == [] then [] else if nodes[0].id == id then [nodes[0]] else Find(nodes[1..], id)
  }

  // ── reachability ───────────────────────────────────────────────────────────

  ghost predicate HasEdge(g: Graph, a: string, b: string) {
    exists e :: e in g.edges && e.from == a && e.to == b
  }

  /** A walk along edges; a single node is one. */
  ghost predicate IsPath(g: Graph, p: seq<string>) {
    p != [] && forall i :: 0 <= i < |p| - 1 ==> HasEdge(g, p[i], p[i + 1])
  }

  ghost predicate Connects(g: Graph, p: seq<string>, a: string, b: string) {
    IsPath(g, p) && p[0] == a && p[|p| - 1] == b
  }

  ghost predicate Reaches(g: Graph, a: string, b: string) {
    exists p :: Connects(g, p, a, b)
  }

  lemma {:induction false} ReachesItself(g: Graph, a: string)
    ensures Reaches(g, a, a)
  {
    assert Connects(g, [a], a, a);
  }

  lemma {:induction false} ReachesNext(g: Graph, a: string, b: string, c: string)
    requires Reaches(g, a, b) && HasEdge(g, b, c)
    ensures Reaches(g, a, c)
  {
    var p :| Connects(g, p, a, b);
    var q := p + [c];
    forall i | 0 <= i < |q| - 1 ensures HasEdge(g, q[i], q[i + 1]) {
      assert i < |p| - 1 ==> HasEdge(g, p[i], p[i + 1]);
    }
    assert Connects(g, q, a, c);
  }

  lemma {:induction false} PathCons(g: Graph, a: string, p: seq<string>)
    requires IsPath(g, p) && HasEdge(g, a, p[0])
    ensures IsPath(g, [a] + p)
  {
    hide HasEdge;
    var q := [a] + p;
    forall i | 0 <= i < |q| - 1 ensures HasEdge(g, q[i], q[i + 1]) {
      assert i > 0 ==> HasEdge(g, p[i - 1], p[i - 1 + 1]);
    }
  }

  lemma {:induction false} SubPath(g: Graph, p: seq<string>, i: nat, j: nat)
    requires IsPath(g, p) && i <= j < |p|
    ensures IsPath(g, p[i..j + 1])
  {
    hide HasEdge;
    var q := p[i..j + 1];
    forall k | 0 <= k < |q| - 1 ensures HasEdge(g, q[k], q[k + 1]) {
      assert HasEdge(g, p[i + k], p[i + k + 1]);
    }
  }

  /** A set that holds the start and is closed under edges holds all that is reached. */
  lemma {:induction false} ClosedHoldsPath(g: Graph, s: set<string>, p: seq<string>)
    requires IsPath(g, p) && p[0] in s
    requires forall e :: e in g.edges && e.from in s ==> e.to in s
    ensures p[|p| - 1] in s
  {
    if |p| > 1 {
      var init := p[..|p| - 1];
      forall i | 0 <= i < |init| - 1 ensures HasEdge(g, init[i], init[i + 1]) {
        assert HasEdge(g, p[i], p[i + 1]);
      }
      ClosedHoldsPath(g, s, init);
      assert HasEdge(g, p[|p| - 2], p[|p| - 2 + 1]);
    }
  }

  /** No walk of at least one edge comes back to where it began. */
  ghost predicate Acyclic(g: Graph) {
    forall p :: IsPath(g, p) && |p| > 1 ==> p[0] != p[|p| - 1]
  }
}
