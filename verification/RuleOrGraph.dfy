/**
 Exactly when turning a rule into its graph changes what it does: the other half of
 `Rules.SameAsTheList`, with a world and a context that show it.
 */
module RuleOrGraph {
  import opened Actions
  import opened DeriveGraph
  import opened Engine
  import opened FlowGraph
  import opened KahnOrder
  import opened Options
  import opened Rules
  import opened Templates
  import opened Texts

  // ── contexts ───────────────────────────────────────────────────────────────

  /** A value found under these keys. */
  function Nested(keys: seq<string>, leaf: string): (v: Value)
    ensures v.Thing?
  {
    if keys == [] then TextValue(leaf) else Object(map[keys[0] := Nested(keys[1..], leaf)])
  }

  lemma {:induction false} NestedAt(keys: seq<string>, leaf: string)
    ensures Get(Nested(keys, leaf), keys) == TextValue(leaf)
  {
    if keys != [] {
      NestedAt(keys[1..], leaf);
    }
  }

  lemma {:induction false} NestedElsewhere(keys: seq<string>, x: string, y: string, other: seq<string>)
    requires |other| <= |keys| && other != keys
    ensures Show(Get(Nested(keys, x), other)) == Show(Get(Nested(keys, y), other))
  {
    if other != [] && other[0] == keys[0] {
      assert other == [other[0]] + other[1..] && keys == [keys[0]] + keys[1..];
      NestedElsewhere(keys[1..], x, y, other[1..]);
    }
  }

  /** Every one of these paths has the value v, as a key of its own. */
  function Fill(paths: set<string>, v: string): Ctx {
    map p | p in paths :: TextValue(v)
  }

  ghost predicate OffPlane(paths: set<string>, branch: bool) {
    forall p :: p in paths ==> !OnPlane(p, branch)
  }

  lemma {:induction false} OffPlaneKeys(paths: set<string>, branch: bool)
    requires OffPlane(paths, branch)
    ensures paths !! PLANE
  {
    forall p | p in paths && p in PLANE ensures false {
      PlaneIsOnPlane(p, branch);
    }
  }

  /** All tokens of the template are on the plane or filled. */
  predicate Covered(t: string, paths: set<string>, branch: bool) {
    forall p :: p in Parts(t) && p.Token? ==> OnPlane(p.path, branch) || p.path in paths
  }

  lemma {:induction false} FilledToken(paths: set<string>, v: string, path: string, ctx: Ctx, branch: bool)
    requires path in paths && OffPlane(paths, branch) && Agree(Fill(paths, v), ctx, branch)
    ensures Resolve(ctx, path) == TextValue(v)
  {
    OffPlaneKeys(paths, branch);
    assert SameAt(Fill(paths, v), ctx, path);
  }

  /** A path on the plane starts at one of its keys. */
  lemma {:induction false} PlaneToken(paths: set<string>, v: string, path: string, ctx: Ctx, branch: bool)
    requires OnPlane(path, branch) && OffPlane(paths, branch) && Agree(Fill(paths, v), ctx, branch)
    ensures Keys(path)[0] in PLANE
    ensures Resolve(ctx, path) == Get(ValueAt(ctx, Keys(path)[0]), Keys(path)[1..])
  {
    PlaneRoots(path, branch);
    NotAsOne(paths, v, path, ctx, branch);
    var keys := Keys(path);
    hide OnPlane, Agree, OffPlane, Fill, Keys;
    if path in ctx {
      NoDots(path);
    } else {
      assert Get(Object(ctx), keys) == if keys[0] in ctx then Get(ctx[keys[0]], keys[1..]) else Nothing;
    }
  }

  /** A path on the plane is a key of its own only if it is one of the plane's keys. */
  lemma {:induction false} NotAsOne(paths: set<string>, v: string, path: string, ctx: Ctx, branch: bool)
    requires OnPlane(path, branch) && OffPlane(paths, branch) && Agree(Fill(paths, v), ctx, branch)
    ensures path in ctx ==> path in PLANE && '.' !in path
  {
    hide OnPlane;
    assert path !in PLANE ==> SameAt(Fill(paths, v), ctx, path);
  }

  lemma {:induction false} PlaneRoots(path: string, branch: bool)
    requires OnPlane(path, branch)
    ensures var keys := Keys(path);
            && keys[0] in PLANE
            && (OfItem()(keys[0]) || (keys[0] == "steps" && (|keys| > 1 ==> IsStepKey(keys[1], branch))))
  {
    NoDots("steps");
  }

  /** A filled context with one key of the plane set: it agrees, as long as what `steps` holds is
      overwritten. */
  lemma {:induction false} RootAgrees(paths: set<string>, v: string, root: string, rest: seq<string>, leaf: string,
                                      branch: bool)
    requires OffPlane(paths, branch) && root in PLANE
    requires root == "steps" ==> rest != [] && IsStepKey(rest[0], branch)
    ensures Agree(Fill(paths, v), Fill(paths, v)[root := Nested(rest, leaf)], branch)
  {
    OffPlaneKeys(paths, branch);
  }

  lemma {:induction false} HydratedAgrees(ctx: Ctx, p: Plane, branch: bool)
    requires StepKeysOnly(Some(p), branch)
    ensures Agree(ctx, Hydrated(ctx, ctx, p), branch)
  {
    ContextAgrees(ctx, [], Some(p), branch);
    assert Base(ctx, []) == ctx;
  }

  // ── one template ───────────────────────────────────────────────────────────

  /** The plane of a chain: its steps are those of its columns, and its item is the seed or a result. */
  ghost predicate ChainLike(p: Plane, branch: bool) {
    && StepKeysOnly(Some(p), branch)
    && "trigger" in p.steps && (branch ==> "branch" in p.steps)
    && (p.item == Seed || (p.item.Made? && p.item.result.Some?))
  }

  predicate OnRoot(p: Part, root: string -> bool, branch: bool) {
    p.Token? && OnPlane(p.path, branch) && root(Keys(p.path)[0])
  }

  /** A longest path on the plane from such a root. */
  lemma {:induction false} Longest(parts: seq<Part>, root: string -> bool, branch: bool) returns (longest: Part)
    requires exists p :: p in parts && OnRoot(p, root, branch)
    ensures longest in parts && OnRoot(longest, root, branch)
    ensures forall p :: p in parts && OnRoot(p, root, branch) ==> |Keys(p.path)| <= |Keys(longest.path)|
  {
    var init, last := parts[..|parts| - 1], parts[|parts| - 1];
    assert parts == init + [last];
    if exists p :: p in init && OnRoot(p, root, branch) {
      longest := Longest(init, root, branch);
      if OnRoot(last, root, branch) && |Keys(last.path)| > |Keys(longest.path)| {
        longest := last;
      }
    } else {
      longest := last;
    }
  }

  function OfItem(): string -> bool {
    (root: string) => root == "text" || root == "json" || root == "item"
  }

  function OfSteps(): string -> bool {
    (root: string) => root == "steps"
  }

  /** What is set at the start under `root`, and a graph run then hides. */
  function Set(paths: set<string>, root: string, rest: seq<string>, leaf: string): Ctx {
    Fill(paths, "x")[root := Nested(rest, leaf)]
  }

  lemma {:induction false} SetAgrees(paths: set<string>, root: string, rest: seq<string>, leaf: string, p: Plane,
                                     branch: bool)
    requires OffPlane(paths, branch) && root in PLANE && ChainLike(p, branch)
    requires root == "steps" ==> rest != [] && IsStepKey(rest[0], branch)
    ensures var c := Set(paths, root, rest, leaf);
            Agree(Fill(paths, "x"), c, branch) && Agree(Fill(paths, "x"), Hydrated(c, c, p), branch)
  {
    hide Agree, OffPlane, IsStepKey, Hydrated;
    var c := Set(paths, root, rest, leaf);
    RootAgrees(paths, "x", root, rest, leaf, branch);
    HydratedAgrees(c, p, branch);
    AgreeOn(Fill(paths, "x"), c, Hydrated(c, c, p), branch);
  }

  lemma {:induction false} HydratedAt(c: Ctx, p: Plane, root: string)
    requires root in PLANE
    ensures ValueAt(Hydrated(c, c, p), root)
            == if root == "text" then TextValue(ItemText(c, p.item))
               else if root == "steps" then StepsValue(c, p.steps)
               else ItemJson(c, StepsValue(c, p.steps), p.item)
  {
    hide StepsValue, ItemJson, ItemText;
  }

  /** The item of a graph run, as far as keys that do not get to the leaf show it. */
  lemma {:induction false} HiddenJson(c: Ctx, root: string, rest: seq<string>, x: string, y: string, steps: Value,
                                      item: Engine.Item, keys: seq<string>)
    requires root == "steps" || |keys| <= |rest|
    ensures Show(Get(ItemJson(c[root := Nested(rest, x)], steps, item), keys))
            == Show(Get(ItemJson(c[root := Nested(rest, y)], steps, item), keys))
  {
    var d, e := c[root := Nested(rest, x)], c[root := Nested(rest, y)];
    hide ResultValue;
    if root == "steps" {
      assert d["steps" := steps] == e["steps" := steps];
    } else if item == Seed && keys != [] && keys[0] == root {
      NestedElsewhere(rest, x, y, keys[1..]);
    }
  }

  /** What stands at the root of a path in a graph run, whatever stood there at the start. */
  lemma {:induction false} HiddenRoot(paths: set<string>, root: string, rest: seq<string>, x: string, y: string,
                                      p: Plane, branch: bool, keys: seq<string>)
    requires OffPlane(paths, branch) && keys != [] && keys[0] in PLANE
    requires (OfItem()(root) && (keys[0] == "steps" || |keys| <= |rest| + 1))
             || (root == "steps" && rest != [] && rest[0] in p.steps)
    ensures var c, d := Set(paths, root, rest, x), Set(paths, root, rest, y);
            Show(Get(ValueAt(Hydrated(c, c, p), keys[0]), keys[1..]))
                == Show(Get(ValueAt(Hydrated(d, d, p), keys[0]), keys[1..]))
  {
    var c, d := Set(paths, root, rest, x), Set(paths, root, rest, y);
    OffPlaneKeys(paths, branch);
    SameSteps(paths, root, rest, x, y, p);
    HydratedAt(c, p, keys[0]);
    HydratedAt(d, p, keys[0]);
    SameText(c, d, p.item);
    if keys[0] == "json" || keys[0] == "item" {
      HiddenJson(Fill(paths, "x"), root, rest, x, y, StepsValue(c, p.steps), p.item, keys[1..]);
    }
    hide StepsValue, OffPlane, ItemJson, ItemText, Hydrated, Get;
  }

  lemma {:induction false} SameText(c: Ctx, d: Ctx, item: Engine.Item)
    requires ValueAt(c, "body") == ValueAt(d, "body")
    ensures ItemText(c, item) == ItemText(d, item)
  {
  }

  lemma {:induction false} SameSteps(paths: set<string>, root: string, rest: seq<string>, x: string, y: string,
                                     p: Plane)
    requires paths !! PLANE && (OfItem()(root) || (root == "steps" && rest != [] && rest[0] in p.steps))
    ensures StepsValue(Set(paths, root, rest, x), p.steps) == StepsValue(Set(paths, root, rest, y), p.steps)
  {
    var c, d := Set(paths, root, rest, x), Set(paths, root, rest, y);
    assert ValueAt(c, "event") == ValueAt(d, "event");
    var fields := StepFields(p.steps, ValueAt(c, "event"));
    if root == "steps" {
      assert Fields(c["steps"]) + fields == Fields(d["steps"]) + fields;
    }
  }

  /** The start of a run shows such a path as it was set, and nothing under another root. */
  lemma {:induction false} ListToken(paths: set<string>, root: string, rest: seq<string>, leaf: string, path: string,
                                     branch: bool)
    requires OffPlane(paths, branch) && root in PLANE && OnPlane(path, branch)
    requires root == "steps" ==> rest != [] && IsStepKey(rest[0], branch)
    ensures var keys := Keys(path);
            Resolve(Set(paths, root, rest, leaf), path)
            == if keys[0] == root then Get(Nested(rest, leaf), keys[1..]) else Nothing
  {
    RootAgrees(paths, "x", root, rest, leaf, branch);
    PlaneToken(paths, "x", path, Set(paths, root, rest, leaf), branch);
    OffPlaneKeys(paths, branch);
  }

  /** The template at the start of a run grows with what was set, and in a graph run it does not. */
  lemma {:induction false} ListGrows(t: string, paths: set<string>, root: string, rest: seq<string>, longest: Part,
                                     branch: bool)
    requires Covered(t, paths, branch) && OffPlane(paths, branch) && root in PLANE
    requires root == "steps" ==> rest != [] && IsStepKey(rest[0], branch)
    requires longest in Parts(t) && longest.Token? && OnPlane(longest.path, branch)
             && Keys(longest.path) == [root] + rest
    requires forall p :: p in Parts(t) && p.Token? && OnPlane(p.path, branch) && Keys(p.path)[0] == root ==>
               |Keys(p.path)| <= |rest| + 1
    ensures |Render(t, Set(paths, root, rest, ""))| < |Render(t, Set(paths, root, rest, "x"))|
  {
    var c, d := Set(paths, root, rest, ""), Set(paths, root, rest, "x");
    hide Set, Resolve, OnPlane, OffPlane, IsStepKey, Fill;
    forall p | p in Parts(t) ensures |Rendered(p, c)| <= |Rendered(p, d)| {
      if p.Token? {
        TokenGrows(paths, root, rest, p.path, branch);
      }
    }
    TokenGrows(paths, root, rest, longest.path, branch);
    RenderedLonger(Parts(t), c, d, longest);
  }

  lemma {:induction false} TokenGrows(paths: set<string>, root: string, rest: seq<string>, path: string, branch: bool)
    requires OffPlane(paths, branch) && root in PLANE && (OnPlane(path, branch) || path in paths)
    requires root == "steps" ==> rest != [] && IsStepKey(rest[0], branch)
    requires OnPlane(path, branch) && Keys(path)[0] == root ==> |Keys(path)| <= |rest| + 1
    ensures var before, after := Show(Resolve(Set(paths, root, rest, ""), path)),
            Show(Resolve(Set(paths, root, rest, "x"), path));
            |before| <= |after| && (Keys(path) == [root] + rest && OnPlane(path, branch) ==> |before| < |after|)
  {
    var keys := Keys(path);
    hide Resolve, OnPlane, IsStepKey, Keys;
    if OnPlane(path, branch) {
      ListToken(paths, root, rest, "", path, branch);
      ListToken(paths, root, rest, "x", path, branch);
      if keys[0] == root {
        if keys[1..] == rest {
          NestedAt(rest, "");
          NestedAt(rest, "x");
        } else {
          NestedElsewhere(rest, "", "x", keys[1..]);
        }
      }
    } else {
      RootAgrees(paths, "x", root, rest, "", branch);
      RootAgrees(paths, "x", root, rest, "x", branch);
      hide Agree, OffPlane, Fill;
      FilledToken(paths, "x", path, Set(paths, root, rest, ""), branch);
      FilledToken(paths, "x", path, Set(paths, root, rest, "x"), branch);
    }
  }

  lemma {:induction false} GraphStays(t: string, paths: set<string>, root: string, rest: seq<string>, p: Plane,
                                      branch: bool)
    requires Covered(t, paths, branch) && OffPlane(paths, branch) && ChainLike(p, branch)
    requires root == "steps" ==> rest != [] && IsStepKey(rest[0], branch)
    requires forall q :: q in Parts(t) && q.Token? && OnPlane(q.path, branch) ==>
               (OfItem()(root) && (Keys(q.path)[0] == "steps" || |Keys(q.path)| <= |rest| + 1))
               || (root == "steps" && rest != [] && rest[0] in p.steps)
    requires root in PLANE
    ensures var c, d := Set(paths, root, rest, ""), Set(paths, root, rest, "x");
            Render(t, Hydrated(c, c, p)) == Render(t, Hydrated(d, d, p))
  {
    var c, d := Set(paths, root, rest, ""), Set(paths, root, rest, "x");
    SetAgrees(paths, root, rest, "", p, branch);
    SetAgrees(paths, root, rest, "x", p, branch);
    hide Set, Resolve, OnPlane, OffPlane, IsStepKey, Fill, Hydrated, Agree, ChainLike, Keys;
    forall q | q in Parts(t) ensures Rendered(q, Hydrated(c, c, p)) == Rendered(q, Hydrated(d, d, p)) {
      if q.Token? {
        if OnPlane(q.path, branch) {
          PlaneToken(paths, "x", q.path, Hydrated(c, c, p), branch);
          PlaneToken(paths, "x", q.path, Hydrated(d, d, p), branch);
          HiddenRoot(paths, root, rest, "", "x", p, branch, Keys(q.path));
        } else {
          FilledToken(paths, "x", q.path, Hydrated(c, c, p), branch);
          FilledToken(paths, "x", q.path, Hydrated(d, d, p), branch);
        }
      }
    }
    RenderedAlike(Parts(t), Hydrated(c, c, p), Hydrated(d, d, p));
  }

  lemma {:induction false} BareContexts(paths: set<string>, p: Plane, branch: bool)
    requires OffPlane(paths, branch) && ChainLike(p, branch)
    ensures var c := Fill(paths, "x");
            && Agree(c, c, branch) && Agree(c, Hydrated(c, c, p), branch)
            && ValueAt(c, "steps") == Nothing && Show(ValueAt(Hydrated(c, c, p), "steps")) == "[object Object]"
  {
    var c := Fill(paths, "x");
    HydratedAgrees(c, p, branch);
    AgreesWithItself(c, branch);
    OffPlaneKeys(paths, branch);
    HydratedAt(c, p, "steps");
    hide Hydrated, OffPlane, Agree;
  }

  /** If nothing but {{steps}} is read, a graph run alone shows something. */
  lemma {:induction false} BareSteps(t: string, paths: set<string>, p: Plane, branch: bool)
    requires Covered(t, paths, branch) && OffPlane(paths, branch) && ChainLike(p, branch)
    requires forall q :: q in Parts(t) && q.Token? && OnPlane(q.path, branch) ==> Keys(q.path) == ["steps"]
    requires Reads(t, branch)
    ensures var c := Fill(paths, "x"); Render(t, c) != Render(t, Hydrated(c, c, p))
  {
    hide Hydrated, OffPlane, Agree, ChainLike, Fill, OnPlane, Resolve, Keys, ValueAt, StepKeysOnly;
    var c := Fill(paths, "x");
    var g := Hydrated(c, c, p);
    BareContexts(paths, p, branch);
    forall q | q in Parts(t) ensures |Rendered(q, c)| <= |Rendered(q, g)| {
      if q.Token? {
        if OnPlane(q.path, branch) {
          PlaneToken(paths, "x", q.path, c, branch);
        } else {
          FilledToken(paths, "x", q.path, c, branch);
          FilledToken(paths, "x", q.path, g, branch);
        }
      }
    }
    var q :| q in Parts(t) && q.Token? && OnPlane(q.path, branch);
    PlaneToken(paths, "x", q.path, c, branch);
    PlaneToken(paths, "x", q.path, g, branch);
    RenderedLonger(Parts(t), c, g, q);
  }

  lemma {:induction false} ActionKeyHasDash(key: string)
    requires IsActionKey(key)
    ensures '-' in key
  {
    assert key[..7][6] == key[6];
  }

  /** Some template names this step's output. */
  ghost predicate CanBeNamed(id: string) {
    exists t, p :: p in Parts(t) && Names(p, id)
  }

  predicate Names(p: Part, id: string) {
    p.Token? && |Keys(p.path)| > 1 && Keys(p.path)[0] == "steps" && Keys(p.path)[1] == id
  }

  /** Exactly which steps {{steps.<id>.<field>}} can name: those whose id is of letters, digits and _. */
  lemma {:induction false} WhenAStepCanBeNamed(id: string)
    ensures CanBeNamed(id) <==> forall c :: c in id ==> PathChar(c) && c != '.'
  {
    hide Parts, Keys, PathChar;
    if CanBeNamed(id) {
      var t, p :| p in Parts(t) && Names(p, id);
      assert Keys(p.path)[1] in Keys(p.path);
    }
    if forall c :: c in id ==> PathChar(c) && c != '.' {
      StepNamed(id);
    }
  }

  lemma {:induction false} StepNamed(id: string)
    requires forall c :: c in id ==> PathChar(c) && c != '.'
    ensures CanBeNamed(id)
  {
    var path := "steps" + "." + id;
    PathOfStep(id);
    var t := "{{" + "" + path + "" + "}}" + "";
    TokenFirst("", path, "", "");
    FirstKey("steps", id);
    NoDots(id);
    hide Parts, Keys, PathChar;
    assert ([Token(path)] + Parts(""))[0] == Token(path);
    assert Token(path) in Parts(t) && Names(Token(path), id);
  }

  lemma {:induction false} PathOfStep(id: string)
    requires forall c :: c in id ==> PathChar(c) && c != '.'
    ensures forall c :: c in "steps" + "." + id ==> PathChar(c)
    ensures '.' !in "steps"
  {
  }

  /** No action of a derived graph is one of them. */
  lemma {:induction false} DerivedStepsAreUnnamed(i: nat)
    ensures !CanBeNamed(ActionId(i))
  {
    assert ActionId(i)[6] in ActionId(i);
    WhenAStepCanBeNamed(ActionId(i));
  }

  lemma {:induction false} StepKeyOfToken(t: string, q: Part, p: Plane, branch: bool)
    requires q in Parts(t) && q.Token? && ChainLike(p, branch) && |Keys(q.path)| > 1
             && IsStepKey(Keys(q.path)[1], branch)
    ensures Keys(q.path)[1] in p.steps
  {
    var key := Keys(q.path)[1];
    if IsActionKey(key) {
      ActionKeyHasDash(key);
      assert false;
    }
  }

  /** A template that reads the plane comes out otherwise in a graph run, for some context that
      otherwise agrees with one in which all else it reads is filled. */
  lemma {:induction false} TextShows(t: string, paths: set<string>, p: Plane, branch: bool) returns (c: Ctx)
    requires Covered(t, paths, branch) && OffPlane(paths, branch) && ChainLike(p, branch) && Reads(t, branch)
    ensures Agree(Fill(paths, "x"), c, branch) && Render(t, c) != Render(t, Hydrated(c, c, p))
  {
    hide Agree, OffPlane, Hydrated, OnPlane, IsStepKey, ChainLike, Fill, Keys, Render, Covered;
    forall q | q in Parts(t) && q.Token? && OnPlane(q.path, branch)
      ensures OnRoot(q, OfItem(), branch) || OnRoot(q, OfSteps(), branch)
    {
      PlaneRoots(q.path, branch);
    }
    if exists q :: q in Parts(t) && OnRoot(q, OfItem(), branch) {
      var longest := Longest(Parts(t), OfItem(), branch);
      var keys := Keys(longest.path);
      c := Grown(t, paths, keys[0], keys[1..], longest, p, branch);
    } else {
      var longest := Longest(Parts(t), OfSteps(), branch);
      var keys := Keys(longest.path);
      PlaneRoots(longest.path, branch);
      if |keys| == 1 {
        forall q | q in Parts(t) && q.Token? && OnPlane(q.path, branch) ensures Keys(q.path) == ["steps"] {
          assert OnRoot(q, OfSteps(), branch);
        }
        BareSteps(t, paths, p, branch);
        AgreesWithItself(Fill(paths, "x"), branch);
        c := Fill(paths, "x");
      } else {
        StepKeyOfToken(t, longest, p, branch);
        c := Grown(t, paths, keys[0], keys[1..], longest, p, branch);
      }
    }
  }

  /** With the longest such path set at the start one way or the other, one of the two shows it. */
  lemma {:induction false} Grown(t: string, paths: set<string>, root: string, rest: seq<string>, longest: Part,
                                 p: Plane, branch: bool) returns (c: Ctx)
    requires Covered(t, paths, branch) && OffPlane(paths, branch) && ChainLike(p, branch)
    requires longest in Parts(t) && longest.Token? && OnPlane(longest.path, branch)
             && Keys(longest.path) == [root] + rest
    requires OfItem()(root) || (root == "steps" && rest != [] && IsStepKey(rest[0], branch) && rest[0] in p.steps)
    requires forall q :: q in Parts(t) && q.Token? && OnPlane(q.path, branch) ==>
               Keys(q.path)[0] == "steps" || |Keys(q.path)| <= |rest| + 1
    requires forall q :: q in Parts(t) && q.Token? && OnPlane(q.path, branch) && Keys(q.path)[0] == root ==>
               |Keys(q.path)| <= |rest| + 1
    ensures Agree(Fill(paths, "x"), c, branch) && Render(t, c) != Render(t, Hydrated(c, c, p))
  {
    hide Agree, OffPlane, Hydrated, OnPlane, IsStepKey, ChainLike, Fill, Keys, Render, Covered, Set;
    var d, e := Set(paths, root, rest, ""), Set(paths, root, rest, "x");
    SetAgrees(paths, root, rest, "", p, branch);
    SetAgrees(paths, root, rest, "x", p, branch);
    ListGrows(t, paths, root, rest, longest, branch);
    GraphStays(t, paths, root, rest, p, branch);
    c := if Render(t, d) != Render(t, Hydrated(d, d, p)) then d else e;
  }

  // ── one action ─────────────────────────────────────────────────────────────

  function PathsIn(t: string, branch: bool): (paths: set<string>)
    ensures OffPlane(paths, branch) && Covered(t, paths, branch)
  {
    set p | p in Parts(t) && p.Token? && !OnPlane(p.path, branch) :: p.path
  }

  /** Every path these templates read off the plane, and the ticket. */
  function ReadPaths(steps: seq<Step>, branch: bool): set<string> {
    if steps == [] then {"ticketId"}
    else ReadPaths(steps[..|steps| - 1], branch) + PathsIn(steps[|steps| - 1].template, branch)
  }

  lemma {:induction false} ReadPathsAre(steps: seq<Step>, branch: bool)
    ensures var paths := ReadPaths(steps, branch);
            && OffPlane(paths, branch) && "ticketId" in paths
            && forall j :: 0 <= j < |steps| ==> Covered(steps[j].template, paths, branch)
  {
    hide OnPlane, PathsIn;
    if steps == [] {
      TicketOffPlane(branch);
    } else {
      var init, last := steps[..|steps| - 1], steps[|steps| - 1];
      ReadPathsAre(init, branch);
      var paths, before := ReadPaths(steps, branch), ReadPaths(init, branch);
      forall j | 0 <= j < |steps| ensures Covered(steps[j].template, paths, branch) {
        if j < |init| {
          assert init[j] == steps[j];
          MoreCovered(steps[j].template, before, paths, branch);
        } else {
          MoreCovered(last.template, PathsIn(last.template, branch), paths, branch);
        }
      }
    }
  }

  lemma {:induction false} TicketOffPlane(branch: bool)
    ensures !OnPlane("ticketId", branch)
  {
    NoDots("ticketId");
  }

  lemma {:induction false} MoreCovered(t: string, paths: set<string>, more: set<string>, branch: bool)
    requires Covered(t, paths, branch) && paths <= more
    ensures Covered(t, more, branch)
  {
    hide OnPlane;
  }

  lemma {:induction false} FilledNotBlank(t: string, paths: set<string>, ctx: Ctx, branch: bool)
    requires Covered(t, paths, branch) && OffPlane(paths, branch) && Agree(Fill(paths, "x"), ctx, branch)
    requires MayFill(t) && !Reads(t, branch)
    ensures !Blank(Render(t, ctx))
  {
    hide Agree, OffPlane, OnPlane, Fill, Resolve, Parts, Blank, RenderParts, IsSpace;
    var p :| p in Parts(t) && (p.Token? || !IsSpace(p.c));
    if p.Token? {
      FilledToken(paths, "x", p.path, ctx, branch);
      NotBlank('x');
    } else {
      NotBlank(p.c);
    }
    RenderedNotBlank(Parts(t), ctx, p);
  }

  lemma {:induction false} NotBlank(c: char)
    ensures !IsSpace('x') && (!IsSpace(c) ==> !Blank([c]))
  {
    assert [c][0] in [c];
  }

  /** The first template that is read and not behind a guard that never passes. */
  lemma {:induction false} FirstRead(s: Script, branch: bool) returns (j: nat)
    requires WellGuarded(s)
    requires exists j :: 0 <= j < |s.steps| && Reads(s.steps[j].template, branch)
                         && forall i :: 0 <= i < s.steps[j].needs ==> MayFill(s.steps[i].template)
    ensures j < |s.steps| && Reads(s.steps[j].template, branch)
    ensures forall i :: 0 <= i < s.steps[j].needs ==>
            MayFill(s.steps[i].template) && !Reads(s.steps[i].template, branch)
  {
    hide Reads, MayFill;
    var k :| 0 <= k < |s.steps| && Reads(s.steps[k].template, branch)
             && forall i :: 0 <= i < s.steps[k].needs ==> MayFill(s.steps[i].template);
    if i :| 0 <= i < s.steps[k].needs && Reads(s.steps[i].template, branch) {
      j := i;
    } else {
      j := k;
    }
  }

  lemma {:induction false} GuardsPass(s: Script, paths: set<string>, ctx: Ctx, j: nat, branch: bool)
    requires WellGuarded(s) && j < |s.steps| && OffPlane(paths, branch) && Agree(Fill(paths, "x"), ctx, branch)
    requires forall i :: 0 <= i < |s.steps| ==> Covered(s.steps[i].template, paths, branch)
    requires forall i :: 0 <= i < s.steps[j].needs ==>
             MayFill(s.steps[i].template) && !Reads(s.steps[i].template, branch)
    ensures TextAt(s, ctx, j) == [Render(s.steps[j].template, ctx)]
  {
    hide Reads, MayFill, Render, Agree, OffPlane, Covered;
    forall i | 0 <= i < s.steps[j].needs ensures !Blank(Render(s.steps[i].template, ctx)) {
      FilledNotBlank(s.steps[i].template, paths, ctx, branch);
    }
  }

  lemma {:induction false} FilledTicket(paths: set<string>, v: string, ctx: Ctx, branch: bool)
    requires "ticketId" in paths && v != "" && Agree(Fill(paths, v), ctx, branch)
    ensures HasTicket(ctx)
  {
    assert SameAt(Fill(paths, v), ctx, "ticketId");
  }

  lemma {:induction false} AskIs(opts: Opts, a: Action, ctx: Ctx)
    requires HasTicket(ctx)
    ensures var s := ScriptOf(opts, a);
            Ask(opts, a, ctx).texts == TextsOf(s, ctx) && Ask(opts, a, ctx).whole == HandsOn(s, ctx)
  {
    hide ScriptOf, WellGuarded;
  }

  /** A template that is read: what the action asks differs. */
  lemma {:induction false} ReadingShows(opts: Opts, a: Action, p: Plane, branch: bool) returns (c: Ctx)
    requires ChainLike(p, branch)
    requires var s := ScriptOf(opts, a);
             exists j :: 0 <= j < |s.steps| && Reads(s.steps[j].template, branch)
                         && forall i :: 0 <= i < s.steps[j].needs ==> MayFill(s.steps[i].template)
    ensures Agree(Fill(ReadPaths(ScriptOf(opts, a).steps, branch), "x"), c, branch)
    ensures Ask(opts, a, c) != Ask(opts, a, Hydrated(c, c, p))
  {
    var s := ScriptOf(opts, a);
    hide ScriptOf, WellGuarded, Reads, MayFill, Render, Agree, OffPlane, Covered, ChainLike, Hydrated, Fill, ReadPaths,
         TextAt, HandsOn, Ask;
    var paths := ReadPaths(s.steps, branch);
    ReadPathsAre(s.steps, branch);
    var j := FirstRead(s, branch);
    var t := s.steps[j].template;
    c := TextShows(t, paths, p, branch);
    var g := Hydrated(c, c, p);
    ChainHydrated(Fill(paths, "x"), c, p, branch);
    GuardsPass(s, paths, c, j, branch);
    GuardsPass(s, paths, g, j, branch);
    FilledTicket(paths, "x", c, branch);
    FilledTicket(paths, "x", g, branch);
    AskIs(opts, a, c);
    AskIs(opts, a, g);
    assert TextsOf(s, c)[j] == [Render(t, c)] && TextsOf(s, g)[j] == [Render(t, g)];
  }

  lemma {:induction false} ChainHydrated(fill: Ctx, c: Ctx, p: Plane, branch: bool)
    requires Agree(fill, c, branch) && ChainLike(p, branch)
    ensures Agree(fill, Hydrated(c, c, p), branch)
  {
    HydratedAgrees(c, p, branch);
    hide Hydrated, Agree;
    AgreeOn(fill, c, Hydrated(c, c, p), branch);
  }

  /** The whole context shows a graph run. */
  lemma {:induction false} WholeShows(opts: Opts, a: Action, paths: set<string>, v: string, p: Plane, branch: bool)
    requires OffPlane(paths, branch) && "ticketId" in paths && v != "" && ChainLike(p, branch)
    requires var s, c := ScriptOf(opts, a), Fill(paths, v);
             s.whole.Entire? || (s.whole.IfUrl? && IsUrl(TrimStart(Render(s.steps[0].template, c))))
    ensures var c := Fill(paths, v); Ask(opts, a, c) != Ask(opts, a, Hydrated(c, c, p))
  {
    var s, c := ScriptOf(opts, a), Fill(paths, v);
    var g := Hydrated(c, c, p);
    OffPlaneKeys(paths, branch);
    assert "text" in g && "text" !in c;
    AgreesWithItself(c, branch);
    ChainHydrated(c, c, p, branch);
    FilledTicket(paths, v, c, branch);
    FilledTicket(paths, v, g, branch);
    AskIs(opts, a, c);
    AskIs(opts, a, g);
    hide ScriptOf, Hydrated, Agree, Fill, IsUrl, Render, OffPlane, ChainLike, Ask;
    assert HandsOn(s, c) == [c];
  }

  // ── URLs ───────────────────────────────────────────────────────────────────

  /** What makes a URL of the start of one. */
  function Completion(start: string): (v: string)
    ensures v != ""
  {
    if Starts(start, "http://") then "http://"[|start|..]
    else if Starts(start, "https://") then "https://"[|start|..]
    else "x"
  }

  lemma {:induction false} Completed(start: string, url: string, more: string)
    requires Starts(start, url) && Lower(url) == url
    ensures Begins((start + url[|start|..]) + more, url)
  {
    var s := (start + url[|start|..]) + more;
    assert s[..|url|] == start + url[|start|..];
    forall i | 0 <= i < |url| ensures Lower(s[..|url|])[i] == url[i] {
      if i < |start| {
        assert LowerChar(start[i]) == Lower(start)[i] == url[..|start|][i];
      } else {
        assert LowerChar(url[i]) == Lower(url)[i];
      }
    }
    assert Lower(s[..|url|]) == url;
  }

  lemma {:induction false} UrlStays(start: string, more: string)
    requires IsUrl(start)
    ensures IsUrl(start + more)
  {
    if Begins(start, "http://") {
      assert (start + more)[..7] == start[..7];
    } else {
      assert (start + more)[..8] == start[..8];
    }
  }

  /** A template that may come out as a URL does, with its tokens filled with what is missing. */
  lemma {:induction false} UrlFills(t: string, paths: set<string>, branch: bool)
    requires Covered(t, paths, branch) && OffPlane(paths, branch) && MayBeUrl(t) && !Reads(t, branch)
    ensures IsUrl(TrimStart(Render(t, Fill(paths, Completion(TrimStart(Leading(Parts(t))))))))
  {
    var parts := Parts(t);
    var start := TrimStart(Leading(parts));
    var v := Completion(start);
    var c := Fill(paths, v);
    var more := RenderParts(Trailer(parts), c);
    LeadingFirst(parts, c);
    TrimConcat(Leading(parts), more);
    hide TrimStart, Leading, Parts, IsUrl, RenderParts, Fill, OffPlane, Completion, OnPlane;
    if IsUrl(start) {
      UrlStays(start, more);
      UrlIsNotBlank(start);
    } else {
      FirstFilled(parts, paths, v, branch);
      var rest := RenderParts(Trailer(parts)[1..], c);
      assert more == v + rest;
      UrlCompletes(start, rest);
      assert (start + v) + rest == start + more;
      if start == "" {
        assert start + more == more;
        UrlUntrimmed(more);
      }
    }
  }

  lemma {:induction false} UrlIsNotBlank(start: string)
    requires IsUrl(start)
    ensures start != ""
  {
  }

  lemma {:induction false} UrlUntrimmed(s: string)
    requires IsUrl(s)
    ensures TrimStart(s) == s
  {
    assert s[..7][0] == s[0] && (|s| >= 8 ==> s[..8][0] == s[0]);
    assert Begins(s, "http://") ==> Lower(s[..7])[0] == LowerChar(s[0]) == 'h';
    assert Begins(s, "https://") ==> Lower(s[..8])[0] == LowerChar(s[0]) == 'h';
  }

  lemma {:induction false} UrlCompletes(start: string, more: string)
    requires Starts(start, "http://") || Starts(start, "https://")
    ensures IsUrl((start + Completion(start)) + more)
  {
    LowerUrls();
    if Starts(start, "http://") {
      Completed(start, "http://", more);
    } else {
      Completed(start, "https://", more);
    }
  }

  lemma {:induction false} LowerUrls()
    ensures Lower("http://") == "http://" && Lower("https://") == "https://"
  {
  }

  lemma {:induction false} FirstFilled(parts: seq<Part>, paths: set<string>, v: string, branch: bool)
    requires exists p :: p in parts && p.Token?
    requires OffPlane(paths, branch) && forall p :: p in parts && p.Token? ==> p.path in paths
    ensures var rest, c := Trailer(parts), Fill(paths, v);
            rest != [] && RenderParts(rest, c) == v + RenderParts(rest[1..], c)
  {
    var rest, c := Trailer(parts), Fill(paths, v);
    assert rest != [] && rest[0] in rest && rest[0].path in paths;
    AgreesWithItself(c, branch);
    FilledToken(paths, v, rest[0].path, c, branch);
  }

  // ── a run that shows it ────────────────────────────────────────────────────

  /** A world in which everything succeeds, says nothing and changes nothing. */
  function Quiet(): World {
    World((c, v) => true, (calls, a, asked, ctx) => Answer(true, "", map[], map[]), (calls, a, ctx) => map[],
          (calls, n, inputs, ctx) => Out([], Event, Always, []))
  }

  predicate PutsNothing(results: seq<Result>) {
    forall i :: 0 <= i < |results| ==> results[i].puts == map[]
  }

  lemma {:induction false} QuietPerforms(opts: Opts, c: Ctx, calls: seq<Call>, a: Action, p: Option<Plane>)
    ensures var r := Perform(Quiet(), opts, c, calls, a, p);
            r.asked == Ask(opts, a, Context(c, calls, p)) && r.puts == map[]
  {
    assert Raised(Quiet(), opts, c, calls, a) == map[];
    assert Context(c, calls, p) + map[] == Context(c, calls, p);
    hide Context, Ask, Raised, Withheld;
  }

  lemma {:induction false} BaseStays(c: Ctx, actions: seq<Action>, results: seq<Result>)
    requires |results| <= |actions| && PutsNothing(results)
    ensures Base(c, Calls(actions, results)) == c
  {
    if results != [] {
      var init := results[..|results| - 1];
      assert Calls(actions, results)[..|results| - 1] == Calls(actions, init);
      BaseStays(c, actions, init);
      assert results[|results| - 1].puts == map[];
    }
  }

  lemma {:induction false} QuietPuts(opts: Opts, c: Ctx, actions: seq<Action>, planes: Planes, k: nat)
    requires k <= |actions|
    ensures PutsNothing(Performed(EnvOf(Quiet(), opts, c), actions, planes, k))
  {
    hide *;
    var env := EnvOf(Quiet(), opts, c);
    if k == 0 {
      NonePerformed(env, actions, planes);
      NonePuts(Performed(env, actions, planes, k));
    } else {
      QuietPuts(opts, c, actions, planes, k - 1);
      OneMore(Quiet(), opts, c, actions, planes, k - 1);
      var before := Performed(env, actions, planes, k - 1);
      QuietPerforms(opts, c, Calls(actions, before), actions[k - 1], planes(before));
      OnePuts(before, Perform(Quiet(), opts, c, Calls(actions, before), actions[k - 1], planes(before)));
    }
  }

  lemma {:induction false} NonePuts(results: seq<Result>)
    requires |results| == 0
    ensures PutsNothing(results)
  {
  }

  lemma {:induction false} OnePuts(results: seq<Result>, r: Result)
    requires PutsNothing(results) && r.puts == map[]
    ensures PutsNothing(results + [r])
  {
  }

  lemma {:induction false} QuietHolds(opts: Opts, c: Ctx, d: Draft)
    ensures Matches(EnvOf(Quiet(), opts, c), d) && Holds(EnvOf(Quiet(), opts, c), [], d.all, d.conditions, None)
  {
    HoldsIs(Quiet(), opts, c, d, None);
    HoldsIs(Quiet(), opts, c, d, Some(Plane(Seed, map["trigger" := TRIGGERED])));
    assert d.conditions != [] ==> d.conditions[0] in d.conditions;
    hide EnvOf, Context;
  }

  /** What was performed stays at the front. */
  lemma {:induction false} PerformedFirst(env: Env, actions: seq<Action>, planes: Planes, j: nat, k: nat)
    requires j <= k <= |actions|
    ensures Performed(env, actions, planes, j) <= Performed(env, actions, planes, k)
  {
    hide Calls;
    if j < k {
      PerformedFirst(env, actions, planes, j, k - 1);
    }
  }

  /** Two runs that differ in one action's asking differ in their results. */
  lemma {:induction false} AskedShows(e: Env, actions: seq<Action>, p: Planes, q: Planes, k: nat, r: Result, s: Result,
                                      before: seq<Result>)
    requires k < |actions| && r != s
    requires Performed(e, actions, p, k + 1) == before + [r] && Performed(e, actions, q, k + 1) == before + [s]
    ensures Performed(e, actions, p, |actions|) != Performed(e, actions, q, |actions|)
  {
    PerformedFirst(e, actions, p, k + 1, |actions|);
    PerformedFirst(e, actions, q, k + 1, |actions|);
    hide Performed;
    assert (before + [r])[|before|] == r && (before + [s])[|before|] == s;
  }

  lemma {:induction false} StampsDiffer(a: seq<Result>, b: seq<Result>)
    requires StampAll(a) == StampAll(b)
    ensures a == b
  {
    hide ActionId;
    assert |StampAll(a)| == |a| && |StampAll(b)| == |b|;
    forall k | 0 <= k < |a| ensures a[k] == b[k] {
      assert StampAll(a)[k].result == a[k] && StampAll(b)[k].result == b[k];
    }
  }

  lemma {:induction false} ChainIsChainLike(d: Draft, results: seq<Result>)
    ensures ChainPlane(d, true)(results).Some? && ChainLike(ChainPlane(d, true)(results).value, d.Lead() == 2)
  {
    ChainKeys(d, results);
    hide StepsAfter;
  }

  /** What the first action that sees a graph run can see it by. */
  lemma {:induction false} OneShows(opts: Opts, a: Action, p: Plane, branch: bool, v: string) returns (c: Ctx)
    requires Sees(opts, a, branch) && ChainLike(p, branch) && v == FillOf(opts, a, branch)
    ensures Agree(Fill(ReadPaths(ScriptOf(opts, a).steps, branch), v), c, branch)
    ensures Ask(opts, a, c) != Ask(opts, a, Hydrated(c, c, p))
  {
    var s := ScriptOf(opts, a);
    var paths := ReadPaths(s.steps, branch);
    ReadPathsAre(s.steps, branch);
    hide ScriptOf, Reads, MayFill, Render, Agree, OffPlane, Covered, ChainLike, Hydrated, Fill, ReadPaths, Ask,
         MayBeUrl;
    if ByText(s, branch) {
      c := ReadingShows(opts, a, p, branch);
    } else {
      c := Fill(paths, v);
      AgreesWithItself(c, branch);
      if s.whole.IfUrl? {
        UrlFills(s.steps[0].template, paths, branch);
      }
      WholeShows(opts, a, paths, v, p, branch);
    }
  }

  ghost predicate ByText(s: Script, branch: bool)
    requires WellGuarded(s)
  {
    exists j :: 0 <= j < |s.steps| && Reads(s.steps[j].template, branch)
                && forall i :: 0 <= i < s.steps[j].needs ==> MayFill(s.steps[i].template)
  }

  /** What the paths that are read off the plane are filled with. */
  ghost function FillOf(opts: Opts, a: Action, branch: bool): (v: string)
    ensures v != ""
  {
    var s := ScriptOf(opts, a);
    if !ByText(s, branch) && s.whole.IfUrl? then Completion(TrimStart(Leading(Parts(s.steps[0].template)))) else "x"
  }

  /** From the first action on that sees a graph run, the two runs of some context differ. */
  lemma {:induction false} SeeingShows(opts: Opts, d: Draft, order: seq<string>, sorted: nat, k: nat) returns (c: Ctx)
    requires IsOrder(Derived(d), order, sorted) && k < |d.actions|
    requires Runs(d.actions, k) && Unseeing(opts, d.actions, k, d.Lead() == 2)
             && Sees(opts, d.actions[k], d.Lead() == 2)
    ensures var env := EnvOf(Quiet(), opts, c);
            Walk(env, Derived(d), order).results != StampAll(Linear(env, d))
  {
    hide *;
    var a, branch, chain := d.actions[k], d.Lead() == 2, ChainPlane(d, true);
    var v := FillOf(opts, a, branch);
    var start := Fill(ReadPaths(ScriptOf(opts, a).steps, branch), v);
    var before := Performed(EnvOf(Quiet(), opts, start), d.actions, NoPlane(), k);
    ChainIsChainLike(d, before);
    c := OneShows(opts, a, chain(before).value, branch, v);
    var env := EnvOf(Quiet(), opts, c);
    DerivedMeansTheRule(env, d, order, sorted);
    QuietHolds(opts, c, d);
    LinearIs(env, d);
    Differ(opts, d, k, start, c, before);
    var graph, list := Performed(env, d.actions, chain, |d.actions|), Performed(env, d.actions, NoPlane(), |d.actions|);
    if StampAll(graph) == StampAll(list) {
      StampsDiffer(graph, list);
    }
  }

  lemma {:induction false} LinearIs(env: Env, d: Draft)
    requires Holds(env, [], d.all, d.conditions, None)
    ensures Linear(env, d) == Performed(env, d.actions, NoPlane(), |d.actions|)
  {
    hide Performed, Holds;
  }

  lemma {:induction false} Differ(opts: Opts, d: Draft, k: nat, start: Ctx, c: Ctx, before: seq<Result>)
    requires k < |d.actions| && Runs(d.actions, k) && Unseeing(opts, d.actions, k, d.Lead() == 2)
    requires Agree(start, c, d.Lead() == 2)
    requires before == Performed(EnvOf(Quiet(), opts, start), d.actions, NoPlane(), k)
    requires ChainPlane(d, true)(before).Some?
    requires Ask(opts, d.actions[k], c) != Ask(opts, d.actions[k], Hydrated(c, c, ChainPlane(d, true)(before).value))
    ensures var env := EnvOf(Quiet(), opts, c);
            Performed(env, d.actions, ChainPlane(d, true), |d.actions|)
            != Performed(env, d.actions, NoPlane(), |d.actions|)
  {
    hide *;
    var branch, chain, env := d.Lead() == 2, ChainPlane(d, true), EnvOf(Quiet(), opts, c);
    ChainIsStepKeyed(d);
    AgreesWithItself(c, branch);
    PerformedAlike(Quiet(), opts, start, c, d.actions, NoPlane(), NoPlane(), k, branch);
    PerformedAlike(Quiet(), opts, c, c, d.actions, chain, NoPlane(), k, branch);
    HaltedAtStop(Quiet(), opts, c, d.actions, NoPlane(), k);
    QuietPuts(opts, c, d.actions, NoPlane(), k);
    BaseStays(c, d.actions, before);
    OneMore(Quiet(), opts, c, d.actions, chain, k);
    OneMore(Quiet(), opts, c, d.actions, NoPlane(), k);
    var calls := Calls(d.actions, before);
    Contexts(c, calls, chain(before).value);
    NoPlaneIs(before);
    QuietPerforms(opts, c, calls, d.actions[k], chain(before));
    QuietPerforms(opts, c, calls, d.actions[k], None);
    AskedShows(env, d.actions, chain, NoPlane(), k, Perform(Quiet(), opts, c, calls, d.actions[k], chain(before)),
               Perform(Quiet(), opts, c, calls, d.actions[k], None), before);
  }

  lemma {:induction false} Contexts(c: Ctx, calls: seq<Call>, p: Plane)
    requires Base(c, calls) == c
    ensures Context(c, calls, None) == c && Context(c, calls, Some(p)) == Hydrated(c, c, p)
  {
    hide Hydrated;
  }

  lemma {:induction false} NoPlaneIs(before: seq<Result>)
    ensures NoPlane()(before) == None
  {
  }

  // ── conditions ─────────────────────────────────────────────────────────────

  /** A world that tells an empty field that only a graph run sets from one that is there. */
  function Judging(all: bool): World {
    Quiet().(compare := (c: Condition, v: Value) => all != (c.field in PLANE && v.Thing?))
  }

  lemma {:induction false} TestingShows(opts: Opts, d: Draft, order: seq<string>, sorted: nat, c: Condition)
    requires IsOrder(Derived(d), order, sorted) && d.actions != [] && c in d.conditions && c.field in PLANE
    ensures var env := EnvOf(Judging(d.all), opts, map[]);
            Walk(env, Derived(d), order).results != StampAll(Linear(env, d))
  {
    var w := Judging(d.all);
    var env := EnvOf(w, opts, map[]);
    DerivedMeansTheRule(env, d, order, sorted);
    var start := Plane(Seed, map["trigger" := TRIGGERED]);
    HoldsIs(w, opts, map[], d, None);
    HoldsIs(w, opts, map[], d, Some(start));
    JudgesEmpty(d);
    JudgesPlane(d, c, Context(map[], [], Some(start)));
    FirstPerformed(w, opts, map[], d, ChainPlane(d, true));
    FirstPerformed(w, opts, map[], d, NoPlane());
    hide IsOrder, Walk, Derived, EnvOf, Performed, Judged, Context, Judging, Holds;
    assert |StampAll([])| == 0;
    forall rs: seq<Result> ensures |StampAll(rs)| == |rs| {
    }
  }

  lemma {:induction false} JudgesEmpty(d: Draft)
    requires d.conditions != []
    ensures Judged(Judging(d.all), d.all, d.conditions, Context(map[], [], None)) <==> d.all
  {
    assert Context(map[], [], None) == map[];
  }

  lemma {:induction false} JudgesPlane(d: Draft, c: Condition, ctx: Ctx)
    requires c in d.conditions && c.field in PLANE && ValueAt(ctx, c.field).Thing?
    ensures Judged(Judging(d.all), d.all, d.conditions, ctx) <==> !d.all
  {
    assert Judging(d.all).compare(c, ValueAt(ctx, c.field)) == !d.all;
  }

  lemma {:induction false} FirstPerformed(w: World, opts: Opts, ctx0: Ctx, d: Draft, planes: Planes)
    requires d.actions != []
    ensures Performed(EnvOf(w, opts, ctx0), d.actions, planes, |d.actions|) != []
  {
    var env := EnvOf(w, opts, ctx0);
    NonePerformed(env, d.actions, planes);
    OneMore(w, opts, ctx0, d.actions, planes, 0);
    PerformedFirst(env, d.actions, planes, 1, |d.actions|);
    hide Performed, EnvOf, Perform;
  }

  // ── the theorem ────────────────────────────────────────────────────────────

  lemma {:induction false} FirstSeen(opts: Opts, actions: seq<Action>, branch: bool, n: nat) returns (k: nat)
    requires n <= |actions| && !Unseeing(opts, actions, n, branch)
    ensures k < n && Runs(actions, k) && Unseeing(opts, actions, k, branch) && Sees(opts, actions[k], branch)
  {
    hide Sees;
    if Unseeing(opts, actions, n - 1, branch) {
      k := n - 1;
    } else {
      k := FirstSeen(opts, actions, branch, n - 1);
    }
  }

  /**
   Exactly when turning a rule into its graph changes nothing, in any world and from any context,
   started in any way: when there is nothing to run, or no condition tests text, json, item or steps,
   and no action before a stop hands the whole context on or interpolates what only a graph run sets.
   Results include all that was asked.
   */
  lemma {:induction false} WhenTheGraphIsTheList(opts: Opts, d: Draft, order: seq<string>, sorted: nat)
    requires IsOrder(Derived(d), order, sorted)
    ensures Blind(opts, d)
            <==> forall w, ctx0 ::
                   Walk(EnvOf(w, opts, ctx0), Derived(d), order).results == StampAll(Linear(EnvOf(w, opts, ctx0), d))
  {
    hide Walk, Derived, IsOrder, EnvOf, StampAll, Linear, Unseeing;
    if Blind(opts, d) {
      forall w, ctx0
        ensures Walk(EnvOf(w, opts, ctx0), Derived(d), order).results == StampAll(Linear(EnvOf(w, opts, ctx0), d))
      {
        SameAsTheList(w, opts, ctx0, d, order, sorted);
      }
    } else if Unseeing(opts, d.actions, |d.actions|, d.Lead() == 2) {
      var c :| c in d.conditions && c.field in PLANE;
      TestingShows(opts, d, order, sorted, c);
      assert exists w, ctx0 ::
        Walk(EnvOf(w, opts, ctx0), Derived(d), order).results != StampAll(Linear(EnvOf(w, opts, ctx0), d));
    } else {
      var k := FirstSeen(opts, d.actions, d.Lead() == 2, |d.actions|);
      var c := SeeingShows(opts, d, order, sorted, k);
      assert exists w, ctx0 ::
        Walk(EnvOf(w, opts, ctx0), Derived(d), order).results != StampAll(Linear(EnvOf(w, opts, ctx0), d));
    }
  }

  /** A rule that only notifies an integration, in plain text. */
  const NOTIFY := Draft(true, [], [Action(Notify, map["integrationId" := "hook", "text" := "hi"], false, "")])

  lemma {:induction false} NotifySees()
    ensures NOTIFY.Lead() == 1 && |NOTIFY.actions| == 1
    ensures Runs(NOTIFY.actions, 0) && Sees(EVENT, NOTIFY.actions[0], false)
  {
  }

  /** It can do something else as a graph: its context goes with it. */
  lemma {:induction false} PlainNotifyDiffers(order: seq<string>, sorted: nat) returns (w: World, ctx0: Ctx)
    requires IsOrder(Derived(NOTIFY), order, sorted)
    ensures var env := EnvOf(w, EVENT, ctx0);
            Walk(env, Derived(NOTIFY), order).results != StampAll(Linear(env, NOTIFY))
  {
    hide Walk, Derived, IsOrder, EnvOf, StampAll, Linear, Sees, Performing;
    NotifySees();
    WhenTheGraphIsTheList(EVENT, NOTIFY, order, sorted);
    w, ctx0 :| Walk(EnvOf(w, EVENT, ctx0), Derived(NOTIFY), order).results
               != StampAll(Linear(EnvOf(w, EVENT, ctx0), NOTIFY));
  }
}
