/**
 Rules in the world (api/apps/api/src/automations.ts): the engine's environment with its context, its
 templates and its options spelled out; when a rule and its graph do the same, and when a rule does the
 same on an event and from the canvas.
 */
module Rules {
  import opened Actions
  import opened DeriveGraph
  import opened Engine
  import opened FlowGraph
  import opened KahnOrder
  import opened Options
  import opened Templates
  import opened Texts

  /** What the world answers to what an action asked. */
  datatype Answer = Answer(ok: bool, detail: string, about: Ctx, puts: Ctx)

  /**
   The world: what the operators of conditions make of a field's value, what comes of an action, which
   may depend on everything done before, on what it asked and on all of the context that no graph run
   sets, and of a node that is neither. `raise`: what an escalation changes before it notifies.
   */
  datatype World = World(
    compare: (Condition, Value) -> bool,
    answer: (seq<Call>, Action, Asked, Ctx) -> Answer,
    raise: (seq<Call>, Action, Ctx) -> Ctx,
    run: (seq<Call>, Node, seq<Engine.Item>, Ctx) -> Out)

  // ── the context ────────────────────────────────────────────────────────────

  predicate SameAt(c: Ctx, d: Ctx, key: string) {
    (key in c <==> key in d) && (key in c ==> c[key] == d[key])
  }

  function PutsOf(results: seq<Result>): Ctx {
    if results == [] then map[] else PutsOf(results[..|results| - 1]) + (results[|results| - 1].puts - PLANE)
  }

  /** The context after these calls, as far as no graph run sets it. */
  function Base(ctx0: Ctx, calls: seq<Call>): Ctx {
    if calls == [] then ctx0
    else
      var before := Base(ctx0, calls[..|calls| - 1]);
      match calls[|calls| - 1]
      case Did(_, r) => before + (r.puts - PLANE)
      case Ran(_, out) => before + PutsOf(out.results)
  }

  function ResultValue(r: Result): Value {
    var shown := map["ok" := TextValue(if r.ok then "true" else "false"), "detail" := TextValue(r.detail)];
    Object(r.about + (if r.stop then shown["stop" := TextValue("true")] else shown))
  }

  function OutputValue(out: Out, event: Value): Value {
    match out.output
    case Event => Object(map["event" := event])
    case Matched(holds) => Object(map["matched" := TextValue(if holds then "true" else "false")])
    case Came(None) => Object(map["skipped" := TextValue("no action")])
    case Came(Some(r)) => ResultValue(r)
    case Told(value) => value
  }

  function StepFields(steps: map<string, Out>, event: Value): Ctx {
    map id | id in steps :: OutputValue(steps[id], event)
  }

  function Fields(v: Value): Ctx {
    if v.Thing? then v.fields else map[]
  }

  /** ctx.steps: an object that was there is kept and written to. */
  function StepsValue(ctx0: Ctx, steps: map<string, Out>): Value {
    var there := ValueAt(ctx0, "steps");
    Thing(if there.Thing? then there.shown else "[object Object]",
          Fields(there) + StepFields(steps, ValueAt(ctx0, "event")))
  }

  function ItemJson(ctx0: Ctx, steps: Value, item: Engine.Item): Value {
    match item
    case Seed => Object(ctx0["steps" := steps])
    case Made(None) => Nothing
    case Made(Some(r)) => ResultValue(r)
    case Other(text) => TextValue(text)
  }

  function ItemText(ctx0: Ctx, item: Engine.Item): string {
    match item
    case Seed => Show(ValueAt(ctx0, "body"))
    case Made(None) => ""
    case Made(Some(r)) => r.detail
    case Other(text) => text
  }

  /** hydrateCtxItem, and `steps`. */
  function Hydrated(ctx0: Ctx, base: Ctx, p: Plane): Ctx {
    var steps := StepsValue(ctx0, p.steps);
    var json := ItemJson(ctx0, steps, p.item);
    base["steps" := steps]["item" := json]["json" := json]["text" := TextValue(ItemText(ctx0, p.item))]
  }

  function Context(ctx0: Ctx, calls: seq<Call>, plane: Option<Plane>): Ctx {
    match plane
    case None => Base(ctx0, calls)
    case Some(p) => Hydrated(ctx0, Base(ctx0, calls), p)
  }

  // ── what a graph run sets ──────────────────────────────────────────────────

  /** Nothing but text, json, item and steps; and these by the current item: the context the run began
      with and its body, or what the action before came to and its detail. */
  lemma {:induction false} GraphSets(ctx0: Ctx, base: Ctx, p: Plane, key: string)
    ensures var g := Hydrated(ctx0, base, p);
            && (key !in PLANE ==> SameAt(base, g, key))
            && ValueAt(g, "item") == ValueAt(g, "json")
            && (p.item == Seed ==>
                  && Show(ValueAt(g, "text")) == Show(ValueAt(ctx0, "body"))
                  && (key != "steps" ==> SameAt(ctx0, Fields(ValueAt(g, "json")), key)))
            && (p.item == Made(None) ==>
                  Show(ValueAt(g, "text")) == "" && ValueAt(g, "json") == Nothing)
            && (p.item.Made? && p.item.result.Some? ==>
                  var r := p.item.result.value;
                  && Show(ValueAt(g, "text")) == r.detail
                  && Show(Get(ValueAt(g, "json"), ["detail"])) == r.detail
                  && Show(Get(ValueAt(g, "json"), ["ok"])) == (if r.ok then "true" else "false"))
  {
    hide StepsValue;
    if p.item.Made? && p.item.result.Some? {
      ResultShows(p.item.result.value);
    }
  }

  lemma {:induction false} ResultShows(r: Result)
    ensures Get(ResultValue(r), ["detail"]) == TextValue(r.detail)
    ensures Get(ResultValue(r), ["ok"]) == TextValue(if r.ok then "true" else "false")
    ensures r.stop ==> Get(ResultValue(r), ["stop"]) == TextValue("true")
  {
    forall key: string, v: Value ensures Get(v, [key]) == ValueAt(Fields(v), key) {
      assert [key][1..] == [];
    }
  }

  /** Under its id each node that ran: a trigger with the run's event, a branch with its verdict, an action
      with its result; under other keys what was there when the run began. */
  lemma {:induction false} StepsShow(ctx0: Ctx, base: Ctx, p: Plane, id: string)
    ensures var step := Get(ValueAt(Hydrated(ctx0, base, p), "steps"), [id]);
            if id !in p.steps then step == Get(ValueAt(ctx0, "steps"), [id])
            else match p.steps[id].output
                 case Event => Get(step, ["event"]) == ValueAt(ctx0, "event")
                 case Matched(holds) => Show(Get(step, ["matched"])) == (if holds then "true" else "false")
                 case Came(None) => Show(Get(step, ["skipped"])) == "no action"
                 case Came(Some(r)) => Show(Get(step, ["detail"])) == r.detail
                 case Told(value) => step == value
  {
    StepsAre(ctx0, base, p);
    OneKey(ValueAt(Hydrated(ctx0, base, p), "steps"), id);
    OneKey(ValueAt(ctx0, "steps"), id);
    hide Hydrated, ItemJson, ItemText, ResultValue, StepsValue, Get;
    if id in p.steps {
      OutputShows(p.steps[id], ValueAt(ctx0, "event"));
    }
  }

  lemma {:induction false} StepsAre(ctx0: Ctx, base: Ctx, p: Plane)
    ensures var steps := Fields(ValueAt(Hydrated(ctx0, base, p), "steps"));
            steps == Fields(ValueAt(ctx0, "steps")) + StepFields(p.steps, ValueAt(ctx0, "event"))
  {
    hide ItemJson, ItemText, StepFields;
  }

  lemma {:induction false} OneKey(v: Value, key: string)
    ensures Get(v, [key]) == ValueAt(Fields(v), key)
  {
    assert [key][1..] == [];
  }

  lemma {:induction false} OutputShows(out: Out, event: Value)
    ensures var step := OutputValue(out, event);
            match out.output
            case Event => Get(step, ["event"]) == event
            case Matched(holds) => Show(Get(step, ["matched"])) == (if holds then "true" else "false")
            case Came(None) => Show(Get(step, ["skipped"])) == "no action"
            case Came(Some(r)) => Show(Get(step, ["detail"])) == r.detail
            case Told(value) => step == value
  {
    var step := OutputValue(out, event);
    OneKey(step, "event");
    OneKey(step, "matched");
    OneKey(step, "skipped");
    hide ResultValue, Get;
    if out.output.Came? && out.output.result.Some? {
      ResultShows(out.output.result.value);
    }
  }

  /** What an action puts into the context is there for all that come after it, unless a later one puts
      something else; none of it is under a key that a graph run sets. */
  lemma {:induction false} PutsAreSeen(ctx0: Ctx, calls: seq<Call>, a: Action, r: Result, key: string)
    ensures var before, after := Base(ctx0, calls), Base(ctx0, calls + [Did(a, r)]);
            if key in r.puts && key !in PLANE then key in after && after[key] == r.puts[key]
            else SameAt(before, after, key)
  {
    assert (calls + [Did(a, r)])[..|calls|] == calls;
  }

  /** The results of an agent or an item node put what they put one after another. */
  lemma {:induction false} ResultsPut(ctx0: Ctx, calls: seq<Call>, n: Node, out: Out, r: Result, key: string)
    requires key !in PLANE
    ensures var before, after := Base(ctx0, calls + [Ran(n, out)]),
            Base(ctx0, calls + [Ran(n, out.(results := out.results + [r]))]);
            if key in r.puts then key in after && after[key] == r.puts[key] else SameAt(before, after, key)
    ensures out.results == [] ==> SameAt(Base(ctx0, calls), Base(ctx0, calls + [Ran(n, out)]), key)
  {
    var more := out.(results := out.results + [r]);
    assert (calls + [Ran(n, out)])[..|calls|] == calls && (calls + [Ran(n, more)])[..|calls|] == calls;
    assert more.results[..|out.results|] == out.results;
  }

  // ── the environment ────────────────────────────────────────────────────────

  /** evaluateConditions on a list that is not empty; the field is one key, not a path. */
  predicate Judged(w: World, all: bool, conditions: seq<Condition>, ctx: Ctx) {
    if all then forall c :: c in conditions ==> w.compare(c, ValueAt(ctx, c.field))
    else exists c :: c in conditions && w.compare(c, ValueAt(ctx, c.field))
  }

  function Clip(s: string): string {
    if |s| <= 60 then s else s[..60]
  }

  /** What a dry run says it would do, but for its wording. */
  function Would(asked: Asked): string {
    "(dry-run) would " + (if asked.texts == [] || asked.texts[0] == [] then "" else Clip(asked.texts[0][0]))
  }

  function Raised(w: World, opts: Opts, ctx0: Ctx, calls: seq<Call>, a: Action): Ctx {
    var base := Base(ctx0, calls);
    if a.kind == Escalate && !Withheld(opts, a) && HasTicket(base) then w.raise(calls, a, base - PLANE) - PLANE
        else map[]
  }

  function Perform(w: World, opts: Opts, ctx0: Ctx, calls: seq<Call>, a: Action, p: Option<Plane>): (r: Result)
    ensures r.stop <==> a.kind == Stop
  {
    var raised := Raised(w, opts, ctx0, calls, a);
    var asked := Ask(opts, a, Context(ctx0, calls, p) + raised);
    if Withheld(opts, a) then Result(true, Would(asked), false, map[], asked, map[])
    else if a.kind == Stop then Result(true, "stop — first match wins", true, map[], asked, map[])
    else
      var answer := w.answer(calls, a, asked, Base(ctx0, calls) - PLANE);
      Result(answer.ok, answer.detail, false, answer.about, asked, raised + answer.puts)
  }

  /**
   What comes of an action: withheld by a dry run, nothing but the report of what it would do; a stop, the
   halt; else the world's answer to what it asked. An escalation changes the ticket before it notifies.
   */
  lemma {:induction false} PerformedByType(w: World, opts: Opts, ctx0: Ctx, calls: seq<Call>, a: Action,
                                           p: Option<Plane>)
    ensures var r, base, ctx := Perform(w, opts, ctx0, calls, a, p), Base(ctx0, calls), Context(ctx0, calls, p);
            if Withheld(opts, a) then
              && r.asked == Ask(opts, a, ctx) && r.ok && !r.stop && r.puts == map[]
              && r.detail == "(dry-run) would "
                             + (if r.asked.texts == [] || r.asked.texts[0] == [] then ""
                                else if |r.asked.texts[0][0]| <= 60 then r.asked.texts[0][0]
                                else r.asked.texts[0][0][..60])
            else if a.kind == Stop then
              r.asked == Ask(opts, a, ctx) && r.ok && r.stop && r.puts == map[] && r.detail == "stop — first match wins"
            else
              var raised := if a.kind == Escalate && HasTicket(base) then w.raise(calls, a, base - PLANE) - PLANE
                  else map[];
              var answer := w.answer(calls, a, Ask(opts, a, ctx + raised), base - PLANE);
              && r.asked == Ask(opts, a, ctx + raised) && !r.stop
              && r.ok == answer.ok && r.detail == answer.detail && r.puts == raised + answer.puts
  {
    hide Base, Context, Ask, Withheld, HasTicket;
    assert Context(ctx0, calls, p) + map[] == Context(ctx0, calls, p);
  }

  /** One world and one context at the start of a run, as the engine meets them. */
  function EnvOf(w: World, opts: Opts, ctx0: Ctx): Env {
    Env((calls, all, conditions, p) => Judged(w, all, conditions, Context(ctx0, calls, p)),
        (calls, a, p) => Perform(w, opts, ctx0, calls, a, p),
        (calls, n, inputs, plane) => w.run(calls, n, inputs, Context(ctx0, calls, Some(plane))))
  }

  // ── contexts that agree ────────────────────────────────────────────────────

  /** They differ only in what a graph run sets. */
  ghost predicate Agree(c: Ctx, d: Ctx, branch: bool) {
    && (forall key :: key !in PLANE ==> SameAt(c, d, key))
    && (forall key :: !IsStepKey(key, branch) ==> SameAt(Fields(ValueAt(c, "steps")), Fields(ValueAt(d, "steps")), key))
  }

  ghost predicate StepKeysOnly(p: Option<Plane>, branch: bool) {
    p.Some? ==> forall id :: id in p.value.steps ==> IsStepKey(id, branch)
  }

  lemma {:induction false} BasesAgree(c: Ctx, d: Ctx, calls: seq<Call>, branch: bool)
    requires Agree(c, d, branch)
    ensures Agree(Base(c, calls), Base(d, calls), branch)
    ensures ValueAt(Base(c, calls), "steps") == ValueAt(c, "steps")
  {
    if calls != [] {
      BasesAgree(c, d, calls[..|calls| - 1], branch);
      if calls[|calls| - 1].Ran? {
        PutsOffPlane(calls[|calls| - 1].out.results);
      }
    }
  }

  lemma {:induction false} PutsOffPlane(results: seq<Result>)
    ensures PutsOf(results).Keys !! PLANE
  {
    if results != [] {
      PutsOffPlane(results[..|results| - 1]);
    }
  }

  lemma {:induction false} AgreeTurned(c: Ctx, d: Ctx, branch: bool)
    requires Agree(c, d, branch)
    ensures Agree(d, c, branch)
  {
  }

  lemma {:induction false} ContextAgrees(c: Ctx, calls: seq<Call>, p: Option<Plane>, branch: bool)
    requires StepKeysOnly(p, branch)
    ensures Agree(Base(c, calls), Context(c, calls, p), branch)
  {
    BasesAgree(c, c, calls, branch);
  }

  lemma {:induction false} AgreeOn(c: Ctx, d: Ctx, e: Ctx, branch: bool)
    requires Agree(c, d, branch) && Agree(d, e, branch)
    ensures Agree(c, e, branch)
  {
    forall key | !IsStepKey(key, branch) ensures SameAt(Fields(ValueAt(c, "steps")), Fields(ValueAt(e, "steps")), key) {
      assert SameAt(Fields(ValueAt(c, "steps")), Fields(ValueAt(d, "steps")), key);
    }
    forall key | key !in PLANE ensures SameAt(c, e, key) {
      assert SameAt(c, d, key);
    }
  }

  lemma {:induction false} ContextsAgree(c: Ctx, d: Ctx, calls: seq<Call>, p: Option<Plane>, q: Option<Plane>,
                                         branch: bool)
    requires Agree(c, d, branch) && StepKeysOnly(p, branch) && StepKeysOnly(q, branch)
    ensures Agree(Context(c, calls, p), Context(d, calls, q), branch)
  {
    hide *;
    BasesAgree(c, d, calls, branch);
    ContextAgrees(c, calls, p, branch);
    ContextAgrees(d, calls, q, branch);
    AgreeTurned(Base(c, calls), Context(c, calls, p), branch);
    AgreeOn(Context(c, calls, p), Base(c, calls), Base(d, calls), branch);
    AgreeOn(Context(c, calls, p), Base(d, calls), Context(d, calls, q), branch);
  }

  lemma {:induction false} PlaneIsOnPlane(path: string, branch: bool)
    requires path in PLANE
    ensures OnPlane(path, branch)
  {
    NoDots(path);
  }

  lemma {:induction false} ResolveAlike(c: Ctx, d: Ctx, path: string, branch: bool)
    requires Agree(c, d, branch) && !OnPlane(path, branch)
    ensures Resolve(c, path) == Resolve(d, path)
  {
    if path in PLANE {
      PlaneIsOnPlane(path, branch);
    }
    assert SameAt(c, d, path);
    var keys := Keys(path);
    if keys[0] == "steps" {
      assert SameAt(Fields(ValueAt(c, "steps")), Fields(ValueAt(d, "steps")), keys[1]);
      StepsGet(c, keys);
      StepsGet(d, keys);
    } else {
      assert SameAt(c, d, keys[0]);
    }
  }

  lemma {:induction false} StepsGet(c: Ctx, keys: seq<string>)
    requires |keys| > 1 && keys[0] == "steps"
    ensures Get(Object(c), keys)
            == var steps := Fields(ValueAt(c, "steps"));
               if keys[1] in steps then Get(steps[keys[1]], keys[2..]) else Nothing
  {
    assert keys[1..][0] == keys[1] && keys[1..][1..] == keys[2..];
  }

  lemma {:induction false} RenderAlike(c: Ctx, d: Ctx, t: string, branch: bool)
    requires Agree(c, d, branch) && !Reads(t, branch)
    ensures Render(t, c) == Render(t, d)
  {
    hide Agree, OnPlane, Resolve;
    forall p | p in Parts(t) ensures Rendered(p, c) == Rendered(p, d) {
      if p.Token? {
        ResolveAlike(c, d, p.path, branch);
      }
    }
    RenderedAlike(Parts(t), c, d);
  }

  lemma {:induction false} NeverFills(t: string, ctx: Ctx)
    requires !MayFill(t)
    ensures Blank(Render(t, ctx))
  {
    RenderedBlank(Parts(t), ctx);
  }

  // ── URLs ───────────────────────────────────────────────────────────────────

  lemma {:induction false} TrimConcat(s: string, t: string)
    ensures TrimStart(s) != "" ==> TrimStart(s + t) == TrimStart(s) + t
    ensures TrimStart(s) == "" ==> TrimStart(s + t) == TrimStart(t)
  {
    if s == "" {
      assert s + t == t;
    } else if IsSpace(s[0]) {
      assert (s + t)[1..] == s[1..] + t;
      TrimConcat(s[1..], t);
    }
  }

  /** What follows the leading characters. */
  function Trailer(parts: seq<Part>): (rest: seq<Part>)
    ensures rest != [] ==> rest[0].Token?
    ensures forall p :: p in rest ==> p in parts
    ensures rest == [] ==> forall p :: p in parts ==> p.Literal?
  {
    if parts == [] || parts[0].Token? then parts else Trailer(parts[1..])
  }

  lemma {:induction false} LeadingFirst(parts: seq<Part>, ctx: Ctx)
    ensures RenderParts(parts, ctx) == Leading(parts) + RenderParts(Trailer(parts), ctx)
  {
    if parts != [] && parts[0].Literal? {
      LeadingFirst(parts[1..], ctx);
    }
  }

  lemma {:induction false} BeginsOrStarts(start: string, more: string, url: string)
    requires Begins(start + more, url)
    ensures Begins(start, url) || Starts(start, url)
  {
    if |start| >= |url| {
      assert (start + more)[..|url|] == start[..|url|];
    } else {
      var all := Lower((start + more)[..|url|]);
      forall i | 0 <= i < |start| ensures Lower(start)[i] == url[i] {
        assert all[i] == url[i] && (start + more)[..|url|][i] == start[i];
      }
      assert Lower(start) == url[..|start|];
    }
  }

  lemma {:induction false} NeverUrl(t: string, ctx: Ctx)
    requires !MayBeUrl(t)
    ensures !IsUrl(TrimStart(Render(t, ctx)))
  {
    var parts := Parts(t);
    var lead, start, more := Leading(parts), TrimStart(Leading(parts)), RenderParts(Trailer(parts), ctx);
    LeadingFirst(parts, ctx);
    TrimConcat(lead, more);
    hide Begins, Parts, Leading, RenderParts, TrimStart;
    if !HasToken(t) {
      assert Trailer(parts) == [];
      assert more == "" by { NothingRenders(ctx); }
      assert lead + more == lead;
    } else {
      EmptyStarts(start);
      if Begins(start + more, "http://") {
        BeginsOrStarts(start, more, "http://");
      }
      if Begins(start + more, "https://") {
        BeginsOrStarts(start, more, "https://");
      }
    }
  }

  lemma {:induction false} NothingRenders(ctx: Ctx)
    ensures RenderParts([], ctx) == ""
  {
  }

  lemma {:induction false} EmptyStarts(start: string)
    ensures start == "" ==> Starts(start, "http://")
  {
  }

  // ── actions that see nothing of a graph run ────────────────────────────────

  lemma {:induction false} TextAlike(c: Ctx, d: Ctx, s: Script, j: nat, branch: bool)
    requires Agree(c, d, branch) && WellGuarded(s) && j < |s.steps|
    requires forall i :: 0 <= i < |s.steps| && Reads(s.steps[i].template, branch) ==>
               exists k :: 0 <= k < s.steps[i].needs && !MayFill(s.steps[k].template)
    ensures TextAt(s, c, j) == TextAt(s, d, j)
  {
    hide Agree, Reads, MayFill, Render;
    forall i | 0 <= i < s.steps[j].needs
      ensures Render(s.steps[i].template, c) == Render(s.steps[i].template, d)
    {
      RenderAlike(c, d, s.steps[i].template, branch);
    }
    if Reads(s.steps[j].template, branch) {
      var k :| 0 <= k < s.steps[j].needs && !MayFill(s.steps[k].template);
      NeverFills(s.steps[k].template, c);
      NeverFills(s.steps[k].template, d);
    } else {
      RenderAlike(c, d, s.steps[j].template, branch);
    }
  }

  lemma {:induction false} AskAlike(opts: Opts, a: Action, c: Ctx, d: Ctx, branch: bool)
    requires Agree(c, d, branch) && !Sees(opts, a, branch)
    ensures Ask(opts, a, c) == Ask(opts, a, d)
  {
    var s := ScriptOf(opts, a);
    assert SameAt(c, d, "ticketId");
    hide Agree, Reads, MayFill, Render, ScriptOf, WellGuarded, TextAt, IsUrl, MayBeUrl;
    forall j | 0 <= j < |s.steps| ensures TextAt(s, c, j) == TextAt(s, d, j) {
      TextAlike(c, d, s, j, branch);
    }
    assert TextsOf(s, c) == TextsOf(s, d);
    if s.whole.IfUrl? {
      NeverUrl(s.steps[0].template, c);
      NeverUrl(s.steps[0].template, d);
    }
  }

  lemma {:induction false} PerformAlike(w: World, opts: Opts, c: Ctx, d: Ctx, calls: seq<Call>, a: Action,
                                        p: Option<Plane>, q: Option<Plane>, branch: bool)
    requires Agree(c, d, branch) && StepKeysOnly(p, branch) && StepKeysOnly(q, branch) && !Sees(opts, a, branch)
    ensures Perform(w, opts, c, calls, a, p) == Perform(w, opts, d, calls, a, q)
  {
    hide Base, Context, Ask, Agree, Sees, StepKeysOnly, Raised, HasTicket, Withheld, Would;
    BasesAgree(c, d, calls, branch);
    SameRaised(w, opts, c, d, calls, a, branch);
    ContextsAgree(c, d, calls, p, q, branch);
    var raised := Raised(w, opts, c, calls, a);
    MoreAgree(Context(c, calls, p), Context(d, calls, q), raised, branch);
    AskAlike(opts, a, Context(c, calls, p) + raised, Context(d, calls, q) + raised, branch);
  }

  /** What the world is told of the context, and what it answers to an escalation, is the same. */
  lemma {:induction false} SameRaised(w: World, opts: Opts, c: Ctx, d: Ctx, calls: seq<Call>, a: Action, branch: bool)
    requires Agree(Base(c, calls), Base(d, calls), branch)
    ensures Base(c, calls) - PLANE == Base(d, calls) - PLANE
    ensures Raised(w, opts, c, calls, a) == Raised(w, opts, d, calls, a) && Raised(w, opts, c, calls, a).Keys !! PLANE
  {
    hide Base;
    assert SameAt(Base(c, calls), Base(d, calls), "ticketId");
    forall key | key !in PLANE ensures SameAt(Base(c, calls), Base(d, calls), key) {
    }
  }

  lemma {:induction false} MoreAgree(c: Ctx, d: Ctx, more: Ctx, branch: bool)
    requires Agree(c, d, branch) && more.Keys !! PLANE
    ensures Agree(c + more, d + more, branch)
  {
    forall key | key !in PLANE ensures SameAt(c + more, d + more, key) {
      assert SameAt(c, d, key);
    }
    assert ValueAt(c + more, "steps") == ValueAt(c, "steps") && ValueAt(d + more, "steps") == ValueAt(d, "steps");
  }

  // ── a rule that sees nothing of a graph run ────────────────────────────────

  /** Nothing before the k-th action stops. */
  predicate Runs(actions: seq<Action>, k: nat)
    requires k <= |actions|
  {
    forall i :: 0 <= i < k ==> actions[i].kind != Stop
  }

  /** No action that is reached sees a graph run. */
  predicate Unseeing(opts: Opts, actions: seq<Action>, k: nat, branch: bool)
    requires k <= |actions|
  {
    forall i :: 0 <= i < k && Runs(actions, i) ==> !Sees(opts, actions[i], branch)
  }

  /** What a rule can be asked before it is turned into a graph. */
  predicate Blind(opts: Opts, d: Draft) {
    || d.actions == []
    || ((forall c :: c in d.conditions ==> c.field !in PLANE) && Unseeing(opts, d.actions, |d.actions|, d.Lead() == 2))
  }

  type Planes = seq<Result> -> Option<Plane>

  ghost predicate StepKeyed(planes: Planes, branch: bool) {
    forall rs :: StepKeysOnly(planes(rs), branch)
  }

  /** One action more. */
  lemma {:induction false} OneMore(w: World, opts: Opts, ctx0: Ctx, actions: seq<Action>, planes: Planes, k: nat)
    requires k < |actions|
    ensures var env := EnvOf(w, opts, ctx0);
            var before := Performed(env, actions, planes, k);
            Performed(env, actions, planes, k + 1)
            == if Halted(before) then before
               else before + [Perform(w, opts, ctx0, Calls(actions, before), actions[k], planes(before))]
  {
    hide Perform, Calls;
  }

  lemma {:induction false} NonePerformed(env: Env, actions: seq<Action>, planes: Planes)
    ensures |Performed(env, actions, planes, 0)| == 0
  {
  }

  lemma {:induction false} HaltedAtStop(w: World, opts: Opts, ctx0: Ctx, actions: seq<Action>, planes: Planes, k: nat)
    requires k <= |actions|
    ensures Halted(Performed(EnvOf(w, opts, ctx0), actions, planes, k)) <==> !Runs(actions, k)
  {
    hide Perform, Calls;
    if k > 0 {
      HaltedAtStop(w, opts, ctx0, actions, planes, k - 1);
      assert Runs(actions, k) <==> Runs(actions, k - 1) && actions[k - 1].kind != Stop;
    }
  }

  lemma {:induction false} PerformedAlike(w: World, opts: Opts, c: Ctx, d: Ctx, actions: seq<Action>, p: Planes,
                                          q: Planes, k: nat, branch: bool)
    requires k <= |actions| && Agree(c, d, branch) && StepKeyed(p, branch) && StepKeyed(q, branch)
    requires Unseeing(opts, actions, k, branch)
    ensures Performed(EnvOf(w, opts, c), actions, p, k) == Performed(EnvOf(w, opts, d), actions, q, k)
  {
    hide Perform, Calls, Agree, Sees, Performed, EnvOf, StepKeysOnly, Runs, Halted;
    if k == 0 {
      NonePerformed(EnvOf(w, opts, c), actions, p);
      NonePerformed(EnvOf(w, opts, d), actions, q);
    } else {
      PerformedAlike(w, opts, c, d, actions, p, q, k - 1, branch);
      HaltedAtStop(w, opts, c, actions, p, k - 1);
      var before := Performed(EnvOf(w, opts, c), actions, p, k - 1);
      OneMore(w, opts, c, actions, p, k - 1);
      OneMore(w, opts, d, actions, q, k - 1);
      if !Halted(before) {
        PerformAlike(w, opts, c, d, Calls(actions, before), actions[k - 1], p(before), q(before), branch);
      }
    }
  }

  lemma {:induction false} ChainKeys(d: Draft, results: seq<Result>)
    ensures forall id :: id in StepsAfter(d, true, results) ==> IsStepKey(id, d.Lead() == 2)
    ensures "trigger" in StepsAfter(d, true, results) && (d.Lead() == 2 ==> "branch" in StepsAfter(d, true, results))
  {
    if results != [] {
      ChainKeys(d, results[..|results| - 1]);
      assert IsActionKey(ActionId(|results| - 1));
    }
  }

  lemma {:induction false} ChainIsStepKeyed(d: Draft)
    ensures StepKeyed(ChainPlane(d, true), d.Lead() == 2) && StepKeyed(NoPlane(), d.Lead() == 2)
  {
    forall rs ensures StepKeysOnly(ChainPlane(d, true)(rs), d.Lead() == 2) {
      ChainKeys(d, rs);
    }
  }

  lemma {:induction false} AgreesWithItself(c: Ctx, branch: bool)
    ensures Agree(c, c, branch)
  {
  }

  lemma {:induction false} HoldsIs(w: World, opts: Opts, ctx0: Ctx, d: Draft, p: Option<Plane>)
    ensures Holds(EnvOf(w, opts, ctx0), [], d.all, d.conditions, p)
            <==> d.conditions == [] || Judged(w, d.all, d.conditions, Context(ctx0, [], p))
  {
    hide Judged, Context;
  }

  /** Conditions that name nothing only a graph run sets do not either. */
  lemma {:induction false} JudgedAlike(w: World, opts: Opts, ctx0: Ctx, d: Draft)
    requires forall c :: c in d.conditions ==> c.field !in PLANE
    ensures Matches(EnvOf(w, opts, ctx0), d) <==> Holds(EnvOf(w, opts, ctx0), [], d.all, d.conditions, None)
  {
    var start := Plane(Seed, map["trigger" := TRIGGERED]);
    var g := Context(ctx0, [], Some(start));
    assert Context(ctx0, [], None) == ctx0;
    assert forall c :: c in d.conditions ==> ValueAt(ctx0, c.field) == ValueAt(g, c.field);
    assert Judged(w, d.all, d.conditions, ctx0) == Judged(w, d.all, d.conditions, g);
    HoldsIs(w, opts, ctx0, d, None);
    HoldsIs(w, opts, ctx0, d, Some(start));
    hide Judged, Context, EnvOf;
  }

  /** A rule that sees nothing of a graph run does the same as a graph and as a list. */
  lemma {:induction false} SameAsTheList(w: World, opts: Opts, ctx0: Ctx, d: Draft, order: seq<string>, sorted: nat)
    requires IsOrder(Derived(d), order, sorted) && Blind(opts, d)
    ensures Walk(EnvOf(w, opts, ctx0), Derived(d), order).results == StampAll(Linear(EnvOf(w, opts, ctx0), d))
  {
    var env, branch := EnvOf(w, opts, ctx0), d.Lead() == 2;
    DerivedMeansTheRule(env, d, order, sorted);
    assert StampAll([]) == [];
    hide IsOrder, Walk, Derived, EnvOf, Performed, StampAll, Matches, Holds, Unseeing;
    if d.actions == [] {
      NoActions(env, d);
    } else {
      JudgedAlike(w, opts, ctx0, d);
      ChainIsStepKeyed(d);
      AgreesWithItself(ctx0, branch);
      PerformedAlike(w, opts, ctx0, ctx0, d.actions, ChainPlane(d, true), NoPlane(), |d.actions|, branch);
    }
  }

  lemma {:induction false} NoActions(env: Env, d: Draft)
    requires d.actions == []
    ensures Performed(env, d.actions, ChainPlane(d, true), |d.actions|) == [] && Linear(env, d) == []
  {
  }
}
