/**
 What an action takes from the run's context (api/apps/api/src/automations.ts `runAction`,
 `dryRunSummary`; automations/registry.ts `dryRunSuppressed`): the templates it interpolates, in order
 and behind their guards, and the whole context where it hands that on.
 */
module Actions {
  import opened FlowGraph
  import opened Templates
  import opened Texts

  /** How a run was started: on an event with both off. */
  datatype Opts = Opts(dryRun: bool, awaitRun: bool)

  const EVENT := Opts(false, false)

  /** A template that is interpolated if the first `needs` ones came out not blank. */
  datatype Step = Step(template: string, needs: nat)

  datatype Whole = Never | Entire | IfUrl

  /** `ticket`: without a ticket in the context the action does nothing. */
  datatype Script = Script(ticket: bool, steps: seq<Step>, whole: Whole)

  /** A guard is itself unguarded. */
  predicate Orderly(steps: seq<Step>) {
    && (forall j :: 0 <= j < |steps| ==> steps[j].needs <= j)
    && (forall i, j :: 0 <= j < |steps| && 0 <= i < steps[j].needs ==> steps[i].needs == 0)
  }

  predicate WellGuarded(s: Script) {
    Orderly(s.steps) && (s.whole.IfUrl? ==> s.steps != [] && s.steps[0].needs == 0)
  }

  predicate WritesHttp(a: Action) {
    a.Text("method", "GET") != "GET" && a.Text("method", "GET") != "HEAD"
  }

  /** dryRunSuppressed. */
  predicate Suppressed(a: Action) {
    match a.kind
    case Stop => false
    case SetFields => false
    case WebFetch => false
    case BrowserExtract => false
    case Rag => false
    case Http => WritesHttp(a)
    case _ => true
  }

  predicate Withheld(opts: Opts, a: Action) {
    opts.dryRun && Suppressed(a)
  }

  function Unguarded(templates: seq<string>): (steps: seq<Step>)
    ensures |steps| == |templates| && Orderly(steps)
    ensures forall i :: 0 <= i < |steps| ==> steps[i] == Step(templates[i], 0)
  {
    seq(|templates|, i requires 0 <= i < |templates| => Step(templates[i], 0))
  }

  /** The others only if the first came out not blank. */
  function Behind(first: string, others: seq<string>): (steps: seq<Step>)
    ensures Orderly(steps)
  {
    [Step(first, 0)] + seq(|others|, i requires 0 <= i < |others| => Step(others[i], 1))
  }

  /** The last one only if the other two came out not blank. */
  function BehindBoth(first: string, second: string, last: string): (steps: seq<Step>)
    ensures Orderly(steps)
  {
    [Step(first, 0), Step(second, 0), Step(last, 2)]
  }

  /** A text that is only used when it is there. */
  function IfGiven(a: Action, field: string): seq<string> {
    if a.Has(field) then [a.Text(field, "")] else []
  }

  function LinesIfGiven(a: Action, field: string): seq<string> {
    if a.Has(field) then SplitLines(a.Text(field, "")) else []
  }

  /** The interpolations of a dry run's summary. */
  function Summary(a: Action): seq<string> {
    match a.kind
    case Reply => [a.Text("body", "")]
    case KbUpsert => [a.Text("kbTitle", "")]
    case ContactUpdate => [a.Text("contactEmail", "")]
    case BroadcastSend => [a.Text("broadcastSubject", "")]
    case RunCommand => [a.Text("cmd", "")]
    case Http => [a.Text("url", "")]
    case _ => []
  }

  /** runAction, one case for each type. */
  function Performing(a: Action): (s: Script)
    ensures WellGuarded(s)
  {
    match a.kind
    case Reply => Script(true, Unguarded([a.Text("body", "")]), Never)
    case Notify =>
      if !a.Has("integrationId") then Script(false, [], Never)
      else Script(false, Unguarded([a.Text("subject", "Automation"), a.Text("text", "")]), Entire)
    case RunCommand => Script(false, Unguarded([a.Text("cmd", "")]), Never)
    case Http =>
      var body := if WritesHttp(a) then [a.Text("httpBody", "")] else [];
      Script(false, Behind(a.Text("url", ""), SplitLines(a.Text("headers", "")) + body), Never)
    case SetFields => Script(false, Unguarded(SplitLines(a.Text("setFields", ""))), Never)
    case WebFetch => Script(false, Unguarded([a.Text("url", "")]), Never)
    case BrowserExtract => Script(false, Unguarded([a.Text("url", "")]), IfUrl)
    case KbUpsert => Script(false, Behind(a.Text("kbTitle", ""), [a.Text("kbBody", "")]), Never)
    case ContactUpdate =>
      var others := IfGiven(a, "contactName") + LinesIfGiven(a, "contactFields");
      Script(false, Behind(a.Text("contactEmail", ""), others), Never)
    case BroadcastSend =>
      var subject, body := a.Text("broadcastSubject", ""), a.Text("broadcastBody", "");
      var segment := a.Text("broadcastSegment", "");
      Script(false, if Blank(segment) then Unguarded([subject, body]) else BehindBoth(subject, body, segment), Never)
    case Escalate =>
      if !a.Has("integrationId") then Script(true, [], Never)
      else
        var text := "Ticket escalated to " + a.Text("priority", "urgent") + ".";
        Script(true, Unguarded([a.Text("subject", "Ticket escalated"), a.Text("text", text)]), Entire)
    case Survey =>
      var key := a.Text("dedupeKey", "");
      Script(true, if Blank(key) then [] else Unguarded([key]), Never)
    case SetStatus => Script(true, [], Never)
    case Assign => Script(true, [], Never)
    case Rag => Script(true, [], Never)
    case SetPriority => Script(true, [], Never)
    case AddTags => Script(true, [], Never)
    case ApplyTagRules => Script(true, [], Never)
    case AiTag => Script(true, [], Never)
    case Stop => Script(false, [], Never)
    case Unknown => Script(false, [], Never)
  }

  function ScriptOf(opts: Opts, a: Action): (s: Script)
    ensures WellGuarded(s)
  {
    if Withheld(opts, a) then Script(false, Unguarded(Summary(a)), Never) else Performing(a)
  }

  // ── what is asked ──────────────────────────────────────────────────────────

  /** /^https?:\/\//i */
  predicate IsUrl(s: string) {
    Begins(s, "http://") || Begins(s, "https://")
  }

  predicate Begins(s: string, start: string) {
    |start| <= |s| && Lower(s[..|start|]) == start
  }

  function LowerChar(c: char): char {
    if 'A' <= c <= 'Z' then (c as int + 32) as char else c
  }

  function Lower(s: string): (t: string)
    ensures |t| == |s| && forall i :: 0 <= i < |s| ==> t[i] == LowerChar(s[i])
  {
    seq(|s|, i requires 0 <= i < |s| => LowerChar(s[i]))
  }

  predicate HasTicket(ctx: Ctx) {
    Show(ValueAt(ctx, "ticketId")) != ""
  }

  /**
   What an action asked of the world: the texts it interpolated, none where a guard failed; the context
   if it handed the whole of it on; and what the run's options made of it.
   */
  datatype Asked = Asked(texts: seq<seq<string>>, whole: seq<Ctx>, withheld: bool, awaits: bool, replies: bool)

  predicate Passes(s: Script, ctx: Ctx, j: nat)
    requires WellGuarded(s) && j < |s.steps|
  {
    forall i :: 0 <= i < s.steps[j].needs ==> !Blank(Render(s.steps[i].template, ctx))
  }

  function TextAt(s: Script, ctx: Ctx, j: nat): seq<string>
    requires WellGuarded(s) && j < |s.steps|
  {
    if Passes(s, ctx, j) then [Render(s.steps[j].template, ctx)] else []
  }

  function TextsOf(s: Script, ctx: Ctx): (texts: seq<seq<string>>)
    requires WellGuarded(s)
    ensures |texts| == |s.steps| && forall j :: 0 <= j < |texts| ==> texts[j] == TextAt(s, ctx, j)
  {
    seq(|s.steps|, j requires 0 <= j < |s.steps| => TextAt(s, ctx, j))
  }

  function HandsOn(s: Script, ctx: Ctx): seq<Ctx>
    requires WellGuarded(s)
  {
    match s.whole
    case Never => []
    case Entire => [ctx]
    case IfUrl => if IsUrl(TrimStart(Render(s.steps[0].template, ctx))) then [ctx] else []
  }

  function Ask(opts: Opts, a: Action, ctx: Ctx): Asked {
    var s, ready := ScriptOf(opts, a), HasTicket(ctx);
    if s.ticket && !ready then Asked([], [], false, false, false)
    else
      var withheld := Withheld(opts, a);
      Asked(TextsOf(s, ctx), HandsOn(s, ctx), withheld, !withheld && a.kind == RunCommand && opts.awaitRun,
            a.kind == Rag && a.autoReply && !opts.dryRun)
  }

  /** A dry run withholds what would change something: all types but the reads, a stop, a drafted answer and
      an http request that only gets. */
  lemma {:induction false} WithheldByType(opts: Opts, a: Action)
    ensures Withheld(opts, a)
            <==> opts.dryRun
                 && (a.kind in {Reply, SetStatus, Assign, Notify, RunCommand, KbUpsert, ContactUpdate, BroadcastSend,
                                SetPriority, AddTags, ApplyTagRules, AiTag, Survey, Escalate, Unknown}
                     || (a.kind == Http && a.Text("method", "GET") !in {"GET", "HEAD"}))
  {
  }

  ghost predicate IsAsked(opts: Opts, a: Action, ctx: Ctx, texts: seq<seq<string>>, whole: seq<Ctx>) {
    Ask(opts, a, ctx).texts == texts && Ask(opts, a, ctx).whole == whole
  }

  /** Nothing is rendered, and no context handed on. */
  ghost predicate AsksNothing(opts: Opts, a: Action, ctx: Ctx) {
    IsAsked(opts, a, ctx, [], [])
  }

  lemma {:induction false} OneText(s: Script, ctx: Ctx, t: string)
    requires WellGuarded(s) && s.steps == [Step(t, 0)]
    ensures TextsOf(s, ctx) == [[Render(t, ctx)]]
  {
    assert TextAt(s, ctx, 0) == [Render(t, ctx)];
  }

  lemma {:induction false} TwoTexts(s: Script, ctx: Ctx, t: string, u: string, needs: nat)
    requires WellGuarded(s) && needs <= 1 && s.steps == [Step(t, 0), Step(u, needs)]
    ensures TextsOf(s, ctx) == [[Render(t, ctx)], if needs == 1 && Blank(Render(t, ctx)) then [] else [Render(u, ctx)]]
  {
    hide Render, Blank;
    assert TextAt(s, ctx, 0) == [Render(t, ctx)];
  }

  /** What the types that work on a ticket ask: nothing without one; a reply its body, an escalation its
      notice and the whole context if it has an integration, a survey its key if it has one. */
  lemma {:induction false} TicketTypesAsk(opts: Opts, a: Action, ctx: Ctx)
    requires !Withheld(opts, a)
    requires a.kind in {Reply, Escalate, Survey, SetStatus, Assign, Rag, SetPriority, AddTags, ApplyTagRules, AiTag}
    ensures !HasTicket(ctx) ==> AsksNothing(opts, a, ctx)
    ensures HasTicket(ctx) && a.kind == Reply ==> IsAsked(opts, a, ctx, [[Render(a.Text("body", ""), ctx)]], [])
    ensures HasTicket(ctx) && a.kind == Escalate ==>
              var text := "Ticket escalated to " + a.Text("priority", "urgent") + ".";
              if a.Text("integrationId", "") == "" then AsksNothing(opts, a, ctx)
              else IsAsked(opts, a, ctx, [[Render(a.Text("subject", "Ticket escalated"), ctx)],
                                          [Render(a.Text("text", text), ctx)]], [ctx])
    ensures HasTicket(ctx) && a.kind == Survey ==>
              var key := a.Text("dedupeKey", "");
              if Blank(key) then AsksNothing(opts, a, ctx) else IsAsked(opts, a, ctx, [[Render(key, ctx)]], [])
    ensures HasTicket(ctx) && a.kind !in {Reply, Escalate, Survey} ==> AsksNothing(opts, a, ctx)
    ensures Ask(opts, a, ctx).replies <==> HasTicket(ctx) && a.kind == Rag && a.autoReply && !opts.dryRun
  {
    var s := ScriptOf(opts, a);
    hide Render, Blank, HasTicket;
    if |s.steps| == 1 {
      OneText(s, ctx, s.steps[0].template);
    } else if |s.steps| == 2 {
      TwoTexts(s, ctx, s.steps[0].template, s.steps[1].template, 0);
    }
  }

  /** What the types that need no ticket ask, but for those that render line by line. */
  lemma {:induction false} FreeTypesAsk(opts: Opts, a: Action, ctx: Ctx)
    requires !Withheld(opts, a)
    ensures a.kind == Notify ==>
              if a.Text("integrationId", "") == "" then AsksNothing(opts, a, ctx)
              else IsAsked(opts, a, ctx, [[Render(a.Text("subject", "Automation"), ctx)],
                                          [Render(a.Text("text", ""), ctx)]], [ctx])
    ensures a.kind == RunCommand ==> IsAsked(opts, a, ctx, [[Render(a.Text("cmd", ""), ctx)]], [])
    ensures a.kind == WebFetch ==> IsAsked(opts, a, ctx, [[Render(a.Text("url", ""), ctx)]], [])
    ensures a.kind == BrowserExtract ==>
              var url := Render(a.Text("url", ""), ctx);
              IsAsked(opts, a, ctx, [[url]], if IsUrl(TrimStart(url)) then [ctx] else [])
    ensures a.kind == KbUpsert ==>
              var title, body := Render(a.Text("kbTitle", ""), ctx), Render(a.Text("kbBody", ""), ctx);
              IsAsked(opts, a, ctx, [[title], if Blank(title) then [] else [body]], [])
    ensures a.kind in {Stop, Unknown} ==> AsksNothing(opts, a, ctx)
    ensures Ask(opts, a, ctx).awaits <==> a.kind == RunCommand && opts.awaitRun
  {
    var s := ScriptOf(opts, a);
    hide Render, Blank, HasTicket, IsUrl, TrimStart;
    if |s.steps| == 1 {
      OneText(s, ctx, s.steps[0].template);
    } else if a.kind == Notify && |s.steps| == 2 {
      TwoTexts(s, ctx, s.steps[0].template, s.steps[1].template, 0);
    } else if a.kind == KbUpsert {
      TwoTexts(s, ctx, s.steps[0].template, s.steps[1].template, 1);
    }
  }

  /** Every one of these templates is rendered if `go`, and none of them otherwise. */
  ghost predicate RendersAll(texts: seq<seq<string>>, templates: seq<string>, go: bool, ctx: Ctx) {
    |texts| == |templates|
    && forall i :: 0 <= i < |texts| ==> texts[i] == if go then [Render(templates[i], ctx)] else []
  }

  lemma {:induction false} TextsBehind(s: Script, ctx: Ctx, first: string, others: seq<string>)
    requires WellGuarded(s) && s.steps == Behind(first, others)
    ensures TextsOf(s, ctx)[..1] == [[Render(first, ctx)]]
    ensures RendersAll(TextsOf(s, ctx)[1..], others, !Blank(Render(first, ctx)), ctx)
  {
    hide Render, Blank;
    assert TextAt(s, ctx, 0) == [Render(first, ctx)];
    forall i | 0 <= i < |others|
      ensures TextAt(s, ctx, 1 + i) == if Blank(Render(first, ctx)) then [] else [Render(others[i], ctx)]
    {
      assert s.steps[1 + i] == Step(others[i], 1);
    }
  }

  /** An http request renders its URL, and if that is not blank its header lines and, unless it only gets,
      its body; a contact its e-mail, and if that is not blank its name and the lines of its fields. */
  lemma {:induction false} LineTypesAsk(opts: Opts, a: Action, ctx: Ctx)
    requires !Withheld(opts, a) && a.kind in {Http, ContactUpdate}
    ensures var first := if a.kind == Http then "url" else "contactEmail";
            var body := if a.Text("method", "GET") in {"GET", "HEAD"} then [] else [a.Text("httpBody", "")];
            var name, fields := a.Text("contactName", ""), a.Text("contactFields", "");
            var others := if a.kind == Http then SplitLines(a.Text("headers", "")) + body
                          else (if name == "" then [] else [name]) + (if fields == "" then [] else SplitLines(fields));
            var q, rendered := Ask(opts, a, ctx), Render(a.Text(first, ""), ctx);
            && q.whole == [] && |q.texts| >= 1 && q.texts[0] == [rendered]
            && RendersAll(q.texts[1..], others, !Blank(rendered), ctx)
  {
    var s := ScriptOf(opts, a);
    hide Render, Blank, HasTicket, SplitLines, RendersAll;
    if a.kind == Http {
      var body := if WritesHttp(a) then [a.Text("httpBody", "")] else [];
      TextsBehind(s, ctx, a.Text("url", ""), SplitLines(a.Text("headers", "")) + body);
    } else {
      TextsBehind(s, ctx, a.Text("contactEmail", ""), IfGiven(a, "contactName") + LinesIfGiven(a, "contactFields"));
    }
    assert TextsOf(s, ctx)[..1][0] == TextsOf(s, ctx)[0];
  }

  /** Fields to set are rendered line by line. */
  lemma {:induction false} SetFieldsAsk(opts: Opts, a: Action, ctx: Ctx)
    requires a.kind == SetFields
    ensures Ask(opts, a, ctx).whole == []
    ensures RendersAll(Ask(opts, a, ctx).texts, SplitLines(a.Text("setFields", "")), true, ctx)
  {
    var s := ScriptOf(opts, a);
    hide Render, Blank, HasTicket, SplitLines;
    forall i | 0 <= i < |s.steps| ensures TextAt(s, ctx, i) == [Render(s.steps[i].template, ctx)] {
    }
  }

  /** A broadcast's subject and body are rendered always, and its segment if it has one and neither came
      out blank. */
  lemma {:induction false} BroadcastsAsk(opts: Opts, a: Action, ctx: Ctx)
    requires !Withheld(opts, a) && a.kind == BroadcastSend
    ensures var subject, body := Render(a.Text("broadcastSubject", ""), ctx), Render(a.Text("broadcastBody", ""), ctx);
            var segment := a.Text("broadcastSegment", "");
            IsAsked(opts, a, ctx, [[subject], [body]]
                                  + if Blank(segment) then []
                                    else [if Blank(subject) || Blank(body) then [] else [Render(segment, ctx)]], [])
  {
    var s := ScriptOf(opts, a);
    hide Render, Blank, HasTicket;
    if Blank(a.Text("broadcastSegment", "")) {
      TwoTexts(s, ctx, s.steps[0].template, s.steps[1].template, 0);
    } else {
      ThreeTexts(s, ctx);
    }
  }

  lemma {:induction false} ThreeTexts(s: Script, ctx: Ctx)
    requires WellGuarded(s) && |s.steps| == 3 && s.steps[0].needs == s.steps[1].needs == 0 && s.steps[2].needs == 2
    ensures var first, second := Render(s.steps[0].template, ctx), Render(s.steps[1].template, ctx);
            TextsOf(s, ctx)
            == [[first], [second], if Blank(first) || Blank(second) then [] else [Render(s.steps[2].template, ctx)]]
  {
    hide Render, Blank;
    assert TextAt(s, ctx, 0) == [Render(s.steps[0].template, ctx)];
    assert TextAt(s, ctx, 1) == [Render(s.steps[1].template, ctx)];
    var first, second := Render(s.steps[0].template, ctx), Render(s.steps[1].template, ctx);
    assert Passes(s, ctx, 2) <==> !Blank(first) && !Blank(second);
  }

  /** What is withheld is only described: by the one text its summary shows, if it shows any. */
  lemma {:induction false} WithheldAsks(opts: Opts, a: Action, ctx: Ctx)
    requires Withheld(opts, a)
    ensures var q := Ask(opts, a, ctx);
            && q.withheld && q.whole == [] && !q.awaits && !q.replies
            && q.texts == (match a.kind
                           case Reply => [[Render(a.Text("body", ""), ctx)]]
                           case KbUpsert => [[Render(a.Text("kbTitle", ""), ctx)]]
                           case ContactUpdate => [[Render(a.Text("contactEmail", ""), ctx)]]
                           case BroadcastSend => [[Render(a.Text("broadcastSubject", ""), ctx)]]
                           case RunCommand => [[Render(a.Text("cmd", ""), ctx)]]
                           case Http => [[Render(a.Text("url", ""), ctx)]]
                           case _ => [])
  {
    var s := ScriptOf(opts, a);
    hide Render;
    if |s.steps| == 1 {
      OneText(s, ctx, s.steps[0].template);
    }
  }

  // ── what it can see of a graph run ─────────────────────────────────────────

  /** The keys a graph run sets in the context. */
  const PLANE: set<string> := {"text", "json", "item", "steps"}

  predicate IsActionKey(key: string) {
    |key| >= 7 && key[..7] == "action-"
  }

  /** Keys of `steps` that a derived graph's run sets. */
  predicate IsStepKey(key: string, branch: bool) {
    key == "trigger" || (branch && key == "branch") || IsActionKey(key)
  }

  predicate OnPlane(path: string, branch: bool) {
    var keys := Keys(path);
    || keys[0] in {"text", "json", "item"}
    || path == "steps"
    || (keys[0] == "steps" && |keys| > 1 && IsStepKey(keys[1], branch))
  }

  /** The template names what only a graph run sets. */
  predicate Reads(t: string, branch: bool) {
    exists p :: p in Parts(t) && p.Token? && OnPlane(p.path, branch)
  }

  /** It may come out not blank. */
  predicate MayFill(t: string) {
    exists p :: p in Parts(t) && (p.Token? || !IsSpace(p.c))
  }

  /** The characters before the first token. */
  function Leading(parts: seq<Part>): (s: string) {
    if parts == [] || parts[0].Token? then "" else [parts[0].c] + Leading(parts[1..])
  }

  predicate HasToken(t: string) {
    exists p :: p in Parts(t) && p.Token?
  }

  /** It may come out as a URL: it begins like one, or with the start of one and a token later. */
  predicate MayBeUrl(t: string) {
    var start := TrimStart(Leading(Parts(t)));
    IsUrl(start) || (HasToken(t) && (Starts(start, "http://") || Starts(start, "https://")))
  }

  predicate Starts(start: string, url: string) {
    |start| < |url| && Lower(start) == url[..|start|]
  }

  /**
   The action can see whether it is performed in a graph: it hands the whole context on, or interpolates
   a template that names what a graph run sets and is not behind a guard that never passes.
   */
  predicate Sees(opts: Opts, a: Action, branch: bool) {
    var s := ScriptOf(opts, a);
    || s.whole.Entire? || (s.whole.IfUrl? && MayBeUrl(s.steps[0].template))
    || exists j :: 0 <= j < |s.steps| && Reads(s.steps[j].template, branch)
                   && forall i :: 0 <= i < s.steps[j].needs ==> MayFill(s.steps[i].template)
  }
}
