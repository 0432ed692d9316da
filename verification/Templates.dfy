/**
 The context of a run and the templates read from it (api/apps/api/src/automations/conditions.ts).
 */
module Templates {
  import opened Options
  import opened Texts

  type Ctx = map<string, Value>

  /** A JavaScript value: null or undefined, or anything else with the text String() makes of it and
      its properties. */
  datatype Value = Nothing | Thing(shown: string, fields: Ctx)

  function Show(v: Value): string {
    if v.Thing? then v.shown else ""
  }

  function TextValue(text: string): Value {
    Thing(text, map[])
  }

  /** An object the engine makes. */
  function Object(fields: Ctx): Value {
    Thing("[object Object]", fields)
  }

  function ValueAt(ctx: Ctx, key: string): Value {
    if key in ctx then ctx[key] else Nothing
  }

  // ── characters ─────────────────────────────────────────────────────────────

  /** A character of a path: [a-zA-Z0-9_.]. */
  predicate PathChar(c: char) {
    'a' <= c <= 'z' || 'A' <= c <= 'Z' || '0' <= c <= '9' || c == '_' || c == '.'
  }

  function PathLength(s: string): (n: nat)
    ensures n <= |s| && forall i :: 0 <= i < n ==> PathChar(s[i])
    ensures n < |s| ==> !PathChar(s[n])
  {
    if s != "" && PathChar(s[0]) then 1 + PathLength(s[1..]) else 0
  }

  // ── templates ──────────────────────────────────────────────────────────────

  datatype Part = Literal(c: char) | Token(path: string)

  /** A {{ path }} that a text begins with, and the text after it. */
  function TokenAt(t: string): (m: Option<(string, string)>)
    ensures m.Some? ==> |m.value.1| < |t| && m.value.0 != "" && forall c :: c in m.value.0 ==> PathChar(c)
  {
    if |t| < 2 || t[..2] != "{{" then None
    else
      var inner := TrimStart(t[2..]);
      var n := PathLength(inner);
      var rest := TrimStart(inner[n..]);
      if n > 0 && |rest| >= 2 && rest[..2] == "}}" then Some((inner[..n], rest[2..])) else None
  }

  /** The template cut into its tokens, leftmost first, and the characters between them. */
  function Parts(t: string): (parts: seq<Part>)
    ensures forall p :: p in parts && p.Token? ==> forall c :: c in p.path ==> PathChar(c)
    decreases |t|
  {
    if t == "" then []
    else
      match TokenAt(t)
      case Some((path, rest)) => [Token(path)] + Parts(rest)
      case None => [Literal(t[0])] + Parts(t[1..])
  }

  /** The path at its dots. */
  function Keys(path: string): (keys: seq<string>)
    ensures keys != [] && (forall key, c :: key in keys && c in key ==> c in path && c != '.')
    ensures |keys| == 1 ==> keys[0] == path
  {
    if path == "" then [""]
    else
      var rest := Keys(path[1..]);
      if path[0] == '.' then [""] + rest else [[path[0]] + rest[0]] + rest[1..]
  }

  lemma {:induction false} FirstKey(key: string, path: string)
    requires '.' !in key
    ensures Keys(key + "." + path) == [key] + Keys(path)
  {
    if key == "" {
      assert (key + "." + path)[0] == '.' && (key + "." + path)[1..] == path;
    } else {
      var more := Keys(key[1..] + "." + path);
      assert key[0] in key && (key + "." + path)[1..] == key[1..] + "." + path;
      FirstKey(key[1..], path);
      assert more[0] == key[1..] && more[1..] == Keys(path);
      assert [key[0]] + key[1..] == key;
    }
  }

  lemma {:induction false} NoDots(path: string)
    requires '.' !in path
    ensures Keys(path) == [path]
  {
    if path != "" {
      NoDots(path[1..]);
    }
  }

  function Get(v: Value, keys: seq<string>): Value {
    if keys == [] then v
    else if v.Thing? && keys[0] in v.fields then Get(v.fields[keys[0]], keys[1..])
    else Nothing
  }

  /** resolvePath: the whole path as one key first. */
  function Resolve(ctx: Ctx, path: string): Value {
    if path in ctx then ctx[path] else Get(Object(ctx), Keys(path))
  }

  function Rendered(part: Part, ctx: Ctx): string {
    match part
    case Literal(c) => [c]
    case Token(path) => Show(Resolve(ctx, path))
  }

  function RenderParts(parts: seq<Part>, ctx: Ctx): string {
    if parts == [] then "" else Rendered(parts[0], ctx) + RenderParts(parts[1..], ctx)
  }

  /** interpolate. */
  function Render(t: string, ctx: Ctx): string {
    RenderParts(Parts(t), ctx)
  }

  /** A text without {{ is its own rendering. */
  lemma {:induction false} PlainText(t: string, ctx: Ctx)
    requires forall i :: 0 <= i < |t| - 1 && t[i] == '{' ==> t[i + 1] != '{'
    ensures Render(t, ctx) == t
    decreases |t|
  {
    if t != "" {
      assert |t| >= 2 ==> t[..2][0] == t[0] && t[..2][1] == t[0 + 1];
      forall i | 0 <= i < |t[1..]| - 1 && t[1..][i] == '{' ensures t[1..][i + 1] != '{' {
        assert t[i + 1] == '{' && t[i + 1 + 1] == t[1..][i + 1];
      }
      PlainText(t[1..], ctx);
      OneLiteral(t[0], Parts(t[1..]), ctx);
    }
  }

  lemma {:induction false} OneLiteral(c: char, parts: seq<Part>, ctx: Ctx)
    ensures RenderParts([Literal(c)] + parts, ctx) == [c] + RenderParts(parts, ctx)
  {
    assert ([Literal(c)] + parts)[1..] == parts;
  }

  /** A path in braces, with white space around it or not, stands for its value. */
  lemma {:induction false} OneToken(before: string, path: string, after: string, rest: string, ctx: Ctx)
    requires path != "" && (forall c :: c in path ==> PathChar(c)) && Blank(before) && Blank(after)
    ensures Render("{{" + before + path + after + "}}" + rest, ctx) == Show(Resolve(ctx, path)) + Render(rest, ctx)
  {
    TokenFirst(before, path, after, rest);
    hide Parts, Resolve;
    assert ([Token(path)] + Parts(rest))[1..] == Parts(rest);
  }

  lemma {:induction false} TokenFirst(before: string, path: string, after: string, rest: string)
    requires path != "" && (forall c :: c in path ==> PathChar(c)) && Blank(before) && Blank(after)
    ensures Parts("{{" + before + path + after + "}}" + rest) == [Token(path)] + Parts(rest)
  {
    var t := "{{" + before + path + after + "}}" + rest;
    assert t[..2] == "{{" && t[2..] == before + (path + (after + ("}}" + rest)));
    PathsAreNotBlank(path);
    assert after != "" ==> after[0] in after;
    TrimBlank(before, path + (after + ("}}" + rest)));
    PathTaken(path, after + ("}}" + rest));
    TrimBlank(after, "}}" + rest);
    Halves(path, after + ("}}" + rest));
    assert ("}}" + rest)[..2] == "}}" && ("}}" + rest)[2..] == rest;
    assert TokenAt(t) == Some((path, rest));
  }

  lemma {:induction false} Halves(s: string, t: string)
    ensures (s + t)[..|s|] == s && (s + t)[|s|..] == t
  {
  }

  lemma {:induction false} PathsAreNotBlank(path: string)
    requires path != "" && forall c :: c in path ==> PathChar(c)
    ensures !IsSpace(path[0])
  {
    assert path[0] in path;
  }

  lemma {:induction false} TrimBlank(s: string, t: string)
    requires Blank(s) && t != "" && !IsSpace(t[0])
    ensures TrimStart(s + t) == t
  {
    if s == "" {
      assert s + t == t;
    } else {
      assert s[0] in s && (s + t)[1..] == s[1..] + t;
      TrimBlank(s[1..], t);
    }
  }

  lemma {:induction false} PathTaken(path: string, rest: string)
    requires (forall c :: c in path ==> PathChar(c)) && rest != "" && !PathChar(rest[0])
    ensures PathLength(path + rest) == |path|
  {
    if path == "" {
      assert path + rest == rest;
    } else {
      assert path[0] in path && (path + rest)[1..] == path[1..] + rest;
      PathTaken(path[1..], rest);
    }
  }

  lemma {:induction false} RenderedAlike(parts: seq<Part>, c: Ctx, d: Ctx)
    requires forall p :: p in parts ==> Rendered(p, c) == Rendered(p, d)
    ensures RenderParts(parts, c) == RenderParts(parts, d)
  {
    if parts != [] {
      assert parts[0] in parts && forall p :: p in parts[1..] ==> p in parts;
      RenderedAlike(parts[1..], c, d);
    }
  }

  /** No part shorter and one longer: the whole is longer. */
  lemma {:induction false} RenderedLonger(parts: seq<Part>, c: Ctx, d: Ctx, longer: Part)
    requires forall p :: p in parts ==> |Rendered(p, c)| <= |Rendered(p, d)|
    ensures |RenderParts(parts, c)| <= |RenderParts(parts, d)|
    ensures longer in parts && |Rendered(longer, c)| < |Rendered(longer, d)| ==>
              |RenderParts(parts, c)| < |RenderParts(parts, d)|
  {
    hide Rendered;
    if parts != [] {
      assert parts[0] in parts && forall p :: p in parts <==> p == parts[0] || p in parts[1..];
      RenderedLonger(parts[1..], c, d, longer);
    }
  }

  /** A part that is not blank makes the whole not blank. */
  lemma {:induction false} RenderedNotBlank(parts: seq<Part>, ctx: Ctx, part: Part)
    requires part in parts && !Blank(Rendered(part, ctx))
    ensures !Blank(RenderParts(parts, ctx))
  {
    hide Rendered;
    var tail := RenderParts(parts[1..], ctx);
    if part == parts[0] {
      var c :| c in Rendered(part, ctx) && !IsSpace(c);
      assert c in Rendered(part, ctx) + tail;
    } else {
      RenderedNotBlank(parts[1..], ctx, part);
      var c :| c in tail && !IsSpace(c);
      assert c in Rendered(parts[0], ctx) + tail;
    }
  }

  /** And blank literals alone a blank one. */
  lemma {:induction false} RenderedBlank(parts: seq<Part>, ctx: Ctx)
    requires forall p :: p in parts ==> p.Literal? && IsSpace(p.c)
    ensures Blank(RenderParts(parts, ctx))
  {
    if parts != [] {
      assert parts[0] in parts && forall p :: p in parts[1..] ==> p in parts;
      RenderedBlank(parts[1..], ctx);
    }
  }
}
