/**
 The client of a live execution (web/src/lib/automations.ts `executeAutomation`): frames are cut
 from the decoded text of a response as its reads arrive, and settle what the call returns.
 */
module EventStream {
  import opened Options
  import opened Sequences
  import opened Texts

  // ── cutting the text into frames ───────────────────────────────────────────

  /** indexOf("\n\n"), |s| when there is none. */
  function FirstBreak(s: string): (i: nat)
    ensures i <= |s|
    ensures i < |s| ==> i + 1 < |s| && s[i] == s[i + 1] == '\n'
  {
    FirstPair(s, '\n')
  }

  /** The frames of the text, each ended by the leftmost blank line after the one before. */
  function Frames(s: string): seq<string>
    decreases |s|
  {
    var i := FirstBreak(s);
    if i == |s| then [] else [s[..i]] + Frames(s[i + 2..])
  }

  function Remainder(s: string): string
    decreases |s|
  {
    var i := FirstBreak(s);
    if i == |s| then s else Remainder(s[i + 2..])
  }

  lemma {:induction false} BreakInPrefix(a: string, b: string)
    requires FirstBreak(a) < |a|
    ensures FirstBreak(a + b) == FirstBreak(a)
  {
    FirstPairInPrefix(a, b, '\n');
  }

  lemma {:induction false} FramesUnfold(s: string, i: nat)
    requires i == FirstBreak(s)
    ensures i == |s| ==> Frames(s) == [] && Remainder(s) == s
    ensures i < |s| ==> Frames(s) == [s[..i]] + Frames(s[i + 2..]) && Remainder(s) == Remainder(s[i + 2..])
  {
  }

  /** Reading on: what was cut stays cut, and the rest is cut together with what comes. */
  lemma {:induction false} FramesAppend(a: string, b: string)
    ensures Frames(a + b) == Frames(a) + Frames(Remainder(a) + b)
    ensures Remainder(a + b) == Remainder(Remainder(a) + b)
    decreases |a|
  {
    hide FirstBreak, Frames, Remainder;
    var i := FirstBreak(a);
    FramesUnfold(a, i);
    if i < |a| {
      FramesUnfold(a + b, i) by {
        BreakInPrefix(a, b);
      }
      SliceOfConcat(a, b, i);
      SliceOfConcat(a, b, i + 2);
      FramesAppend(a[i + 2..], b);
      ConcatAssoc([a[..i]], Frames(a[i + 2..]), Frames(Remainder(a[i + 2..]) + b));
    }
  }

  lemma {:induction false} NoFrameLeft(s: string)
    ensures FirstBreak(Remainder(s)) == |Remainder(s)|
    decreases |s|
  {
    if FirstBreak(s) < |s| {
      NoFrameLeft(s[FirstBreak(s) + 2..]);
    }
  }

  // ── the leftmost split, said without an algorithm ──────────────────────────

  function Terminated(frames: seq<string>): string {
    if frames == [] then "" else frames[0] + "\n\n" + Terminated(frames[1..])
  }

  ghost predicate HasBreak(s: string) {
    exists i :: 0 <= i && i + 1 < |s| && s[i] == '\n' && s[i + 1] == '\n'
  }

  /** `frames`, each closed by its first possible "\n\n", then a rest without any, spell the text. */
  ghost predicate IsLeftmostSplit(s: string, frames: seq<string>, rest: string) {
    && s == Terminated(frames) + rest
    && !HasBreak(rest)
    && forall f :: f in frames ==> !HasBreak(f + "\n")
  }

  lemma {:induction false} FirstBreakIsFirst(s: string)
    ensures FirstBreak(s) == |s| <==> !HasBreak(s)
    ensures FirstBreak(s) < |s| ==> !HasBreak(s[..FirstBreak(s) + 1])
  {
    if |s| >= 2 && !(s[0] == s[1] == '\n') {
      var t := s[1..];
      FirstBreakIsFirst(t);
      BreakLater(s);
      var k := FirstBreak(t);
      if k < |t| {
        BreakLater(s[..k + 2]);
        assert s[..k + 2][1..] == t[..k + 1];
      }
    }
  }

  lemma {:induction false} BreakLater(s: string)
    requires |s| >= 2 && !(s[0] == s[1] == '\n')
    ensures HasBreak(s) <==> HasBreak(s[1..])
  {
    var t := s[1..];
    if HasBreak(t) {
      var j :| 0 <= j && j + 1 < |t| && t[j] == '\n' && t[j + 1] == '\n';
      assert s[j + 1] == '\n' && s[j + 1 + 1] == '\n';
    }
    if HasBreak(s) {
      var j :| 0 <= j && j + 1 < |s| && s[j] == '\n' && s[j + 1] == '\n';
      assert t[j - 1] == '\n' && t[j - 1 + 1] == '\n';
    }
  }

  lemma {:induction false} BreakAt(s: string, i: nat)
    requires i + 1 < |s| && s[i] == s[i + 1] == '\n' && !HasBreak(s[..i + 1])
    ensures FirstBreak(s) == i
  {
    FirstBreakIsFirst(s);
    var j := FirstBreak(s);
    assert HasBreak(s);
    BreakWithin(s, j, i + 1);
    BreakWithin(s, i, j + 1);
  }

  lemma {:induction false} BreakWithin(s: string, i: nat, k: nat)
    requires i + 1 < |s| && k <= |s| && s[i] == s[i + 1] == '\n'
    ensures i + 1 < k ==> HasBreak(s[..k])
  {
    if i + 1 < k {
      assert s[..k][i] == '\n' && s[..k][i + 1] == '\n';
    }
  }

  /** The frames of the code are the leftmost split, and the only one. */
  lemma {:induction false} FramesAreTheLeftmostSplit(s: string, frames: seq<string>, rest: string)
    ensures IsLeftmostSplit(s, frames, rest) <==> frames == Frames(s) && rest == Remainder(s)
    decreases |s|
  {
    FramesSplit(s);
    if IsLeftmostSplit(s, frames, rest) {
      SplitIsUnique(s, frames, rest);
    }
  }

  lemma {:induction false} FramesSplit(s: string)
    ensures IsLeftmostSplit(s, Frames(s), Remainder(s))
    decreases |s|
  {
    hide FirstBreak, Frames, Remainder, HasBreak;
    var i := FirstBreak(s);
    FramesUnfold(s, i);
    FirstBreakIsFirst(s);
    if i == |s| {
      assert s == Terminated([]) + s;
    } else {
      FramesSplit(s[i + 2..]);
      FrameFirst(s, i, Frames(s[i + 2..]), Remainder(s[i + 2..]));
    }
  }

  lemma {:induction false} FrameFirst(s: string, i: nat, more: seq<string>, rest: string)
    requires i + 1 < |s| && s[i] == s[i + 1] == '\n' && !HasBreak(s[..i + 1])
    requires IsLeftmostSplit(s[i + 2..], more, rest)
    ensures IsLeftmostSplit(s, [s[..i]] + more, rest)
  {
    hide HasBreak;
    assert s[..i] + "\n" == s[..i + 1];
    assert s == s[..i] + "\n\n" + s[i + 2..];
    assert ([s[..i]] + more)[1..] == more;
    assert s[..i] + "\n\n" + (Terminated(more) + rest) == (s[..i] + "\n\n" + Terminated(more)) + rest;
  }

  lemma {:induction false} SplitIsUnique(s: string, frames: seq<string>, rest: string)
    requires IsLeftmostSplit(s, frames, rest)
    ensures frames == Frames(s) && rest == Remainder(s)
    decreases |frames|
  {
    hide Frames, Remainder, FirstBreak, HasBreak;
    if frames == [] {
      assert s == rest;
      FirstBreakIsFirst(s);
      FramesUnfold(s, |s|);
    } else {
      var f, more := frames[0], frames[1..];
      var after := Terminated(more) + rest;
      assert s == (f + "\n\n") + after;
      assert s[..|f| + 1] == f + "\n" && s[|f|] == '\n' && s[|f| + 1] == '\n';
      BreakAt(s, |f|);
      FramesUnfold(s, |f|);
      assert s[..|f|] == f && s[|f| + 2..] == after;
      SplitIsUnique(after, more, rest);
      assert frames == [f] + more;
    }
  }

  // ── what a frame means ─────────────────────────────────────────────────────

  /** The frame's event name: its last `event:` line, "message" without one. */
  function EventName(lines: seq<string>): string {
    if lines == [] then "message"
    else
      var last := lines[|lines| - 1];
      if "event:" <= last then Trim(last[6..]) else EventName(lines[..|lines| - 1])
  }

  /** The frame's data: its `data:` lines, trimmed and run together. */
  function Data(lines: seq<string>): string {
    if lines == [] then ""
    else
      var last := lines[|lines| - 1];
      Data(lines[..|lines| - 1])
      + (if !("event:" <= last) && "data:" <= last then Trim(last[5..]) else "")
  }

  /** A member of any JSON type: how an Error spells it, and whether it counts as true. */
  datatype Member = Member(text: string, truthy: bool)

  /** A decoded JSON value; `message` is its member of that name, none if absent or null. */
  datatype Json = Null | Json(text: string, message: Option<Member>)

  datatype Effect = Nothing | Step(ev: Json) | Done(result: Json) | Failed(message: Member) | Crash

  const RUN_FAILED := Member("run failed", true)

  /** What one frame does; reading `message` of a null error payload throws. */
  function Meaning(parse: string -> Option<Json>, frame: string): Effect {
    var lines := SplitLines(frame);
    var data := Data(lines);
    if data == "" then Nothing
    else
      match parse(data)
      case None => Nothing
      case Some(json) =>
        match EventName(lines)
        case "step" => Step(json)
        case "done" => Done(json)
        case "error" =>
          if json.Null? then Crash
          else Failed(match json.message case None => RUN_FAILED case Some(m) => m)
        case _ => Nothing
  }

  // ── what the call comes to ─────────────────────────────────────────────────

  datatype Outcome =
    | HttpError(status: int) | TypeErrorThrown | ErrorThrown(message: string) | Returned(result: Json) | NoResult

  /** The response's head. */
  datatype Head = Head(status: int, hasBody: bool)

  /** The effects up to the first crash, which ends the call. */
  function Effects(parse: string -> Option<Json>, frames: seq<string>): (effects: seq<Effect>)
    ensures |effects| <= |frames|
    ensures forall i :: 0 <= i < |effects| - 1 ==> !effects[i].Crash?
  {
    if frames == [] then []
    else
      var e := Meaning(parse, frames[0]);
      if e.Crash? then [Crash] else [e] + Effects(parse, frames[1..])
  }

  function StepsOf(effects: seq<Effect>): seq<Json> {
    if effects == [] then []
    else
      var last := effects[|effects| - 1];
      StepsOf(effects[..|effects| - 1]) + (if last.Step? then [last.ev] else [])
  }

  /** The message of the last error frame. */
  function LastFailure(effects: seq<Effect>): Option<Member> {
    if effects == [] then None
    else
      var last := effects[|effects| - 1];
      if last.Failed? then Some(last.message) else LastFailure(effects[..|effects| - 1])
  }

  /** The payload of the last done frame, Null without one. */
  function LastDone(effects: seq<Effect>): Json {
    if effects == [] then Null
    else
      var last := effects[|effects| - 1];
      if last.Done? then last.result else LastDone(effects[..|effects| - 1])
  }

  /** A crash throws; else a last error frame whose message counts as true throws; else the last done
      frame is the result, unless there is none or its payload is null. */
  function OutcomeOf(effects: seq<Effect>): Outcome {
    if Crash in effects then TypeErrorThrown
    else
      match LastFailure(effects)
      case Some(m) => if m.truthy then ErrorThrown(m.text) else Settled(effects)
      case None => Settled(effects)
  }

  function Settled(effects: seq<Effect>): Outcome {
    if LastDone(effects).Null? then NoResult else Returned(LastDone(effects))
  }

  /** All frames of a whole text: the remainder is one too unless it is blank. */
  function AllFrames(text: string): seq<string> {
    Frames(text) + (if Trim(Remainder(text)) == "" then [] else [Remainder(text)])
  }

  method ScanLines(frame: string) returns (event: string, data: string)
    ensures event == EventName(SplitLines(frame)) && data == Data(SplitLines(frame))
  {
    var lines := SplitLines(frame);
    event, data := "message", "";
    for i := 0 to |lines|
      invariant event == EventName(lines[..i]) && data == Data(lines[..i])
    {
      assert lines[..i + 1][..i] == lines[..i];
      var line := lines[i];
      if "event:" <= line {
        event := Trim(line[6..]);
      } else if "data:" <= line {
        data := data + Trim(line[5..]);
      }
    }
    assert lines[..|lines|] == lines;
  }

  class Execution {
    const parse: string -> Option<Json>
    var buf: string
    var steps: seq<Json>
    var result: Json
    var streamErr: Option<Member>
    var crashed: bool
    /** The frames passed to `HandleFrame`, in order, and the text received. */
    ghost var frames: seq<string>
    ghost var text: string

    ghost predicate Settles()
      reads this`steps, this`result, this`streamErr, this`crashed, this`frames
    {
      var effects := Effects(parse, frames);
      && steps == StepsOf(effects) && result == LastDone(effects) && streamErr == LastFailure(effects)
      && (crashed <==> Crash in effects)
    }

    ghost predicate Valid()
      reads this
    {
      && Settles()
      && frames <= Frames(text)
      && (!crashed ==> frames == Frames(text) && buf == Remainder(text))
    }

    constructor (parse: string -> Option<Json>)
      ensures Valid() && this.parse == parse && text == "" && !crashed
    {
      this.parse := parse;
      buf, steps, result, streamErr, crashed := "", [], Null, None, false;
      frames, text := [], "";
    }

    method HandleFrame(frame: string)
      requires Settles() && !crashed
      modifies this`steps, this`result, this`streamErr, this`crashed, this`frames
      ensures Settles() && frames == old(frames) + [frame]
    {
      hide Effects, StepsOf, LastFailure, LastDone, SplitLines, EventName, Data;
      EffectsSnoc(parse, frames, frame);
      frames := frames + [frame];
      var event, data := ScanLines(frame);
      if data == "" {
        return;
      }
      var parsed := parse(data);
      if parsed.None? {
        return;
      }
      if event == "step" {
        steps := steps + [parsed.value];
      } else if event == "done" {
        result := parsed.value;
      } else if event == "error" {
        if parsed.value.Null? {
          crashed := true;
          return;
        }
        streamErr := Some(match parsed.value.message case None => RUN_FAILED case Some(m) => m);
      }
    }

    /** One read of the response: every frame it completes is handled at once. */
    method Read(value: string)
      requires Valid() && !crashed
      modifies this
      ensures Valid() && text == old(text) + value
    {
      hide Settles, Frames, Remainder, FirstBreak;
      FramesAppend(text, value);
      text := text + value;
      buf := buf + value;
      while FirstBreak(buf) < |buf|
        invariant Settles() && !crashed && text == old(text) + value
        invariant frames + Frames(buf) == Frames(text) && Remainder(buf) == Remainder(text)
        decreases |buf|
      {
        var idx := FirstBreak(buf);
        FramesUnfold(buf, idx);
        ConcatAssoc(frames, [buf[..idx]], Frames(buf[idx + 2..]));
        HandleFrame(buf[..idx]);
        buf := buf[idx + 2..];
        if crashed {
          return;
        }
      }
      FramesUnfold(buf, |buf|);
      assert frames + [] == frames;
    }
  }

  lemma {:induction false} EffectsSnoc(parse: string -> Option<Json>, frames: seq<string>, frame: string)
    requires Crash !in Effects(parse, frames)
    ensures var before, e := Effects(parse, frames), Meaning(parse, frame);
            var after := Effects(parse, frames + [frame]);
            && after == before + [e]
            && StepsOf(after) == StepsOf(before) + (if e.Step? then [e.ev] else [])
            && LastFailure(after) == (if e.Failed? then Some(e.message) else LastFailure(before))
            && LastDone(after) == (if e.Done? then e.result else LastDone(before))
            && (Crash in after <==> e.Crash?)
  {
    EffectsAppend(parse, frames, [frame]);
    var before, e := Effects(parse, frames), Meaning(parse, frame);
    assert Effects(parse, [frame]) == [e];
    assert (before + [e])[..|before|] == before;
  }

  lemma {:induction false} EffectsAppend(parse: string -> Option<Json>, a: seq<string>, b: seq<string>)
    ensures Effects(parse, a + b) ==
              if Crash in Effects(parse, a) then Effects(parse, a) else Effects(parse, a) + Effects(parse, b)
  {
    hide Meaning;
    if a == [] {
      assert a + b == b;
    } else {
      assert (a + b)[0] == a[0] && (a + b)[1..] == a[1..] + b;
      EffectsAppend(parse, a[1..], b);
    }
  }

  /**
   The read loop. However the response is cut into parts, the frames handled are those of the whole
   text, and so are the steps reported and the outcome, which comes early only with a crash.
   */
  method ReadAll(parse: string -> Option<Json>, parts: seq<string>) returns (outcome: Outcome, steps: seq<Json>)
    ensures var effects := Effects(parse, AllFrames(Flatten(parts)));
            outcome == OutcomeOf(effects) && steps == StepsOf(effects)
  {
    hide Effects, StepsOf, LastFailure, LastDone, Frames, Remainder, Trim;
    var run := new Execution(parse);
    for n := 0 to |parts|
      invariant run.Valid() && run.parse == parse && !run.crashed && run.text == Flatten(parts[..n])
    {
      assert parts[..n + 1] == parts[..n] + [parts[n]];
      FlattenSnoc(parts[..n], parts[n]);
      run.Read(parts[n]);
      if run.crashed {
        assert parts == parts[..n + 1] + parts[n + 1..];
        FlattenAppend(parts[..n + 1], parts[n + 1..]);
        CrashIsFinal(parse, run.frames, run.text, Flatten(parts[n + 1..]));
        return TypeErrorThrown, run.steps;
      }
    }
    assert parts[..|parts|] == parts;
    if Trim(run.buf) != "" {
      run.HandleFrame(run.buf);
    } else {
      assert run.frames + [] == run.frames;
    }
    steps := run.steps;
    if run.crashed {
      return TypeErrorThrown, steps;
    }
    if run.streamErr.Some? && run.streamErr.value.truthy {
      return ErrorThrown(run.streamErr.value.text), steps;
    }
    return if run.result.Null? then NoResult else Returned(run.result), steps;
  }

  /** The whole call: a response that is not a success, or has no body, throws at once. */
  method Execute(head: Head, parse: string -> Option<Json>, parts: seq<string>)
    returns (outcome: Outcome, steps: seq<Json>)
    ensures head.status < 200 || head.status >= 300 || !head.hasBody ==>
              outcome == HttpError(head.status) && steps == []
    ensures 200 <= head.status < 300 && head.hasBody ==>
              var effects := Effects(parse, AllFrames(Flatten(parts)));
              outcome == OutcomeOf(effects) && steps == StepsOf(effects)
  {
    hide *;
    if !(200 <= head.status < 300) || !head.hasBody {
      return HttpError(head.status), [];
    }
    outcome, steps := ReadAll(parse, parts);
  }

  /** After a crash nothing that comes changes anything. */
  lemma {:induction false} CrashIsFinal(parse: string -> Option<Json>, handled: seq<string>, text: string, more: string)
    requires handled <= Frames(text) && Crash in Effects(parse, handled)
    ensures Effects(parse, AllFrames(text + more)) == Effects(parse, handled)
  {
    hide Frames, Remainder, Effects, Trim;
    FramesAppend(text, more);
    var all := AllFrames(text + more);
    assert handled <= all;
    assert all == handled + all[|handled|..];
    EffectsAppend(parse, handled, all[|handled|..]);
  }

  /** The last done frame decides, when no error frame came and nothing crashed. */
  lemma {:induction false} LastDoneDecides(effects: seq<Effect>, k: nat)
    requires k < |effects| && effects[k].Done? && !effects[k].result.Null?
    requires forall i :: 0 <= i < |effects| ==> !effects[i].Crash? && !effects[i].Failed?
    requires forall i :: k < i < |effects| ==> !effects[i].Done?
    ensures OutcomeOf(effects) == Returned(effects[k].result)
  {
    var n := |effects| - 1;
    if k < n {
      LastDoneDecides(effects[..n], k);
    } else {
      NoFailure(effects);
    }
    NoFailure(effects);
  }

  lemma {:induction false} NoFailure(effects: seq<Effect>)
    requires forall i :: 0 <= i < |effects| ==> !effects[i].Failed?
    ensures LastFailure(effects) == None
  {
    if effects != [] {
      NoFailure(effects[..|effects| - 1]);
    }
  }

  ghost predicate IsLastFailure(effects: seq<Effect>, k: int) {
    0 <= k < |effects| && effects[k].Failed? && forall i :: k < i < |effects| ==> !effects[i].Failed?
  }

  lemma {:induction false} LastFailureIsLast(effects: seq<Effect>)
    ensures LastFailure(effects).None? <==> forall k :: !IsLastFailure(effects, k)
    ensures forall k :: IsLastFailure(effects, k) ==> LastFailure(effects) == Some(effects[k].message)
  {
    if effects != [] {
      var n := |effects| - 1;
      LastFailureIsLast(effects[..n]);
      if effects[n].Failed? {
        assert IsLastFailure(effects, n);
      } else {
        forall k ensures IsLastFailure(effects, k) <==> IsLastFailure(effects[..n], k) {
        }
      }
    }
  }

  /**
   Exactly when the call throws for an error frame, if nothing crashed: the last error frame's message
   counts as true. One that does not, as an empty one, cancels every error before it.
   */
  lemma {:induction false} WhenAnErrorThrows(effects: seq<Effect>)
    requires Crash !in effects
    ensures OutcomeOf(effects).ErrorThrown? <==> exists k :: IsLastFailure(effects, k) && effects[k].message.truthy
    ensures forall k :: IsLastFailure(effects, k) && effects[k].message.truthy ==>
              OutcomeOf(effects) == ErrorThrown(effects[k].message.text)
  {
    LastFailureIsLast(effects);
  }

  // ── two texts ──────────────────────────────────────────────────────────────

  /** A frame as the server writes it. */
  function Written(event: string, data: string): string {
    "event:" + event + "\n" + ("data:" + data)
  }

  /** Nothing in it to trim or to split. */
  predicate Plain(s: string) {
    s != "" && '\n' !in s && !IsSpace(s[0]) && !IsSpace(s[|s| - 1])
  }

  lemma {:induction false} OneLine(s: string)
    requires '\n' !in s
    ensures SplitLines(s) == [s]
  {
    if s != "" {
      assert s[0] in s && forall c :: c in s[1..] ==> c in s;
      OneLine(s[1..]);
      assert [s[0]] + s[1..] == s;
    }
  }

  lemma {:induction false} LineThenMore(a: string, b: string)
    requires '\n' !in a
    ensures SplitLines(a + "\n" + b) == [a] + SplitLines(b)
  {
    var s := a + "\n" + b;
    if a == "" {
      assert s[1..] == b;
    } else {
      assert a[0] in a && forall c :: c in a[1..] ==> c in a;
      LineThenMore(a[1..], b);
      assert s[1..] == a[1..] + "\n" + b;
      assert [a[0]] + a[1..] == a;
    }
  }

  lemma {:induction false} PlainIsTrimmed(s: string)
    requires Plain(s)
    ensures Trim(s) == s
  {
  }

  /** What a written frame says. */
  lemma {:induction false} WrittenMeans(event: string, data: string)
    requires Plain(event) && Plain(data)
    ensures EventName(SplitLines(Written(event, data))) == event && Data(SplitLines(Written(event, data))) == data
  {
    hide SplitLines, Trim, IsSpace;
    var first, second := "event:" + event, "data:" + data;
    LineThenMore(first, second);
    OneLine(second);
    PlainIsTrimmed(event);
    PlainIsTrimmed(data);
    TwoLines(first, second, event, data);
  }

  lemma {:induction false} TwoLines(first: string, second: string, event: string, data: string)
    requires first == "event:" + event && second == "data:" + data && Trim(event) == event && Trim(data) == data
    ensures EventName([first] + [second]) == event && Data([first] + [second]) == data
  {
    hide Trim;
    var lines := [first] + [second];
    assert lines[..1] == [first] && [first][..0] == [];
    assert first[6..] == event && second[5..] == data;
    assert second[0] == 'd' && first[0] == 'e';
    assert Data([]) == "" && Data([first]) == "" + "";
    assert EventName([first]) == event;
  }

  /**
   What a written frame does, by its event and what its data decodes to: a step is reported, a done is the
   result so far, an error the failure so far, named by its message or "run failed"; a null error crashes,
   and all else, and data that does not decode, does nothing.
   */
  lemma {:induction false} WrittenDoes(parse: string -> Option<Json>, event: string, data: string)
    requires Plain(event) && Plain(data)
    ensures Meaning(parse, Written(event, data))
            == match parse(data)
               case None => Nothing
               case Some(json) =>
                 if event == "step" then Step(json)
                 else if event == "done" then Done(json)
                 else if event != "error" then Nothing
                 else if json.Null? then Crash
                 else if json.message.Some? then Failed(json.message.value)
                 else Failed(Member("run failed", true))
  {
    hide Written, SplitLines, EventName, Data, IsSpace;
    WrittenMeans(event, data);
  }

  /** A frame without an event does nothing, nor does one without data. */
  lemma {:induction false} BareDoesNothing(parse: string -> Option<Json>, text: string)
    requires Plain(text)
    ensures Meaning(parse, "data:" + text) == Nothing && Meaning(parse, "event:" + text) == Nothing
  {
    hide IsSpace, Trim;
    forall kind | kind == "data:" || kind == "event:" ensures SplitLines(kind + text) == [kind + text] {
      OneLine(kind + text);
    }
    assert ["data:" + text][..0] == [] && ["event:" + text][..0] == [];
    assert ("data:" + text)[0] == 'd' && ("event:" + text)[0] == 'e';
    assert EventName(["data:" + text]) == "message" && Data(["event:" + text]) == "";
  }

  /** The data lines of a frame are run together; of two event lines the later one names it. */
  lemma {:induction false} MoreLines(lines: seq<string>, text: string)
    requires Plain(text)
    ensures Data(lines + ["data:" + text]) == Data(lines) + text && Data(lines + ["event:" + text]) == Data(lines)
    ensures EventName(lines + ["event:" + text]) == text && EventName(lines + ["data:" + text]) == EventName(lines)
  {
    hide IsSpace, Trim;
    PlainIsTrimmed(text);
    assert (lines + ["data:" + text])[..|lines|] == lines && (lines + ["event:" + text])[..|lines|] == lines;
    assert ("data:" + text)[0] == 'd' && ("event:" + text)[0] == 'e';
    assert ("data:" + text)[5..] == text && ("event:" + text)[6..] == text;
  }

  lemma {:induction false} NewlinesOfWritten(event: string, data: string, i: nat)
    requires Plain(event) && Plain(data) && i < |Written(event, data)|
    ensures Written(event, data)[i] == '\n' <==> i == |"event:" + event|
    ensures |Written(event, data)| > |"event:" + event| + 1
  {
    hide IsSpace;
    var n := |"event:" + event|;
    if 6 <= i < n {
      assert event[i - 6] in event;
    } else if i >= n + 6 {
      assert data[i - n - 6] in data;
    }
  }

  /** It holds no blank line, so it is cut where it ends. */
  lemma {:induction false} WrittenIsCut(event: string, data: string, more: string)
    requires Plain(event) && Plain(data)
    ensures Frames(Written(event, data) + "\n\n" + more) == [Written(event, data)] + Frames(more)
    ensures Remainder(Written(event, data) + "\n\n" + more) == Remainder(more)
  {
    var f := Written(event, data);
    var s := f + "\n\n" + more;
    var n := |"event:" + event|;
    assert s[..|f| + 1] == f + "\n";
    forall i: nat | i < |f| ensures f[i] == '\n' <==> i == n {
      NewlinesOfWritten(event, data, i);
    }
    hide IsSpace, Written;
    BreakAt(s, |f|);
    FramesUnfold(s, |f|);
    assert s[..|f|] == f && s[|f| + 2..] == more;
  }

  /** A stream whose error has an empty message, and which then is done, comes back as a success. */
  lemma {:induction false} EmptyErrorIsForgotten(parse: string -> Option<Json>, error: string, done: string,
                                                 spelt: string)
    requires Plain(error) && Plain(done)
    requires parse(error).Some? && parse(error).value == Json(spelt, Some(Member("", false)))
    requires parse(done).Some? && !parse(done).value.Null?
    ensures var text := Written("error", error) + "\n\n" + (Written("done", done) + "\n\n" + "");
            OutcomeOf(Effects(parse, AllFrames(text))) == Returned(parse(done).value)
  {
    hide Written, SplitLines, Frames, Remainder, Trim, EventName, Data, IsSpace, OutcomeOf;
    var f, g := Written("error", error), Written("done", done);
    PlainNames();
    WrittenIsCut("error", error, g + "\n\n" + "");
    WrittenIsCut("done", done, "");
    FramesUnfold("", 0);
    assert Trim("") == "" by {
      Blank("");
    }
    WrittenMeans("error", error);
    WrittenMeans("done", done);
    assert [f] + ([g] + []) == [f, g] && [f, g] + [] == [f, g];
    assert AllFrames(f + "\n\n" + (g + "\n\n" + "")) == [f, g];
    TwoEffects(parse, f, g);
    FailedThenDone(Member("", false), parse(done).value);
  }

  lemma {:induction false} FailedThenDone(message: Member, result: Json)
    requires !message.truthy && !result.Null?
    ensures OutcomeOf([Failed(message), Done(result)]) == Returned(result)
  {
    var effects := [Failed(message), Done(result)];
    LastFailureIsLast(effects);
    assert IsLastFailure(effects, 0);
    assert LastDone(effects) == result;
  }

  lemma {:induction false} PlainNames()
    ensures Plain("error") && Plain("done")
  {
  }

  lemma {:induction false} Blank(s: string)
    requires |s| == 0
    ensures Trim(s) == s
  {
  }

  lemma {:induction false} TwoEffects(parse: string -> Option<Json>, f: string, g: string)
    requires !Meaning(parse, f).Crash? && !Meaning(parse, g).Crash?
    ensures Effects(parse, [f, g]) == [Meaning(parse, f), Meaning(parse, g)]
  {
    hide Meaning;
    assert [f, g][1..] == [g] && [g][1..] == [];
    assert Effects(parse, []) == [];
  }

  /** A stream whose error is null throws a TypeError, whatever comes after it. */
  lemma {:induction false} NullErrorCrashes(parse: string -> Option<Json>, error: string, more: string)
    requires Plain(error) && parse(error) == Some(Null)
    ensures OutcomeOf(Effects(parse, AllFrames(Written("error", error) + "\n\n" + more))) == TypeErrorThrown
  {
    hide Written, SplitLines, Frames, Remainder, Trim;
    var f := Written("error", error);
    PlainNames();
    WrittenIsCut("error", error, more);
    WrittenMeans("error", error);
    assert Meaning(parse, f) == Crash;
    var frames := AllFrames(f + "\n\n" + more);
    assert frames[0] == f;
    assert Effects(parse, frames) == [Crash];
  }
}
