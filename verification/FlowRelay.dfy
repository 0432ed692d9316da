/**
 The relay of a flow's event stream (runner/flow.go `flowRelay`): bytes arrive in chunks cut
 anywhere, lines leave one at a time, and a line that grew beyond MAX_LINE before its last chunk
 is dropped.
 */
module FlowRelay {
  import opened Sequences

  const NEWLINE: Byte := 0x0A
  /** maxEventLine, 16 MiB. */
  const MAX_LINE: nat := 16777216

  /** Index of the first newline, |s| when there is none. */
  function IndexOfNewline(s: seq<Byte>): (i: nat)
    ensures i <= |s|
  {
    if s == [] || s[0] == NEWLINE then 0 else 1 + IndexOfNewline(s[1..])
  }

  lemma {:induction false} IndexIsFirst(s: seq<Byte>)
    ensures var i := IndexOfNewline(s);
            (i < |s| ==> s[i] == NEWLINE) && forall k :: 0 <= k < i ==> s[k] != NEWLINE
  {
    if s != [] && s[0] != NEWLINE {
      IndexIsFirst(s[1..]);
      assert forall k :: 1 <= k < |s| ==> s[k] == s[1..][k - 1];
    }
  }

  lemma {:induction false} IndexAfterPrefix(p: seq<Byte>, s: seq<Byte>)
    requires IndexOfNewline(p) == |p|
    ensures IndexOfNewline(p + s) == |p| + IndexOfNewline(s)
  {
    if p == [] {
      assert p + s == s;
    } else {
      assert p[0] != NEWLINE;
      assert (p + s)[1..] == p[1..] + s;
      IndexAfterPrefix(p[1..], s);
    }
  }

  lemma {:induction false} IndexInPrefix(a: seq<Byte>, b: seq<Byte>)
    requires IndexOfNewline(a) < |a|
    ensures IndexOfNewline(a + b) == IndexOfNewline(a)
  {
    if a[0] != NEWLINE {
      SliceOfConcat(a, b, 1);
      IndexInPrefix(a[1..], b);
    }
  }

  // ── the lines of a stream, however it is cut ───────────────────────────────

  /** The newline-terminated lines of `s`, in order. */
  function Lines(s: seq<Byte>): (lines: seq<seq<Byte>>)
    decreases |s|
  {
    var i := IndexOfNewline(s);
    if i == |s| then [] else [s[..i]] + Lines(s[i + 1..])
  }

  /** What follows the last newline of `s`. */
  function Rest(s: seq<Byte>): (rest: seq<Byte>)
    ensures IndexOfNewline(rest) == |rest|
    decreases |s|
  {
    var i := IndexOfNewline(s);
    if i == |s| then s else Rest(s[i + 1..])
  }

  lemma {:induction false} LinesUnfold(s: seq<Byte>, i: nat)
    requires i == IndexOfNewline(s)
    ensures i == |s| ==> Lines(s) == [] && Rest(s) == s
    ensures i < |s| ==> Lines(s) == [s[..i]] + Lines(s[i + 1..]) && Rest(s) == Rest(s[i + 1..])
  {
  }

  lemma {:induction false} LinesAppend(a: seq<Byte>, b: seq<Byte>)
    ensures Lines(a + b) == Lines(a) + Lines(Rest(a) + b)
    ensures Rest(a + b) == Rest(Rest(a) + b)
    decreases |a|
  {
    hide IndexOfNewline, Lines, Rest;
    var i := IndexOfNewline(a);
    LinesUnfold(a, i);
    if i < |a| {
      LinesUnfold(a + b, i) by {
        IndexInPrefix(a, b);
      }
      IndexInPrefix(a, b);
      SliceOfConcat(a, b, i);
      SliceOfConcat(a, b, i + 1);
      LinesAppend(a[i + 1..], b);
      ConcatAssoc([a[..i]], Lines(a[i + 1..]), Lines(Rest(a[i + 1..]) + b));
    }
  }

  // ── which lines are handled ────────────────────────────────────────────────

  /**
   The lines handled while `chunk` is consumed, `open` being all the bytes of the unfinished line
   before it: a line is handled when what of it came before its last chunk fits the limit.
   */
  function Handled(open: seq<Byte>, chunk: seq<Byte>, limit: nat): (lines: seq<seq<Byte>>)
    decreases |chunk|
  {
    var i := IndexOfNewline(chunk);
    if i == |chunk| then []
    else (if |open| <= limit then [open + chunk[..i]] else []) + Handled([], chunk[i + 1..], limit)
  }

  /** The lines handled over a whole run of chunks, before the flush. */
  function HandledAll(chunks: seq<seq<Byte>>, limit: nat): seq<seq<Byte>> {
    if chunks == [] then []
    else
      var before := chunks[..|chunks| - 1];
      HandledAll(before, limit) + Handled(Rest(Flatten(before)), chunks[|chunks| - 1], limit)
  }

  lemma {:induction false} HandledSnoc(before: seq<seq<Byte>>, last: seq<Byte>, limit: nat)
    ensures HandledAll(before + [last], limit)
            == HandledAll(before, limit) + Handled(Rest(Flatten(before)), last, limit)
  {
    assert (before + [last])[..|before|] == before;
  }

  /** The lines `keep` picks, in their order. */
  function Pick(lines: seq<seq<Byte>>, keep: seq<bool>): seq<seq<Byte>>
    requires |lines| == |keep|
  {
    if lines == [] then []
    else (if keep[0] then [lines[0]] else []) + Pick(lines[1..], keep[1..])
  }

  lemma {:induction false} PickAppend(l1: seq<seq<Byte>>, k1: seq<bool>, l2: seq<seq<Byte>>, k2: seq<bool>)
    requires |l1| == |k1| && |l2| == |k2|
    ensures Pick(l1 + l2, k1 + k2) == Pick(l1, k1) + Pick(l2, k2)
  {
    if l1 == [] {
      assert l1 + l2 == l2 && k1 + k2 == k2;
    } else {
      assert (l1 + l2)[1..] == l1[1..] + l2 && (k1 + k2)[1..] == k1[1..] + k2;
      PickAppend(l1[1..], k1[1..], l2, k2);
    }
  }

  lemma {:induction false} PickOne(line: seq<Byte>, taken: bool)
    ensures Pick([line], [taken]) == if taken then [line] else []
  {
    assert [line][1..] == [] && [taken][1..] == [];
  }

  /** A choice of lines that always takes the short ones and never the ones of length >= `never`. */
  ghost predicate Fits(lines: seq<seq<Byte>>, keep: seq<bool>, limit: nat, never: nat) {
    |keep| == |lines|
    && forall k :: 0 <= k < |lines| ==>
         (|lines[k]| <= limit ==> keep[k]) && (|lines[k]| >= never ==> !keep[k])
  }

  /** If all lines are short, all are taken. */
  lemma {:induction false} PickAll(lines: seq<seq<Byte>>, keep: seq<bool>, limit: nat, never: nat)
    requires Fits(lines, keep, limit, never) && forall l :: l in lines ==> |l| <= limit
    ensures Pick(lines, keep) == lines
  {
    if lines != [] {
      assert lines[0] in lines;
      PickAll(lines[1..], keep[1..], limit, never);
    }
  }

  lemma {:induction false} HandledUnfold(open: seq<Byte>, chunk: seq<Byte>, limit: nat)
    ensures var i := IndexOfNewline(chunk);
            Handled(open, chunk, limit) ==
              if i == |chunk| then []
              else if |open| <= limit then [open + chunk[..i]] + Handled([], chunk[i + 1..], limit)
              else Handled([], chunk[i + 1..], limit)
  {
  }

  /** Consuming `chunk` up to its first newline ends the line that `open` began. */
  lemma {:induction false} LineEnds(open: seq<Byte>, chunk: seq<Byte>)
    requires IndexOfNewline(open) == |open| && IndexOfNewline(chunk) < |chunk|
    ensures var i := IndexOfNewline(chunk);
            Lines(open + chunk) == [open + chunk[..i]] + Lines([] + chunk[i + 1..])
            && Rest(open + chunk) == Rest([] + chunk[i + 1..])
  {
    hide IndexOfNewline;
    var i := IndexOfNewline(chunk);
    IndexAfterPrefix(open, chunk);
    SliceInSecond(open, chunk, i + 1);
    assert (open + chunk)[..|open| + i] == open + chunk[..i];
    assert [] + chunk[i + 1..] == chunk[i + 1..];
  }

  lemma {:induction false} LineGoesOn(open: seq<Byte>, chunk: seq<Byte>, limit: nat)
    requires IndexOfNewline(open) == |open| && IndexOfNewline(chunk) == |chunk|
    ensures Lines(open + chunk) == [] && Handled(open, chunk, limit) == []
  {
    IndexAfterPrefix(open, chunk);
  }

  lemma {:induction false} FitsAppend(l1: seq<seq<Byte>>, k1: seq<bool>, l2: seq<seq<Byte>>, k2: seq<bool>, limit: nat,
                                      never: nat)
    requires Fits(l1, k1, limit, never) && Fits(l2, k2, limit, never)
    ensures |l1| == |k1| && |l2| == |k2| && Fits(l1 + l2, k1 + k2, limit, never)
  {
  }

  lemma {:induction false} HandledFits(open: seq<Byte>, chunk: seq<Byte>, limit: nat, most: nat)
    returns (keep: seq<bool>)
    requires IndexOfNewline(open) == |open|
    requires |chunk| <= most && most >= 1
    ensures Fits(Lines(open + chunk), keep, limit, limit + most)
    ensures Handled(open, chunk, limit) == Pick(Lines(open + chunk), keep)
    decreases |chunk|
  {
    hide Handled, Lines;
    var i := IndexOfNewline(chunk);
    if i == |chunk| {
      keep := [];
      LineGoesOn(open, chunk, limit);
    } else {
      HandledUnfold(open, chunk, limit);
      LineEnds(open, chunk);
      var line, after := open + chunk[..i], chunk[i + 1..];
      var taken := |open| <= limit;
      var more := HandledFits([], after, limit, most);
      keep := [taken] + more;
      hide Pick;
      FitsAppend([line], [taken], Lines([] + after), more, limit, limit + most);
      PickAppend([line], [taken], Lines([] + after), more);
      PickOne(line, taken);
    }
  }

  lemma {:induction false} NoLines(limit: nat, never: nat)
    ensures Lines([]) == [] && Pick([], []) == [] && Fits([], [], limit, never)
  {
  }

  /**
   Framing over a whole run, for every cutting into chunks of at most `most` bytes: the handled
   lines are the stream's own lines, in order, once each, with every line of at most `limit` bytes
   and none of `limit + most` bytes or more.
   */
  lemma {:induction false} FramingOfRun(chunks: seq<seq<Byte>>, limit: nat, most: nat) returns (keep: seq<bool>)
    requires most >= 1 && forall c :: c in chunks ==> |c| <= most
    ensures Fits(Lines(Flatten(chunks)), keep, limit, limit + most)
    ensures HandledAll(chunks, limit) == Pick(Lines(Flatten(chunks)), keep)
  {
    hide Handled, Lines, Rest, Pick, Fits;
    if chunks == [] {
      keep := [];
      NoLines(limit, limit + most);
    } else {
      var n := |chunks| - 1;
      var before, last := chunks[..n], chunks[n];
      var k1 := FramingOfRun(before, limit, most);
      var k2 := HandledFits(Rest(Flatten(before)), last, limit, most);
      assert chunks == before + [last];
      FlattenSnoc(before, last);
      HandledSnoc(before, last, limit);
      LinesAppend(Flatten(before), last);
      FitsAppend(Lines(Flatten(before)), k1, Lines(Rest(Flatten(before)) + last), k2, limit, limit + most);
      PickAppend(Lines(Flatten(before)), k1, Lines(Rest(Flatten(before)) + last), k2);
      keep := k1 + k2;
    }
  }

  /** With no line in the undecided range, the cutting does not matter at all. */
  lemma {:induction false} CutDoesNotMatter(a: seq<seq<Byte>>, b: seq<seq<Byte>>, limit: nat, most: nat)
    requires most >= 1 && forall c :: c in a || c in b ==> |c| <= most
    requires Flatten(a) == Flatten(b)
    requires forall l :: l in Lines(Flatten(a)) ==> |l| <= limit || |l| >= limit + most
    ensures HandledAll(a, limit) == HandledAll(b, limit)
  {
    var ka := FramingOfRun(a, limit, most);
    var kb := FramingOfRun(b, limit, most);
    assert ka == kb;
  }

  // ── exactly when the cutting matters ───────────────────────────────────────

  /** A cutting of `s` into chunks of at most `most` bytes. */
  ghost predicate Cuts(chunks: seq<seq<Byte>>, s: seq<Byte>, most: nat) {
    Flatten(chunks) == s && forall c :: c in chunks ==> |c| <= most
  }

  function Short(lines: seq<seq<Byte>>, limit: nat): seq<seq<Byte>> {
    if lines == [] then [] else (if |lines[0]| <= limit then [lines[0]] else []) + Short(lines[1..], limit)
  }

  lemma {:induction false} ShortAppend(a: seq<seq<Byte>>, b: seq<seq<Byte>>, limit: nat)
    ensures Short(a + b, limit) == Short(a, limit) + Short(b, limit)
  {
    if a == [] {
      assert a + b == b;
    } else {
      assert (a + b)[1..] == a[1..] + b;
      ShortAppend(a[1..], b, limit);
    }
  }

  /** The chunks, followed by `s` one byte at a time. */
  function Dripped(chunks: seq<seq<Byte>>, s: seq<Byte>): (all: seq<seq<Byte>>)
    ensures forall c :: c in all ==> c in chunks || |c| == 1
  {
    if s == [] then chunks else Dripped(chunks, s[..|s| - 1]) + [[s[|s| - 1]]]
  }

  lemma {:induction false} OneByte(open: seq<Byte>, c: Byte, limit: nat)
    requires IndexOfNewline(open) == |open|
    ensures Handled(open, [c], limit) == Short(Lines(open + [c]), limit)
  {
    IndexAfterPrefix(open, [c]);
    if c == NEWLINE {
      LineEnds(open, [c]);
      assert [] + [c][1..] == [] && open + [c][..0] == open;
      LinesUnfold([], 0);
    } else {
      LinesUnfold(open + [c], |open| + 1);
    }
  }

  /** Byte by byte, exactly the lines of at most `limit` bytes are handled. */
  lemma {:induction false} DrippedHandles(chunks: seq<seq<Byte>>, s: seq<Byte>, limit: nat)
    ensures Flatten(Dripped(chunks, s)) == Flatten(chunks) + s
    ensures HandledAll(Dripped(chunks, s), limit)
            == HandledAll(chunks, limit) + Short(Lines(Rest(Flatten(chunks)) + s), limit)
  {
    hide Lines, Rest, Handled, HandledAll, Flatten;
    var u := Flatten(chunks);
    if s == [] {
      assert u + s == u && Rest(u) + s == Rest(u);
      LinesUnfold(Rest(u), |Rest(u)|);
      assert HandledAll(chunks, limit) + [] == HandledAll(chunks, limit);
    } else {
      var init, c := s[..|s| - 1], s[|s| - 1];
      assert s == init + [c];
      DrippedHandles(chunks, init, limit);
      var before := Dripped(chunks, init);
      FlattenSnoc(before, [c]);
      assert (u + init) + [c] == u + s;
      HandledSnoc(before, [c], limit);
      OneByte(Rest(u + init), c, limit);
      LinesAppend(u, init);
      LinesAppend(Rest(u) + init, [c]);
      assert (Rest(u) + init) + [c] == Rest(u) + s;
      ShortAppend(Lines(Rest(u) + init), Lines(Rest(Rest(u) + init) + [c]), limit);
      ConcatAssoc(HandledAll(chunks, limit), Short(Lines(Rest(u) + init), limit),
          Short(Lines(Rest(u + init) + [c]), limit));
    }
  }

  /** Line k with what comes before it and after it. */
  lemma {:induction false} AroundLine(s: seq<Byte>, k: nat) returns (p: seq<Byte>, q: seq<Byte>)
    requires k < |Lines(s)|
    ensures s == p + Lines(s)[k] + [NEWLINE] + q
    ensures Rest(p) == [] && IndexOfNewline(Lines(s)[k]) == |Lines(s)[k]|
    decreases k
  {
    hide IndexOfNewline, Lines, Rest;
    var i := IndexOfNewline(s);
    LinesUnfold(s, i);
    FirstLine(s, i);
    var line, after := s[..i], s[i + 1..];
    if k == 0 {
      Newline();
      p, q := [], after;
      assert [] + line == line;
    } else {
      p, q := AroundLine(after, k - 1);
      EndOfLine(line, p);
      Regroup(line, p, Lines(after)[k - 1], q);
      p := line + [NEWLINE] + p;
    }
  }

  lemma {:induction false} FirstLine(s: seq<Byte>, i: nat)
    requires i == IndexOfNewline(s) < |s|
    ensures s == s[..i] + [NEWLINE] + s[i + 1..] && IndexOfNewline(s[..i]) == i
  {
    IndexIsFirst(s);
    IndexIsFirst(s[..i]);
  }

  lemma {:induction false} Regroup(line: seq<Byte>, p: seq<Byte>, l: seq<Byte>, q: seq<Byte>)
    ensures line + [NEWLINE] + (p + l + [NEWLINE] + q) == (line + [NEWLINE] + p) + l + [NEWLINE] + q
  {
  }

  lemma {:induction false} EndOfLine(line: seq<Byte>, p: seq<Byte>)
    requires IndexOfNewline(line) == |line|
    ensures Rest(line + [NEWLINE] + p) == Rest(p)
  {
    IndexAfterPrefix(line, [NEWLINE]);
    var s := line + [NEWLINE] + p;
    assert s == (line + [NEWLINE]) + p;
    IndexInPrefix(line + [NEWLINE], p);
    LinesUnfold(s, |line|);
    assert s[|line| + 1..] == p;
  }

  lemma {:induction false} HandledLine(open: seq<Byte>, piece: seq<Byte>, limit: nat)
    requires IndexOfNewline(piece) == |piece|
    ensures Handled(open, piece + [NEWLINE], limit) == if |open| <= limit then [open + piece] else []
  {
    var chunk := piece + [NEWLINE];
    IndexAfterPrefix(piece, [NEWLINE]);
    assert chunk[..|piece|] == piece && chunk[|piece| + 1..] == [];
    assert Handled([], [], limit) == [];
  }

  lemma {:induction false} NoNewlineInPart(line: seq<Byte>, k: nat)
    requires IndexOfNewline(line) == |line| && k <= |line|
    ensures IndexOfNewline(line[..k]) == k && IndexOfNewline(line[k..]) == |line| - k
  {
    IndexIsFirst(line);
    IndexIsFirst(line[..k]);
    IndexIsFirst(line[k..]);
  }

  /** One whole line. */
  lemma {:induction false} OneLine(line: seq<Byte>)
    requires IndexOfNewline(line) == |line|
    ensures Lines(line + [NEWLINE]) == [line] && Rest(line + [NEWLINE]) == []
  {
    IndexAfterPrefix(line, [NEWLINE]);
    assert (line + [NEWLINE])[|line| + 1..] == [];
    assert Lines([]) == [];
  }

  /** A line after whole lines. */
  lemma {:induction false} LineAfter(p: seq<Byte>, line: seq<Byte>, limit: nat)
    requires Rest(p) == [] && IndexOfNewline(line) == |line| && |line| > limit
    ensures Rest(p + line + [NEWLINE]) == []
    ensures Short(Lines(p + line + [NEWLINE]), limit) == Short(Lines(p), limit)
  {
    hide Rest, IndexOfNewline, Lines;
    assert p + line + [NEWLINE] == p + (line + [NEWLINE]) && [] + (line + [NEWLINE]) == line + [NEWLINE];
    LinesAppend(p, line + [NEWLINE]);
    OneLine(line);
    ShortAppend(Lines(p), [line], limit);
    assert Short(Lines(p), limit) + [] == Short(Lines(p), limit);
  }

  /** A part of a line after whole lines. */
  lemma {:induction false} Beginning(p: seq<Byte>, head: seq<Byte>, limit: nat)
    requires Rest(p) == [] && IndexOfNewline(head) == |head|
    ensures Rest(p + head) == head && Lines(p + head) == Lines(p)
  {
    LinesAppend(p, head);
    assert [] + head == head;
    LinesUnfold(head, |head|);
    assert Lines(p) + [] == Lines(p);
  }

  lemma {:induction false} DrippedFromNothing(s: seq<Byte>, limit: nat)
    ensures Flatten(Dripped([], s)) == s && HandledAll(Dripped([], s), limit) == Short(Lines(s), limit)
  {
    DrippedHandles([], s, limit);
    assert [] + s == s;
  }

  /** The line's end in one chunk: with at most `limit` bytes of it before, the line is handled. */
  lemma {:induction false} WithLineEnd(p: seq<Byte>, line: seq<Byte>, limit: nat) returns (chunks: seq<seq<Byte>>)
    requires Rest(p) == [] && IndexOfNewline(line) == |line| && |line| > limit
    ensures Flatten(chunks) == p + line + [NEWLINE]
    ensures forall c :: c in chunks ==> |c| == 1 || |c| == |line| - limit + 1
    ensures HandledAll(chunks, limit) == Short(Lines(p), limit) + [line]
  {
    hide IndexOfNewline, Lines, Handled, HandledAll, Flatten, Rest, Short, Dripped;
    var head, tail := line[..limit], line[limit..];
    NoNewlineInPart(line, limit);
    var before, last := Dripped([], p + head), tail + [NEWLINE];
    DrippedFromNothing(p + head, limit);
    Beginning(p, head, limit);
    chunks := before + [last];
    FlattenSnoc(before, last);
    HandledSnoc(before, last, limit);
    HandledLine(head, tail, limit);
    Rejoin(p, line, limit);
  }

  lemma {:induction false} Rejoin(p: seq<Byte>, line: seq<Byte>, k: nat)
    requires k <= |line|
    ensures line[..k] + line[k..] == line
    ensures (p + line[..k]) + (line[k..] + [NEWLINE]) == p + line + [NEWLINE]
  {
    assert line[..k] + line[k..] == line;
    assert (p + line[..k]) + (line[k..] + [NEWLINE]) == p + (line[..k] + line[k..]) + [NEWLINE];
  }

  /** A line of between `limit` and `limit + most` bytes is handled under one cutting and not under another. */
  lemma {:induction false} CutMatters(s: seq<Byte>, k: nat, limit: nat, most: nat)
    returns (a: seq<seq<Byte>>, b: seq<seq<Byte>>)
    requires most >= 1 && k < |Lines(s)| && limit < |Lines(s)[k]| < limit + most
    ensures Cuts(a, s, most) && Cuts(b, s, most) && |HandledAll(b, limit)| == |HandledAll(a, limit)| + 1
  {
    hide Lines, Handled, HandledAll, Flatten, Rest, Short, IndexOfNewline;
    var line := Lines(s)[k];
    var p, q := AroundLine(s, k);
    var u := p + line + [NEWLINE];
    LineAfter(p, line, limit);
    DrippedFromNothing(u, limit);
    a := Dripped(Dripped([], u), q);
    DrippedHandles(Dripped([], u), q, limit);
    var early := WithLineEnd(p, line, limit);
    b := Dripped(early, q);
    DrippedHandles(early, q, limit);
  }

  lemma {:induction false} Newline()
    ensures IndexOfNewline([NEWLINE]) == 0 && IndexOfNewline([]) == 0 && Rest([]) == []
  {
  }

  /**
   The exact condition, which a reader of the stream can check: the lines handled do not depend on
   how it is cut if and only if no line has more than `limit` but fewer than `limit + most` bytes.
   */
  lemma {:induction false} WhenTheCutMatters(s: seq<Byte>, limit: nat, most: nat)
    requires most >= 1
    ensures (forall a, b :: Cuts(a, s, most) && Cuts(b, s, most) ==> HandledAll(a, limit) == HandledAll(b, limit))
            <==> forall l :: l in Lines(s) ==> |l| <= limit || |l| >= limit + most
  {
    hide Lines, HandledAll;
    if forall l :: l in Lines(s) ==> |l| <= limit || |l| >= limit + most {
      forall a, b | Cuts(a, s, most) && Cuts(b, s, most) ensures HandledAll(a, limit) == HandledAll(b, limit) {
        CutDoesNotMatter(a, b, limit, most);
      }
    } else {
      var k :| 0 <= k < |Lines(s)| && limit < |Lines(s)[k]| < limit + most;
      var a, b := CutMatters(s, k, limit, most);
      assert HandledAll(a, limit) != HandledAll(b, limit);
    }
  }

  // ── what a handled line does ───────────────────────────────────────────────

  /** One event line, decoded. */
  datatype Event = Event(kind: string, resultJson: seq<Byte>, nodeEvents: seq<Byte>, error: string, key: string)

  datatype Decoded = NotAnEvent | Decoded(event: Event)

  /** The JSON decoder and the white-space trimmer are the environment's; so is the payload limit. */
  datatype Config = Config(trim: seq<Byte> -> seq<Byte>, decode: seq<Byte> -> Decoded, maxPub: int, replayKey: string)
  {
    /** The event a line holds, if it holds one. */
    function Read(line: seq<Byte>): Decoded {
      if trim(line) == [] then NotAnEvent
      else
        match decode(trim(line))
        case NotAnEvent => NotAnEvent
        case Decoded(ev) => if ev.kind == "" then NotAnEvent else Decoded(ev)
    }

    predicate IsKind(line: seq<Byte>, kind: string) {
      Read(line).Decoded? && Read(line).event.kind == kind
    }

    predicate IsLive(line: seq<Byte>) {
      Read(line).Decoded? && !IsKind(line, "state") && !IsKind(line, "replay")
          && (maxPub <= 0 || |trim(line)| <= maxPub)
    }

    predicate SavesState(line: seq<Byte>) {
      IsKind(line, "state") && |Read(line).event.resultJson| > 0 && |Read(line).event.nodeEvents| > 0
    }
  }

  /** The events published live, of the lines handled. */
  function Live(c: Config, lines: seq<seq<Byte>>): seq<seq<Byte>> {
    if lines == [] then []
    else
      var last := lines[|lines| - 1];
      Live(c, lines[..|lines| - 1]) + (if c.IsLive(last) then [c.trim(last)] else [])
  }

  /** The states handed on to be saved. */
  function States(c: Config, lines: seq<seq<Byte>>): seq<(seq<Byte>, seq<Byte>)> {
    if lines == [] then []
    else
      var last := lines[|lines| - 1];
      States(c, lines[..|lines| - 1])
      + (if c.SavesState(last) then [(c.Read(last).event.resultJson, c.Read(last).event.nodeEvents)] else [])
  }

  /** The last handled line that is an event of this kind. */
  function LastOf(c: Config, lines: seq<seq<Byte>>, kind: string): (found: Decoded)
    ensures found.Decoded? ==> exists l :: l in lines && c.IsKind(l, kind) && c.Read(l) == found
    ensures found.NotAnEvent? ==> forall l :: l in lines ==> !c.IsKind(l, kind)
  {
    if lines == [] then NotAnEvent
    else
      var last := lines[|lines| - 1];
      if c.IsKind(last, kind) then c.Read(last) else LastOf(c, lines[..|lines| - 1], kind)
  }

  lemma {:induction false} EffectsSnoc(c: Config, lines: seq<seq<Byte>>, last: seq<Byte>)
    ensures Live(c, lines + [last]) == Live(c, lines) + (if c.IsLive(last) then [c.trim(last)] else [])
    ensures States(c, lines + [last]) == States(c, lines)
              + (if c.SavesState(last) then [(c.Read(last).event.resultJson, c.Read(last).event.nodeEvents)] else [])
    ensures LastOf(c, lines + [last], "state")
            == if c.IsKind(last, "state") then c.Read(last) else LastOf(c, lines, "state")
    ensures LastOf(c, lines + [last], "replay")
            == if c.IsKind(last, "replay") then c.Read(last) else LastOf(c, lines, "replay")
  {
    assert (lines + [last])[..|lines|] == lines;
  }

  /** A line's kind of event, if any, decides what it does. */
  lemma {:induction false} HandleCases(c: Config, raw: seq<Byte>)
    ensures var line := c.trim(raw);
            if |line| == 0 || c.decode(line).NotAnEvent? || c.decode(line).event.kind == "" then
              !c.IsKind(raw, "state") && !c.IsKind(raw, "replay") && !c.IsLive(raw) && !c.SavesState(raw)
            else
              var ev := c.decode(line).event;
              && c.Read(raw) == Decoded(ev)
              && (c.IsKind(raw, "state") <==> ev.kind == "state") && (c.IsKind(raw, "replay") <==> ev.kind == "replay")
              && (c.SavesState(raw) <==> ev.kind == "state" && |ev.resultJson| > 0 && |ev.nodeEvents| > 0)
              && (c.IsLive(raw) <==> ev.kind != "state" && ev.kind != "replay" && (c.maxPub <= 0 || |line| <= c.maxPub))
  {
  }

  /** Nothing the runner keeps for itself, and nothing over the payload limit, is ever published. */
  lemma {:induction false} LiveIsOnlyLive(c: Config, lines: seq<seq<Byte>>, e: seq<Byte>)
    requires e in Live(c, lines)
    ensures exists l :: l in lines && c.trim(l) == e && c.Read(l).Decoded?
                        && !c.IsKind(l, "state") && !c.IsKind(l, "replay")
    ensures c.maxPub > 0 ==> |e| <= c.maxPub
  {
    var last := lines[|lines| - 1];
    if c.IsLive(last) && e == c.trim(last) {
      assert last in lines;
    } else {
      LiveIsOnlyLive(c, lines[..|lines| - 1], e);
    }
  }

  lemma {:induction false} NothingLeft(open: seq<Byte>)
    requires IndexOfNewline(open) == |open|
    ensures Handled(open, [], MAX_LINE) == [] && Rest(open + []) == open && open + [] == open
  {
    assert open + [] == open;
  }

  class FlowRelay {
    const config: Config
    var buf: seq<Byte>
    var dropping: bool
    /** Calls of `publish` and of `saveState`, in order. */
    var published: seq<seq<Byte>>
    var saved: seq<(seq<Byte>, seq<Byte>)>
    /** The flow's own error, from its last state. */
    var error: string
    var replaySet: bool

    ghost var chunks: seq<seq<Byte>>
    ghost var handled: seq<seq<Byte>>

    /** The buffer is the unfinished line as long as that fits, and nothing once it does not. */
    ghost predicate Buffers(open: seq<Byte>)
      reads this
    {
      (dropping <==> |open| > MAX_LINE) && buf == (if dropping then [] else open)
    }

    /** The effects so far are those of the lines handled so far. */
    ghost predicate Effects()
      reads this`published, this`saved, this`error, this`replaySet, this`handled
    {
      && published == Live(config, handled) && saved == States(config, handled)
      && error == (match LastOf(config, handled, "state") case NotAnEvent => "" case Decoded(ev) => ev.error)
      && (replaySet <==> match LastOf(config, handled, "replay")
                         case NotAnEvent => false
                         case Decoded(ev) => ev.key != "" && ev.key == config.replayKey)
    }

    ghost predicate Valid()
      reads this
    {
      && Buffers(Rest(Flatten(chunks)))
      && handled == HandledAll(chunks, MAX_LINE)
      && Effects()
    }

    constructor (config: Config)
      ensures Valid() && this.config == config && chunks == []
    {
      this.config := config;
      buf, dropping, published, saved, error, replaySet := [], false, [], [], "", false;
      chunks, handled := [], [];
    }

    method Handle(raw: seq<Byte>)
      requires Effects()
      modifies this`published, this`saved, this`error, this`replaySet, this`handled
      ensures Effects() && handled == old(handled) + [raw]
    {
      hide Live, States, LastOf, HandledAll, Flatten, Rest, Config.Read, Config.IsKind, Config.IsLive,
           Config.SavesState;
      EffectsSnoc(config, handled, raw);
      HandleCases(config, raw);
      handled := handled + [raw];
      var line := config.trim(raw);
      if |line| == 0 {
        return;
      }
      var decoded := config.decode(line);
      if decoded.NotAnEvent? || decoded.event.kind == "" {
        return;
      }
      var ev := decoded.event;
      if ev.kind == "state" {
        if |ev.resultJson| > 0 && |ev.nodeEvents| > 0 {
          saved := saved + [(ev.resultJson, ev.nodeEvents)];
        }
        error := ev.error;
      } else if ev.kind == "replay" {
        replaySet := ev.key != "" && ev.key == config.replayKey;
      } else if config.maxPub <= 0 || |line| <= config.maxPub {
        published := published + [line];
      }
    }

    method Write(p: seq<Byte>)
      requires Valid()
      modifies this
      ensures Valid() && chunks == old(chunks) + [p]
    {
      hide Effects, Handled, HandledAll, Rest, Lines;
      ghost var open := Rest(Flatten(chunks));
      ghost var before := handled;
      var chunk := p;
      ghost var open0 := open;
      FlattenSnoc(chunks, p);
      LinesAppend(Flatten(chunks), p);
      while |chunk| > 0
        invariant Buffers(open) && IndexOfNewline(open) == |open| && Effects()
        invariant chunks == old(chunks)
        invariant handled + Handled(open, chunk, MAX_LINE) == before + Handled(open0, p, MAX_LINE)
        invariant Rest(open + chunk) == Rest(open0 + p)
        decreases |chunk|
      {
        var i := IndexOfNewline(chunk);
        IndexAfterPrefix(open, chunk);
        HandledUnfold(open, chunk, MAX_LINE);
        if i == |chunk| {
          if !dropping {
            buf := buf + chunk;
            if |buf| > MAX_LINE {
              buf, dropping := [], true;
            }
          }
          open := open + chunk;
          chunk := [];
          NothingLeft(open);
          break;
        }
        LineEnds(open, chunk);
        if dropping {
          dropping := false;
        } else {
          ConcatAssoc(handled, [open + chunk[..i]], Handled([], chunk[i + 1..], MAX_LINE));
          Handle(buf + chunk[..i]);
        }
        buf := [];
        chunk := chunk[i + 1..];
        open := [];
      }
      NothingLeft(open);
      HandledSnoc(chunks, p, MAX_LINE);
      chunks := chunks + [p];
    }

    /** A last event written without its newline is handled too, unless it was being dropped. */
    method Flush()
      requires Valid()
      modifies this
      ensures chunks == old(chunks) && buf == [] && !dropping && Effects()
      ensures var open := Rest(Flatten(chunks));
              handled == HandledAll(chunks, MAX_LINE) + (if 0 < |open| <= MAX_LINE then [open] else [])
    {
      hide Live, States, LastOf, HandledAll, Rest, Flatten;
      if |buf| > 0 && !dropping {
        Handle(buf);
      }
      buf, dropping := [], false;
    }
  }
}
