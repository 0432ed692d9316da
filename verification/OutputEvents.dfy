/**
 A shell run's live output (runner/flow.go `outputEvents`, and its use in runner/worker.go
 `runShell`): the stream arrives in chunks cut anywhere, and leaves as `output` events of bounded
 size that never split a character.
 */
module OutputEvents {
  import opened Sequences
  import Utf8

  /** Bytes the sequence of a lead byte `c` (c >= 0xC0) takes. */
  function Need(c: Byte): nat {
    if c >= 0xF0 then 4 else if c >= 0xE0 then 3 else 2
  }

  /** Where `data` is cut: before an incomplete trailing character, looking back from byte `i`. */
  function CutFrom(data: seq<Byte>, i: nat): (cut: nat)
    requires i >= 1
    ensures cut <= |data| <= cut + 3
    decreases 4 - i
  {
    if i > 3 || i > |data| then |data|
    else
      var c := data[|data| - i];
      if Utf8.IsTail(c) then CutFrom(data, i + 1)
      else if c >= 0xC0 && i < Need(c) then |data| - i
      else |data|
  }

  function Cut(data: seq<Byte>): (cut: nat)
    ensures cut <= |data| <= cut + 3
  {
    CutFrom(data, 1)
  }

  /** Where the cut is, by the last byte that is no tail byte, if it is one of the last three: before it if
      it begins a character of more bytes than there are, and at the end otherwise. */
  lemma {:induction false} WhereItCuts(data: seq<Byte>, i: nat)
    requires 1 <= i <= 4 && i <= |data| + 1
    requires forall k :: |data| - i < k < |data| ==> 0x80 <= data[k] < 0xC0
    ensures Cut(data)
            == if i <= 3 && i <= |data| then
                 var c := data[|data| - i];
                 if 0x80 <= c < 0xC0 then Cut(data)
                 else if (0xC0 <= c < 0xE0 && i < 2) || (0xE0 <= c < 0xF0 && i < 3) || (0xF0 <= c && i < 4) then
                   |data| - i
                 else |data|
               else |data|
  {
    LooksBack(data, i);
  }

  lemma {:induction false} LooksBack(data: seq<Byte>, i: nat)
    requires 1 <= i && i <= |data| + 1
    requires forall k :: |data| - i < k < |data| ==> Utf8.IsTail(data[k])
    ensures i <= 4 ==> Cut(data) == CutFrom(data, i)
  {
    if 1 < i <= 4 {
      LooksBack(data, i - 1);
    }
  }

  /** The largest n' <= n at which data has no tail byte, 0 when there is none. */
  function BackUp(data: seq<Byte>, n: nat): (m: nat)
    requires n < |data|
    ensures m <= n
    ensures m > 0 ==> !Utf8.IsTail(data[m])
    ensures forall k :: m < k <= n ==> Utf8.IsTail(data[k])
  {
    if n > 0 && Utf8.IsTail(data[n]) then BackUp(data, n - 1) else n
  }

  /** Length of the first event cut from `data`. */
  function PieceLen(data: seq<Byte>, max: nat): (n: nat)
    requires data != [] && max >= 1
    ensures 1 <= n <= max && n <= |data|
  {
    if |data| <= max then |data|
    else if BackUp(data, max) == 0 then max else BackUp(data, max)
  }

  function Pieces(data: seq<Byte>, max: nat): (events: seq<seq<Byte>>)
    requires max >= 1
    ensures Flatten(events) == data
    ensures forall e :: e in events ==> 1 <= |e| <= max
    decreases |data|
  {
    if data == [] then []
    else
      var n := PieceLen(data, max);
      assert data[..n] + data[n..] == data;
      [data[..n]] + Pieces(data[n..], max)
  }

  /** The events a buffer yields, and the bytes it holds back. */
  function Emit(all: seq<Byte>, max: nat): (events: seq<seq<Byte>>)
    requires max >= 1
    ensures Flatten(events) == all[..Cut(all)]
    ensures forall e :: e in events ==> 1 <= |e| <= max
  {
    Pieces(all[..Cut(all)], max)
  }

  function Hold(all: seq<Byte>): (rest: seq<Byte>)
    ensures |rest| <= 3
    ensures all[..Cut(all)] + rest == all
  {
    all[Cut(all)..]
  }

  /** The first loop of `outputEvents`: back up over an incomplete trailing character. */
  method FindCut(all: seq<Byte>) returns (cut: nat)
    ensures cut == Cut(all)
  {
    cut := |all|;
    var i := 1;
    while i <= 3 && i <= |all|
      invariant 1 <= i <= 4
      invariant cut == |all|
      invariant Cut(all) == CutFrom(all, i)
      decreases 4 - i
    {
      var c := all[|all| - i];
      if Utf8.IsTail(c) {
        i := i + 1;
        continue;
      }
      if c >= 0xC0 && i < Need(c) {
        cut := |all| - i;
      }
      break;
    }
  }

  /** One turn of the second loop: how much of `data` the next event takes. */
  method NextPiece(data: seq<Byte>, max: nat) returns (n: nat)
    requires data != [] && max >= 1
    ensures n == PieceLen(data, max)
  {
    n := |data|;
    if n > max {
      n := max;
      while n > 0 && Utf8.IsTail(data[n])
        invariant 0 <= n <= max
        invariant BackUp(data, n) == BackUp(data, max)
      {
        n := n - 1;
      }
      if n == 0 {
        n := max;
      }
    }
  }

  lemma {:induction false} PiecesUnfold(data: seq<Byte>, max: nat)
    requires data != [] && max >= 1
    ensures Pieces(data, max) == [data[..PieceLen(data, max)]] + Pieces(data[PieceLen(data, max)..], max)
  {
  }

  lemma {:induction false} PiecesEmpty(max: nat)
    requires max >= 1
    ensures Pieces([], max) == []
  {
  }

  /** `outputEvents`, against `Emit` and `Hold`. */
  method SplitOutput(carry: seq<Byte>, chunk: seq<Byte>, max: nat) returns (events: seq<seq<Byte>>, rest: seq<Byte>)
    requires max >= 1
    ensures Flatten(events) + rest == carry + chunk
    ensures |rest| <= 3
    ensures forall e :: e in events ==> 1 <= |e| <= max
    ensures events == Emit(carry + chunk, max) && rest == Hold(carry + chunk)
  {
    hide Pieces, PieceLen, Cut, Flatten;
    var all := carry + chunk;
    var cut := FindCut(all);
    rest := all[cut..];
    var data := all[..cut];
    events := [];
    while |data| > 0
      invariant events + Pieces(data, max) == Pieces(all[..cut], max)
      decreases |data|
    {
      var n := NextPiece(data, max);
      PiecesUnfold(data, max);
      var before := events;
      events := events + [data[..n]];
      assert events + Pieces(data[n..], max) == before + ([data[..n]] + Pieces(data[n..], max));
      data := data[n..];
    }
    PiecesEmpty(max);
    assert data == [] && events + Pieces([], max) == events;
  }

  // ── every event is whole characters ────────────────────────────────────────

  /**
   When the text continues with `more` into valid UTF-8, the cut falls between two characters, and
   what is held back is the beginning of a single unfinished one.
   */
  lemma {:induction false} CutIsBoundary(data: seq<Byte>, more: seq<Byte>)
    requires Utf8.Valid(data + more)
    ensures Utf8.Valid(data[..Cut(data)]) && Utf8.Valid(data[Cut(data)..] + more)
    ensures Cut(data) < |data| ==> Utf8.CharLen(data[Cut(data)..] + more) > |data| - Cut(data)
    decreases |data|
  {
    hide Cut, Utf8.CharLen;
    var s := data + more;
    if data == [] {
      assert data[..0] == [];
      assert data[0..] + more == s;
    } else {
      var n := Utf8.CharLen(s);
      if n > |data| {
        UnfinishedChar(data, more);
        assert data[..0] == [] && data[0..] == data;
      } else {
        var tail := data[n..];
        assert s[n..] == tail + more;
        CutIsBoundary(tail, more);
        CutSkipsChar(data, more, n);
        var c := Cut(tail);
        assert data[n + c..] == tail[c..];
        ValidAfterChar(data, more, n, n + c);
      }
    }
  }

  /** Text that ends inside its first character is held back whole. */
  lemma {:induction false} UnfinishedChar(data: seq<Byte>, more: seq<Byte>)
    requires data != [] && Utf8.CharLen(data + more) > |data|
    ensures Cut(data) == 0
  {
    var s := data + more;
    assert forall k :: 0 <= k < |data| ==> data[k] == s[k];
    assert forall k :: 1 <= k < |data| ==> Utf8.IsTail(data[k]);
  }

  lemma {:induction false} ValidAfterChar(data: seq<Byte>, more: seq<Byte>, n: nat, k: nat)
    requires n == Utf8.CharLen(data + more) && 0 < n <= k <= |data|
    requires Utf8.Valid(data[n..][..k - n])
    ensures Utf8.Valid(data[..k])
  {
    assert data[..k][n..] == data[n..][..k - n];
    assert (data + more)[..n] == data[..k][..n];
    Utf8.CharLenLocal(data + more, data[..k]);
  }

  /** Looking back from the end stops within the text after the first character. */
  lemma {:induction false} CutFromShift(data: seq<Byte>, n: nat, i: nat)
    requires n < |data| && !Utf8.IsTail(data[n]) && 1 <= i <= |data| - n
    ensures CutFrom(data, i) == n + CutFrom(data[n..], i)
    decreases 4 - i
  {
    var tail := data[n..];
    if i <= 3 {
      assert tail[|tail| - i] == data[|data| - i];
      if Utf8.IsTail(data[|data| - i]) {
        assert i != |data| - n;
        CutFromShift(data, n, i + 1);
      }
    }
  }

  lemma {:induction false} CutSkipsChar(data: seq<Byte>, more: seq<Byte>, n: nat)
    requires data != [] && Utf8.Valid(data + more)
    requires n == Utf8.CharLen(data + more) <= |data|
    ensures Cut(data) == n + Cut(data[n..])
  {
    var s := data + more;
    assert forall k :: 0 <= k < |data| ==> data[k] == s[k];
    if n == |data| {
      assert data[n..] == [];
      assert forall k :: 1 <= k < n ==> Utf8.IsTail(data[k]);
    } else {
      assert s[n..][0] == s[n];
      CutFromShift(data, n, 1);
    }
  }

  /** Cutting valid text at `max >= 4` bytes leaves valid pieces. */
  lemma {:induction false} PiecesValid(data: seq<Byte>, max: nat)
    requires max >= 4 && Utf8.Valid(data)
    ensures forall e :: e in Pieces(data, max) ==> Utf8.Valid(e)
    decreases |data|
  {
    if data != [] {
      var n := PieceLen(data, max);
      if |data| > max {
        Utf8.NoFourTails(data, max);
      } else {
        assert data[..n] == data && data[n..] == [];
      }
      Utf8.CutAtBoundary(data, n);
      PiecesValid(data[n..], max);
    }
  }

  /** All events but the last come within three bytes of `max`. */
  ghost predicate Full(events: seq<seq<Byte>>, max: nat) {
    forall i :: 0 <= i < |events| - 1 ==> max - 3 <= |events[i]| <= max
  }

  lemma {:induction false} PieceIsFull(data: seq<Byte>, max: nat)
    requires max >= 4 && Utf8.Valid(data) && |data| > max
    ensures max - 3 <= PieceLen(data, max) <= max && Utf8.Valid(data[PieceLen(data, max)..])
  {
    Utf8.NoFourTails(data, max);
    Utf8.CutAtBoundary(data, PieceLen(data, max));
  }

  /** And valid text is not cut smaller than it must be. */
  lemma {:induction false} PiecesFull(data: seq<Byte>, max: nat)
    requires max >= 4 && Utf8.Valid(data)
    ensures Full(Pieces(data, max), max)
    decreases |data|
  {
    hide Utf8.Valid, PieceLen, Pieces;
    PiecesEmpty(max);
    if |data| > max {
      PieceIsFull(data, max);
      PiecesUnfold(data, max);
      PiecesFull(data[PieceLen(data, max)..], max);
    } else if data != [] {
      PiecesUnfold(data, max);
      OnePiece(data, max);
    }
  }

  lemma {:induction false} OnePiece(data: seq<Byte>, max: nat)
    requires data != [] && |data| <= max
    ensures PieceLen(data, max) == |data| && data[|data|..] == []
  {
  }

  // ── a whole stream ─────────────────────────────────────────────────────────

  /** The events published after `chunks`, starting from `carry`. */
  function Published(carry: seq<Byte>, chunks: seq<seq<Byte>>, max: nat): seq<seq<Byte>>
    requires max >= 1
    decreases |chunks|
  {
    if chunks == [] then []
    else Emit(carry + chunks[0], max) + Published(Hold(carry + chunks[0]), chunks[1..], max)
  }

  /** The bytes held back after `chunks`, starting from `carry`. */
  function Carry(carry: seq<Byte>, chunks: seq<seq<Byte>>): seq<Byte>
    decreases |chunks|
  {
    if chunks == [] then carry else Carry(Hold(carry + chunks[0]), chunks[1..])
  }

  lemma {:induction false} StreamSnoc(carry: seq<Byte>, chunks: seq<seq<Byte>>, chunk: seq<Byte>, max: nat)
    requires max >= 1
    ensures var all := Carry(carry, chunks) + chunk;
            Carry(carry, chunks + [chunk]) == Hold(all)
            && Published(carry, chunks + [chunk], max) == Published(carry, chunks, max) + Emit(all, max)
    decreases |chunks|
  {
    hide Emit, Hold, Cut, Pieces;
    var more := chunks + [chunk];
    if chunks == [] {
      assert more[0] == chunk && more[1..] == [];
      assert Published(carry, more, max) == Emit(carry + chunk, max) + [];
      assert Carry(carry, more) == Carry(Hold(carry + chunk), []);
    } else {
      assert more[0] == chunks[0] && more[1..] == chunks[1..] + [chunk];
      StreamSnoc(Hold(carry + chunks[0]), chunks[1..], chunk, max);
    }
  }

  /** No byte is lost, doubled or reordered, however the stream was cut. */
  lemma {:induction false} StreamConserves(carry: seq<Byte>, chunks: seq<seq<Byte>>, max: nat)
    requires max >= 1 && |carry| <= 3
    ensures Flatten(Published(carry, chunks, max)) + Carry(carry, chunks) == carry + Flatten(chunks)
    ensures |Carry(carry, chunks)| <= 3
    ensures forall e :: e in Published(carry, chunks, max) ==> 1 <= |e| <= max
    decreases |chunks|
  {
    hide Emit, Hold, Cut, Pieces;
    if chunks == [] {
      assert Flatten<Byte>([]) == [];
    } else {
      var all := carry + chunks[0];
      var rest := Hold(all);
      var head, tail := Emit(all, max), Published(rest, chunks[1..], max);
      StreamConserves(rest, chunks[1..], max);
      FlattenAppend(head, tail);
      Reassociate(Flatten(head), rest, Flatten(tail), Carry(rest, chunks[1..]), Flatten(chunks[1..]));
      assert carry + Flatten(chunks) == all + Flatten(chunks[1..]);
    }
  }

  lemma {:induction false} Reassociate(head: seq<Byte>, rest: seq<Byte>, tail: seq<Byte>, carry: seq<Byte>,
                                       more: seq<Byte>)
    requires tail + carry == rest + more
    ensures (head + tail) + carry == (head + rest) + more
  {
    assert (head + tail) + carry == head + (tail + carry);
    assert (head + rest) + more == head + (rest + more);
  }

  /** A valid stream yields valid events only, and leaves nothing behind. */
  lemma {:induction false} StreamValid(carry: seq<Byte>, chunks: seq<seq<Byte>>, max: nat)
    requires max >= 4
    requires Utf8.Valid(carry + Flatten(chunks))
    requires chunks == [] ==> carry == []
    ensures forall e :: e in Published(carry, chunks, max) ==> Utf8.Valid(e)
    ensures Carry(carry, chunks) == []
    decreases |chunks|
  {
    hide Utf8.Valid, Utf8.CharLen, Cut, Pieces;
    if chunks != [] {
      var all := carry + chunks[0];
      var more := Flatten(chunks[1..]);
      assert all + more == carry + Flatten(chunks);
      CutIsBoundary(all, more);
      PiecesValid(all[..Cut(all)], max);
      if chunks[1..] == [] {
        assert more == [] && Hold(all) + more == Hold(all);
      }
      StreamValid(Hold(all), chunks[1..], max);
    }
  }

  /** A run's event data: its stream's, then an unfinished last character closed by a line feed. */
  function RunEvents(chunks: seq<seq<Byte>>, max: nat): seq<seq<Byte>>
    requires max >= 1
  {
    var carry := Carry([], chunks);
    Published([], chunks, max) + (if carry == [] then [] else Emit(carry + [0x0A], max))
  }

  lemma {:induction false} LineFeedEndsText(carry: seq<Byte>)
    ensures Cut(carry + [0x0A]) == |carry| + 1
  {
    var last := carry + [0x0A];
    assert last[|last| - 1] == 0x0A;
  }

  /**
   What the run's channel carries in all: the whole output, plus one line feed exactly when the
   output ended inside a character; for valid output, the output itself in whole characters.
   */
  lemma {:induction false} RunEventsCarryTheOutput(chunks: seq<seq<Byte>>, max: nat)
    requires max >= 1
    ensures Flatten(RunEvents(chunks, max)) == Flatten(chunks) + (if Carry([], chunks) == [] then [] else [0x0A])
    ensures forall e :: e in RunEvents(chunks, max) ==> 1 <= |e| <= max
    ensures max >= 4 && Utf8.Valid(Flatten(chunks)) ==>
              Carry([], chunks) == [] && forall e :: e in RunEvents(chunks, max) ==> Utf8.Valid(e)
  {
    hide Utf8.Valid, Pieces, Published, Carry, Emit, Cut;
    var carry, events := Carry([], chunks), Published([], chunks, max);
    StreamConserves([], chunks, max);
    assert [] + Flatten(chunks) == Flatten(chunks);
    if carry != [] {
      LineFeedEndsText(carry);
      var last := carry + [0x0A];
      assert last[..|last|] == last;
      FlattenAppend(events, Emit(last, max));
      assert Flatten(events) + last == (Flatten(events) + carry) + [0x0A];
    } else {
      assert RunEvents(chunks, max) == events;
    }
    if max >= 4 && Utf8.Valid(Flatten(chunks)) {
      StreamValid([], chunks, max);
    }
  }
}
