/**
 What a shell run does with each chunk of its output (runner/worker.go `tailBuffer` and the
 `OnChunk` of `runShell`): keep the end for the run's record, publish the rest live.
 */
module ShellOutput {
  import opened Sequences
  import OutputEvents

  /** runner_runs.result keeps the last MAX_RESULT bytes of a run's output. */
  const MAX_RESULT: nat := 262144
  /** Data bytes of one live `output` event. */
  const MAX_EVENT: nat := 32768

  function LastBytes(s: seq<Byte>, max: nat): seq<Byte> {
    if |s| > max then s[|s| - max..] else s
  }

  /** Keeping the end of an end keeps the end of the whole. */
  lemma {:induction false} LastBytesStep(s: seq<Byte>, p: seq<Byte>, max: nat)
    ensures LastBytes(LastBytes(s, max) + p, max) == LastBytes(s + p, max)
    ensures |LastBytes(s, max) + p| > max || |s| > max <==> |s + p| > max
  {
  }

  class TailBuffer {
    const max: nat
    var b: seq<Byte>
    var cut: bool
    /** Everything ever written. */
    ghost var written: seq<Byte>

    ghost predicate Valid()
      reads this
    {
      b == LastBytes(written, max) && (cut <==> |written| > max)
    }

    constructor (max: nat)
      ensures Valid() && this.max == max && written == []
    {
      this.max := max;
      b, cut, written := [], false, [];
    }

    method Write(p: seq<Byte>)
      requires Valid()
      modifies this
      ensures Valid() && written == old(written) + p
    {
      LastBytesStep(written, p, max);
      b := b + p;
      if |b| > max {
        b := b[|b| - max..];
        cut := true;
      }
      written := written + p;
    }
  }

  /** What is left to publish when the stream ends. */
  lemma {:induction false} EndOfStream(chunks: seq<seq<Byte>>, carry: seq<Byte>, published: seq<seq<Byte>>)
    ensures carry == OutputEvents.Carry([], chunks) && published == OutputEvents.Published([], chunks, MAX_EVENT) ==>
              OutputEvents.RunEvents(chunks, MAX_EVENT)
              == if |carry| > 0 then published + OutputEvents.Emit([] + (carry + [0x0A]), MAX_EVENT) else published
    ensures MAX_EVENT >= 1
  {
    hide OutputEvents.Carry, OutputEvents.Published, OutputEvents.Emit;
    assert [] + (carry + [0x0A]) == carry + [0x0A];
    assert published + [] == published;
  }

  class ShellSink {
    const out: TailBuffer
    var carry: seq<Byte>
    /** The data of every event published on the run's live channel, in order. */
    var published: seq<seq<Byte>>
    /** The chunks received so far. */
    ghost var chunks: seq<seq<Byte>>

    ghost predicate Valid()
      reads this, out
    {
      && out.Valid() && out.max == MAX_RESULT && out.written == Flatten(chunks)
      && carry == OutputEvents.Carry([], chunks)
      && published == OutputEvents.Published([], chunks, MAX_EVENT)
    }

    constructor ()
      ensures Valid() && fresh(out) && chunks == []
    {
      out := new TailBuffer(MAX_RESULT);
      carry, published, chunks := [], [], [];
    }

    method OnChunk(p: seq<Byte>)
      requires Valid()
      modifies this, out
      ensures Valid() && chunks == old(chunks) + [p]
    {
      FlattenSnoc(chunks, p);
      OutputEvents.StreamSnoc([], chunks, p, MAX_EVENT);
      hide OutputEvents.Carry, OutputEvents.Published, OutputEvents.Emit, OutputEvents.Hold, LastBytes, Flatten;
      out.Write(p);
      var events, rest := OutputEvents.SplitOutput(carry, p, MAX_EVENT);
      published := published + events;
      carry := rest;
      chunks := chunks + [p];
    }

    /** The end of the run: a last character cut short goes out as it is, closed by a line feed. */
    method Finish()
      requires Valid()
      modifies this
      ensures chunks == old(chunks) && out.b == old(out.b) && out.cut == old(out.cut)
      ensures published == OutputEvents.RunEvents(chunks, MAX_EVENT)
    {
      hide OutputEvents.RunEvents, OutputEvents.Carry, OutputEvents.Published, OutputEvents.Emit, OutputEvents.Hold,
           LastBytes, Flatten;
      EndOfStream(chunks, carry, published);
      if |carry| > 0 {
        var events, _ := OutputEvents.SplitOutput([], carry + [0x0A], MAX_EVENT);
        published := published + events;
      }
    }
  }
}
