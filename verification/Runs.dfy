/**
 A whole run (runner/worker.go `runShell`, `runFlow`): the env file, the sandbox base, the job in its
 sandbox, and what becomes of its output. The callbacks of the tail loop are replayed on its chunks
 once it ended, in the same order.
 */
module Runs {
  import opened Options
  import opened Outcomes
  import opened Sequences
  import BoxBases
  import EnvFile
  import FlowBases
  import FlowRelay
  import NamedBases
  import OutputEvents
  import Runner
  import S = SandboxJob
  import ShellOutput
  import Utf8

  /** Why a run that came back without an error is a failed one. */
  datatype Failure = NoFailure | TimedOut | Exited(code: int) | Says(error: string)

  /** How a run came back: Go's error as the classes handleJob tells apart, and the failure text. */
  datatype Returned = Returned(o: Outcome, failure: Failure)

  /** The variables of the env file can all be named. */
  predicate Nameable(env: seq<(string, string)>) {
    forall v :: v in env ==> EnvFile.ValidEnvName(v.0)
  }

  /** The last switch of both runs; `says` is the flow's own error, "" for none. */
  function Classify(res: S.Result, err: S.RunError, says: string): (r: Returned)
    ensures r.o.AfterStart() <==> !err.StartError?
    ensures r.o.Succeeded? <==> err.NoError? && res == S.Result(0, false)
    ensures r.o.Interrupted? <==> err.ContextEnded?
    ensures r.o.FailedRun? <==> !r.failure.NoFailure?
  {
    match err
    case StartError(_) => Returned(StartFailed, NoFailure)
    case ContextEnded => Returned(Interrupted, NoFailure)
    case ProcessFailed => Returned(Broken, NoFailure)
    case Lost => Returned(Broken, NoFailure)
    case NoError =>
      if res.timedOut then Returned(FailedRun, TimedOut)
      else if res.exitCode == 0 then Returned(Succeeded, NoFailure)
      else Returned(FailedRun, if says != "" then Says(says) else Exited(res.exitCode))
  }

  /** What both kinds of run leave of their sandbox: it was started once or not at all, a success
      means that its session ended with exit code 0, and every id obtained was terminated once. */
  twostate predicate Accounted(box: S.Box, o: Outcome, chunks: seq<seq<Byte>>, how: S.Followed)
    reads box
  {
    && box.starts == old(box.starts) + (if o.AfterStart() then 1 else 0)
    && (o.Interrupted? ==> box.ctxDone)
    && (o.AfterStart() ==> box.refused == old(box.refused))
    && (o.Succeeded? <==> o.AfterStart() && how.ended && how.session.Session? && how.session.exit == Some(0))
    && old(box.obtained) <= box.obtained && |box.obtained| <= |old(box.obtained)| + 1
    && box.terminated == old(box.terminated) + box.obtained[|old(box.obtained)|..]
    && (!o.AfterStart() ==> chunks == [])
    && (o.AfterStart() ==> S.Delivered(chunks, box.file))
    && (o.AfterStart() && how.complete ==> Flatten(chunks) == box.file && !box.open)
    && (o.AfterStart() && how.ended ==> S.LastDrained(chunks, box.file, how) && !box.open)
  }

  /**
   What a run whose process was started reports, by how its tail loop ended: as its session says, unless
   the loop gave it up for lost, was interrupted or passed its deadline; `says`: the flow's own error.
   */
  ghost predicate Reports(r: Returned, how: S.Followed, says: string) {
    if how.ended then
      && how.session.Session?
      && var s := how.session;
      r == if s.exit == Some(0) then Returned(Succeeded, NoFailure)
           else if s.exit.Some? then Returned(FailedRun, if says != "" then Says(says) else Exited(s.exit.value))
           else if s.status == "FAILED" then Returned(Broken, NoFailure)
           else Returned(FailedRun, TimedOut)
    else if S.Trailing(how.failed) == 20 then r == Returned(Broken, NoFailure)
    else r == Returned(Interrupted, NoFailure) || r == Returned(FailedRun, TimedOut)
  }

  lemma {:induction false} Classified(res: S.Result, err: S.RunError, how: S.Followed, says: string)
    requires !err.StartError? && (err.Lost? <==> S.Trailing(how.failed) == S.MAX_FAILURES)
    requires how.ended ==> S.Concludes(how.session, res, err) && !err.Lost?
    requires !how.ended ==> err.Lost? || err.ContextEnded? || (err.NoError? && res == S.Result(-1, true))
    ensures Reports(Classify(res, err, says), how, says)
  {
    hide S.Trailing;
  }

  /** So the step system's guard on a run's return admits it: a process that was started came back as one
      that was. */
  twostate lemma ReturnIsEnabled(box: S.Box, o: Outcome, chunks: seq<seq<Byte>>, how: S.Followed, s: Runner.State,
                                 i: nat, h: Runner.Handler)
    requires Accounted(box, o, chunks, how) && s.ctxDone == box.ctxDone
    requires h.pc == if box.starts > old(box.starts) then Runner.Started else Runner.Admitted
    ensures Runner.EnabledAt(s, Runner.Return(i, o), h)
  {
  }

  /** What the base's digest is after a run that used it. */
  function ShellBaseAfter(c: NamedBases.Config, s: NamedBases.State, ask: NamedBases.Event,
                          err: S.RunError): NamedBases.State
    requires ask.Ask?
  {
    var t := NamedBases.Next(c, s, ask);
    if err == S.StartError(S.BaseNotFound) && t.digest != "" then NamedBases.Next(c, t, NamedBases.Forget(t.digest))
    else t
  }

  /** A digest the Box does not know is forgotten, and nothing else. */
  lemma {:induction false} UnknownIsForgotten(c: NamedBases.Config, s: NamedBases.State, listing: BoxBases.Listing,
                                              now: int, err: S.RunError)
    ensures var asked := NamedBases.Next(c, s, NamedBases.Ask(listing, now));
            ShellBaseAfter(c, s, NamedBases.Ask(listing, now), err)
            == if err == S.StartError(S.BaseNotFound) then asked.(digest := "") else asked
  {
    var asked := NamedBases.Next(c, s, NamedBases.Ask(listing, now));
    hide NamedBases.Next;
    ForgetsItsDigest(c, asked);
  }

  lemma {:induction false} ForgetsItsDigest(c: NamedBases.Config, t: NamedBases.State)
    ensures NamedBases.Next(c, t, NamedBases.Forget(t.digest)) == t.(digest := "")
  {
  }

  lemma {:induction false} UnknownFlowBaseIsForgotten(name: string, s: FlowBases.State, listing: BoxBases.Listing,
                                                      err: S.RunError)
    ensures var asked := FlowBases.Next(name, s, FlowBases.Ask(listing));
            FlowBaseAfter(name, s, FlowBases.Ask(listing), err)
            == if err == S.StartError(S.BaseNotFound) then asked.(digest := "") else asked
  {
    var asked := FlowBases.Next(name, s, FlowBases.Ask(listing));
    hide FlowBases.Next;
    FlowForgetsItsDigest(name, asked);
  }

  lemma {:induction false} FlowForgetsItsDigest(name: string, t: FlowBases.State)
    ensures FlowBases.Next(name, t, FlowBases.Forget(t.digest)) == t.(digest := "")
  {
  }

  /** The shell run's output callback over a whole run, and what it does at the end. */
  method Collect(chunks: seq<seq<Byte>>) returns (output: seq<Byte>, cut: bool, published: seq<seq<Byte>>)
    ensures output == ShellOutput.LastBytes(Flatten(chunks), ShellOutput.MAX_RESULT)
    ensures cut <==> |Flatten(chunks)| > ShellOutput.MAX_RESULT
    ensures published == OutputEvents.RunEvents(chunks, ShellOutput.MAX_EVENT)
  {
    hide OutputEvents.RunEvents, ShellOutput.LastBytes, Flatten, OutputEvents.Carry, OutputEvents.Published;
    var sink := new ShellOutput.ShellSink();
    for i := 0 to |chunks|
      invariant sink.Valid() && sink.chunks == chunks[..i]
      invariant fresh(sink) && fresh(sink.out)
    {
      assert chunks[..i + 1] == chunks[..i] + [chunks[i]];
      sink.OnChunk(chunks[i]);
    }
    assert chunks[..|chunks|] == chunks;
    sink.Finish();
    return sink.out.b, sink.out.cut, sink.published;
  }

  /** Everything up to the sandbox. `creds`: the run's variables, none if they could not be resolved;
      `listing`, `now`: what the Box and the clock answer if the base comes to asking them. */
  method PrepareShell(base: NamedBases.NamedBase, creds: Option<seq<(string, string)>>, listing: BoxBases.Listing,
                      now: int)
    returns (stop: Option<Outcome>, digest: string)
    modifies base
    ensures stop.Some? ==> stop.value.ConfigError? || stop.value.BasePending? || stop.value.StartFailed?
    ensures stop == Some(ConfigError) <==> creds.None? || !Nameable(creds.value)
    ensures stop == Some(ConfigError) ==> base.Abs() == old(base.Abs())
    ensures stop != Some(ConfigError) ==>
              && base.Abs() == NamedBases.Next(base.config, old(base.Abs()), NamedBases.Ask(listing, now))
              && (stop == Some(BasePending) <==>
                  NamedBases.Reply(base.config, old(base.Abs()), listing, now).StillPulling?)
              && (stop.None? <==> NamedBases.Reply(base.config, old(base.Abs()), listing, now).Digest?)
              && (stop.None? ==> base.digest == digest)
  {
    hide EnvFile.EnvText, NamedBases.Decide;
    digest := "";
    if creds.None? {
      return Some(ConfigError), digest;
    }
    var env := EnvFile.RenderEnvFile(creds.value);
    if env.InvalidName? {
      return Some(ConfigError), digest;
    }
    var answer := base.AskDigest(listing, now);
    if answer.StillPulling? {
      return Some(BasePending), digest;
    }
    if !answer.Digest? {
      return Some(StartFailed), digest;
    }
    return None, answer.digest;
  }

  method RunShell(box: S.Box, base: NamedBases.NamedBase, creds: Option<seq<(string, string)>>, timeout: int,
                  listing: BoxBases.Listing, now: int)
    returns (r: Returned, output: seq<Byte>, cut: bool, published: seq<seq<Byte>>,
             err: S.RunError, chunks: seq<seq<Byte>>, how: S.Followed)
    modifies box, base
    ensures r.o.ConfigError? <==> creds.None? || !Nameable(creds.value)
    ensures !r.o.ConfigError? ==>
              (r.o.BasePending? <==> NamedBases.Reply(base.config, old(base.Abs()), listing, now).StillPulling?)
    ensures !r.o.ConfigError? && !NamedBases.Reply(base.config, old(base.Abs()), listing, now).Digest? ==>
              (r.o.BasePending? || r.o.StartFailed?) && box.obtained == old(box.obtained)
    ensures Accounted(box, r.o, chunks, how)
    ensures r.o.AfterStart() ==> Reports(r, how, "") && box.written == old(box.written) + 2
    ensures box.logReads == old(box.logReads)
    ensures r.failure.TimedOut? && !how.ended ==>
              box.now >= old(box.now) + (if timeout <= 0 then 600 else timeout) + 15
    ensures output == ShellOutput.LastBytes(Flatten(chunks), 256 * 1024)
    ensures cut <==> |Flatten(chunks)| > 256 * 1024
    ensures published == OutputEvents.RunEvents(chunks, 32 * 1024)
    ensures base.Abs() == if r.o.ConfigError? then old(base.Abs())
                          else ShellBaseAfter(base.config, old(base.Abs()), NamedBases.Ask(listing, now), err)
  {
    hide S.Delivered, S.NeverLost, S.Trailing, S.LastDrained, OutputEvents.RunEvents, ShellOutput.LastBytes, Flatten,
         Nameable;
    hide NamedBases.Reply, NamedBases.Decide;
    output, cut, published, err, chunks := [], false, [], S.NoError, [];
    how := S.Followed(false, false, [], S.SessionError, 0, []);
    NoOutput();
    var stop, digest := PrepareShell(base, creds, listing, now);
    if stop.Some? {
      return Returned(stop.value, NoFailure), output, cut, published, err, chunks, how;
    }
    var res;
    res, err, chunks, how := S.RunSandboxJob(box, S.Job(2, true, false, timeout));
    output, cut, published := Collect(chunks);
    if err == S.StartError(S.BaseNotFound) {
      base.ForgetDigest(digest);
    }
    r := Classify(res, err, "");
    if !err.StartError? {
      Classified(res, err, how, "");
    }
  }

  lemma {:induction false} NoOutput()
    ensures Flatten<Byte>([]) == []
    ensures OutputEvents.RunEvents([], ShellOutput.MAX_EVENT) == []
    ensures ShellOutput.LastBytes([], ShellOutput.MAX_RESULT) == []
  {
  }

  function FlowBaseAfter(name: string, s: FlowBases.State, ask: FlowBases.Event, err: S.RunError): FlowBases.State
    requires ask.Ask?
  {
    var t := FlowBases.Next(name, s, ask);
    if err == S.StartError(S.BaseNotFound) && t.digest != "" then FlowBases.Next(name, t, FlowBases.Forget(t.digest))
    else t
  }

  // ── a flow's states ────────────────────────────────────────────────────────

  type FlowState = (seq<Byte>, seq<Byte>)

  /** Some of the items, in their order. */
  ghost predicate InOrder(some: seq<FlowState>, all: seq<FlowState>)
    decreases |all|
  {
    some == []
    || (all != [] && (InOrder(some, all[..|all| - 1])
                      || (some[|some| - 1] == all[|all| - 1] && InOrder(some[..|some| - 1], all[..|all| - 1]))))
  }

  lemma {:induction false} InOrderLater(some: seq<FlowState>, all: seq<FlowState>, more: seq<FlowState>)
    requires InOrder(some, all)
    ensures InOrder(some, all + more)
  {
    if more == [] {
      assert all + more == all;
    } else {
      InOrderLater(some, all, more[..|more| - 1]);
      assert (all + more)[..|all + more| - 1] == all + more[..|more| - 1];
    }
  }

  lemma {:induction false} InOrderSnoc(some: seq<FlowState>, all: seq<FlowState>, m: nat)
    requires m < |all| && InOrder(some, all[..m])
    ensures InOrder(some + [all[|all| - 1]], all)
  {
    var init := all[..|all| - 1];
    assert init == all[..m] + all[m..|all| - 1];
    InOrderLater(some, all[..m], all[m..|all| - 1]);
    assert (some + [all[|all| - 1]])[..|some|] == some;
  }

  /** The states of the run's row: the latest one is pending until the next poll writes it. */
  class StateSaver {
    var pending: seq<FlowState>
    var written: seq<FlowState>
    /** Every state handed on, and how many of them the writes cover. */
    ghost var states: seq<FlowState>
    ghost var covered: nat

    ghost predicate Valid()
      reads this
    {
      && covered <= |states| && InOrder(written, states[..covered])
      && (covered == 0 <==> written == [])
      && (covered > 0 ==> written[|written| - 1] == states[covered - 1])
      && pending == (if covered < |states| then [states[|states| - 1]] else [])
    }

    constructor ()
      ensures Valid() && states == []
    {
      pending, written, states, covered := [], [], [], 0;
    }

    /** The relay's callback, once for each of these states. */
    method Put(more: seq<FlowState>)
      requires Valid()
      modifies this`pending, this`states
      ensures Valid() && states == old(states) + more
    {
      hide InOrder;
      for i := 0 to |more|
        invariant Valid() && states == old(states) + more[..i]
      {
        assert more[..i + 1] == more[..i] + [more[i]];
        assert (states + [more[i]])[..covered] == states[..covered];
        pending, states := [more[i]], states + [more[i]];
      }
      assert more[..|more|] == more;
    }

    /** Every poll, and once the flow ended: a burst of states is one write. */
    method Save()
      requires Valid()
      modifies this`pending, this`written, this`covered
      ensures Valid() && covered == |states|
    {
      assert states[..|states|] == states;
      if |pending| > 0 {
        InOrderSnoc(written, states, covered);
        written := written + pending;
        pending, covered := [], |states|;
      }
    }
  }

  /** What a flow's row got, whatever the polls were: states handed on, in order, the last one last. */
  ghost predicate SavedLast(written: seq<FlowState>, states: seq<FlowState>) {
    && InOrder(written, states) && (written == [] <==> states == [])
    && (states != [] ==> written[|written| - 1] == states[|states| - 1])
  }

  lemma {:induction false} StatesGrow(config: FlowRelay.Config, a: seq<seq<Byte>>, b: seq<seq<Byte>>)
    ensures FlowRelay.States(config, a) <= FlowRelay.States(config, a + b)
  {
    if b == [] {
      assert a + b == a;
    } else {
      StatesGrow(config, a, b[..|b| - 1]);
      assert (a + b)[..|a + b| - 1] == a + b[..|b| - 1];
    }
  }

  /** The relay after `chunks`, and the saver that got its states. */
  ghost predicate Fed(relay: FlowRelay.FlowRelay, saver: StateSaver, chunks: seq<seq<Byte>>)
    reads relay, saver
  {
    relay.Valid() && relay.chunks == chunks && saver.Valid() && saver.states == relay.saved
  }

  /** One more chunk. */
  method Feed(relay: FlowRelay.FlowRelay, saver: StateSaver, ghost before: seq<seq<Byte>>, chunk: seq<Byte>, poll: bool)
    requires Fed(relay, saver, before)
    modifies relay, saver
    ensures Fed(relay, saver, before + [chunk])
    ensures poll ==> SavedLast(saver.written, relay.saved)
  {
    hide FlowRelay.HandledAll, Flatten, FlowRelay.Rest, FlowRelay.States, FlowRelay.Live, FlowRelay.LastOf, InOrder;
    ghost var handled := relay.handled;
    var n := |relay.saved|;
    FlowRelay.HandledSnoc(before, chunk, FlowRelay.MAX_LINE);
    relay.Write(chunk);
    GrownBy(relay, handled);
    saver.Put(relay.saved[n..]);
    if poll {
      saver.Save();
      AllCovered(saver);
    }
  }

  lemma {:induction false} GrownBy(relay: FlowRelay.FlowRelay, handled: seq<seq<Byte>>)
    requires handled <= relay.handled && relay.Effects()
    ensures FlowRelay.States(relay.config, handled) <= relay.saved
  {
    hide FlowRelay.States, FlowRelay.Live, FlowRelay.LastOf;
    assert relay.handled == handled + relay.handled[|handled|..];
    StatesGrow(relay.config, handled, relay.handled[|handled|..]);
  }

  /** The end of the run: a last line left open, and the last state. */
  method Finish(relay: FlowRelay.FlowRelay, saver: StateSaver)
    requires Fed(relay, saver, relay.chunks)
    modifies relay, saver
    ensures relay.Effects() && relay.chunks == old(relay.chunks) && relay.handled == AllHandled(relay.chunks)
    ensures SavedLast(saver.written, relay.saved)
  {
    hide FlowRelay.HandledAll, Flatten, FlowRelay.Rest, FlowRelay.States, FlowRelay.Live, FlowRelay.LastOf, InOrder;
    ghost var handled := relay.handled;
    var n := |relay.saved|;
    relay.Flush();
    assert handled <= relay.handled;
    GrownBy(relay, handled);
    assert relay.saved == saver.states + relay.saved[n..];
    saver.Put(relay.saved[n..]);
    saver.Save();
    AllCovered(saver);
  }

  lemma {:induction false} AllCovered(saver: StateSaver)
    requires saver.Valid() && saver.covered == |saver.states|
    ensures SavedLast(saver.written, saver.states)
  {
    hide InOrder;
    assert saver.states[..|saver.states|] == saver.states;
  }

  /** The flow's relay over a whole run; a poll follows chunk i when polls(i). */
  method Relay(config: FlowRelay.Config, chunks: seq<seq<Byte>>, polls: nat -> bool)
    returns (relay: FlowRelay.FlowRelay, written: seq<FlowState>)
    ensures fresh(relay) && relay.config == config && relay.Effects()
    ensures relay.handled == AllHandled(chunks)
    ensures SavedLast(written, relay.saved)
  {
    hide *;
    relay := new FlowRelay.FlowRelay(config);
    var saver := new StateSaver();
    NothingFed(relay, saver);
    FeedAll(relay, saver, chunks, polls);
    FedChunks(relay, saver, chunks);
    Finish(relay, saver);
    written := saver.written;
  }

  method FeedAll(relay: FlowRelay.FlowRelay, saver: StateSaver, chunks: seq<seq<Byte>>, polls: nat -> bool)
    requires Fed(relay, saver, [])
    modifies relay, saver
    ensures Fed(relay, saver, chunks)
  {
    hide *;
    assert chunks[..0] == [];
    for i := 0 to |chunks|
      invariant Fed(relay, saver, chunks[..i])
    {
      Feed(relay, saver, chunks[..i], chunks[i], polls(i));
      assert chunks[..i + 1] == chunks[..i] + [chunks[i]];
    }
    assert chunks[..|chunks|] == chunks;
  }

  lemma {:induction false} NothingFed(relay: FlowRelay.FlowRelay, saver: StateSaver)
    requires relay.Valid() && relay.chunks == [] && saver.Valid() && saver.states == []
    ensures Fed(relay, saver, [])
  {
    hide FlowRelay.Live, FlowRelay.LastOf, InOrder;
    NoStates(relay.config);
  }

  lemma {:induction false} FedChunks(relay: FlowRelay.FlowRelay, saver: StateSaver, chunks: seq<seq<Byte>>)
    requires Fed(relay, saver, chunks)
    ensures relay.chunks == chunks
  {
  }

  lemma {:induction false} NoStates(config: FlowRelay.Config)
    ensures FlowRelay.HandledAll([], FlowRelay.MAX_LINE) == [] && FlowRelay.States(config, []) == []
  {
  }

  /** The event lines handled in a whole run: those of the chunks, and a last one left open. */
  function AllHandled(chunks: seq<seq<Byte>>): seq<seq<Byte>> {
    var open := FlowRelay.Rest(Flatten(chunks));
    FlowRelay.HandledAll(chunks, FlowRelay.MAX_LINE) + (if 0 < |open| <= FlowRelay.MAX_LINE then [open] else [])
  }

  /** Everything up to the sandbox: why the run stops there, if it does, or the base's digest.
      `base` is null when the flow runner's sources could not be packed. */
  method PrepareFlow(base: FlowBases.FlowBase?, hasGraph: bool, env: seq<(string, string)>, listing: BoxBases.Listing)
    returns (stop: Option<Outcome>, digest: string)
    modifies base
    ensures stop.Some? ==> stop.value.ConfigError? || stop.value.BasePending? || stop.value.StartFailed?
    ensures stop == Some(ConfigError) <==>
              !hasGraph || base == null || FlowBases.Reply(base.name, old(base.Abs()), listing).BaseFailed?
              || (FlowBases.Reply(base.name, old(base.Abs()), listing).Digest? && !Nameable(env))
    ensures hasGraph && base != null ==>
              && (stop == Some(BasePending) <==> FlowBases.Reply(base.name, old(base.Abs()), listing).StillBuilding?)
              && base.Abs() == FlowBases.Next(base.name, old(base.Abs()), FlowBases.Ask(listing))
              && (stop.None? ==> base.digest == digest)
    ensures base != null && !hasGraph ==> base.Abs() == old(base.Abs())
  {
    hide EnvFile.EnvText, FlowBases.Decide;
    digest := "";
    if !hasGraph || base == null {
      return Some(ConfigError), digest;
    }
    var answer := base.AskDigest(listing);
    match answer {
      case StillBuilding => return Some(BasePending), digest;
      case BaseFailed => return Some(ConfigError), digest;
      case ListFailed => return Some(StartFailed), digest;
      case Digest(d) => digest := d;
    }
    var file := EnvFile.RenderEnvFile(env);
    stop := if file.InvalidName? then Some(ConfigError) else None;
  }

  method RunFlow(box: S.Box, base: FlowBases.FlowBase?, hasGraph: bool, env: seq<(string, string)>, timeout: int,
                 config: FlowRelay.Config, polls: nat -> bool, listing: BoxBases.Listing)
    returns (r: Returned, relay: FlowRelay.FlowRelay, written: seq<FlowState>, err: S.RunError, chunks: seq<seq<Byte>>,
             how: S.Followed)
    modifies box, base
    ensures r.o.ConfigError? <==>
              !hasGraph || base == null || FlowBases.Reply(base.name, old(base.Abs()), listing).BaseFailed?
              || (FlowBases.Reply(base.name, old(base.Abs()), listing).Digest? && !Nameable(env))
    ensures hasGraph && base != null ==>
              && (r.o.BasePending? <==> FlowBases.Reply(base.name, old(base.Abs()), listing).StillBuilding?)
              && base.Abs() == FlowBaseAfter(base.name, old(base.Abs()), FlowBases.Ask(listing), err)
    ensures base != null && !hasGraph ==> base.Abs() == old(base.Abs())
    ensures r.o.ConfigError? || r.o.BasePending? ==> box.obtained == old(box.obtained)
    ensures Accounted(box, r.o, chunks, how)
    ensures relay.config == config && relay.Effects() && relay.handled == AllHandled(chunks)
    ensures SavedLast(written, relay.saved)
    ensures r.o.AfterStart() ==> Reports(r, how, relay.error) && box.written == old(box.written) + 3
    ensures box.logReads == old(box.logReads) + (if r.o.Succeeded? || r.o.FailedRun? then 1 else 0)
    ensures r.failure.TimedOut? && !how.ended ==>
              box.now >= old(box.now) + (if timeout <= 0 then 600 else timeout) + 15
  {
    hide S.Delivered, S.NeverLost, S.Trailing, S.LastDrained, Flatten, AllHandled, SavedLast, Nameable, InOrder;
    hide FlowRelay.Live, FlowRelay.States, FlowRelay.LastOf, FlowRelay.HandledAll, FlowBases.Reply, FlowBases.Decide;
    err, chunks, how := S.NoError, [], S.Followed(false, false, [], S.SessionError, 0, []);
    var stop, digest := PrepareFlow(base, hasGraph, env, listing);
    if stop.Some? {
      relay, written := Relay(config, chunks, polls);
      return Returned(stop.value, NoFailure), relay, written, err, chunks, how;
    }
    var res;
    res, err, chunks, how := S.RunSandboxJob(box, S.Job(3, true, true, timeout));
    if err == S.StartError(S.BaseNotFound) {
      base.ForgetDigest(digest);
    }
    relay, written := Relay(config, chunks, polls);
    r := Classify(res, err, relay.error);
    if !err.StartError? {
      Classified(res, err, how, relay.error);
    }
  }

  /**
   A complete flow run from the file's side: the lines handled are lines of the events file, in order,
   once each, with every line of at most MAX_LINE bytes; and every one of them if no longer one exists.
   */
  lemma {:induction false} CompleteFlow(chunks: seq<seq<Byte>>, file: seq<Byte>) returns (keep: seq<bool>)
    requires S.Delivered(chunks, file) && Flatten(chunks) == file
    ensures FlowRelay.Fits(FlowRelay.Lines(file), keep, FlowRelay.MAX_LINE, FlowRelay.MAX_LINE + S.STREAM_CHUNK)
    ensures var open := FlowRelay.Rest(file);
            AllHandled(chunks) == FlowRelay.Pick(FlowRelay.Lines(file), keep)
                                  + (if 0 < |open| <= FlowRelay.MAX_LINE then [open] else [])
    ensures (forall l :: l in FlowRelay.Lines(file) ==> |l| <= 16 * 1024 * 1024) ==>
              FlowRelay.Pick(FlowRelay.Lines(file), keep) == FlowRelay.Lines(file)
  {
    hide FlowRelay.HandledAll, FlowRelay.Lines, FlowRelay.Rest, FlowRelay.Pick, FlowRelay.Fits, Flatten;
    keep := FlowRelay.FramingOfRun(chunks, FlowRelay.MAX_LINE, S.STREAM_CHUNK);
    if forall l :: l in FlowRelay.Lines(file) ==> |l| <= FlowRelay.MAX_LINE {
      FlowRelay.PickAll(FlowRelay.Lines(file), keep, FlowRelay.MAX_LINE, FlowRelay.MAX_LINE + S.STREAM_CHUNK);
    }
  }

  /**
   A complete shell run from the file's side: the record keeps exactly its last MAX_RESULT bytes, and
   a file of UTF-8 text reaches the live channel as it is, in events that are each UTF-8.
   */
  lemma {:induction false} CompleteShell(chunks: seq<seq<Byte>>, file: seq<Byte>)
    requires Flatten(chunks) == file
    ensures ShellOutput.LastBytes(Flatten(chunks), ShellOutput.MAX_RESULT)
            == file[if |file| > ShellOutput.MAX_RESULT then |file| - ShellOutput.MAX_RESULT else 0..]
    ensures Utf8.Valid(file) ==>
              && Flatten(OutputEvents.RunEvents(chunks, ShellOutput.MAX_EVENT)) == file
              && forall e :: e in OutputEvents.RunEvents(chunks, ShellOutput.MAX_EVENT) ==>
                   Utf8.Valid(e) && 1 <= |e| <= ShellOutput.MAX_EVENT
  {
    hide OutputEvents.RunEvents, Flatten, Utf8.Valid;
    OutputEvents.RunEventsCarryTheOutput(chunks, ShellOutput.MAX_EVENT);
  }
}
