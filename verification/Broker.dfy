/**
 The queue and its runners together: a broker that redelivers what is handed back, at most MAX_DELIVER
 times (JetStream's MaxDeliver), any number of runner processes taking deliveries from it, and the
 run's row. Assumed, as the source does: a held message is not redelivered (heartbeats arrive within
 AckWait), dispositions and row updates reach the broker and the database, metadata is readable, and
 a failed start of a process started nothing.
 */
module Broker {
  import opened Gates
  import opened Options
  import opened Outcomes
  import R = Runner

  datatype MsgState =
    | Waiting                   // in the queue
    | Held(r: nat, h: nat)      // delivered to runner r, its delivery h
    | Settled                   // acknowledged or terminated
    | Dead                      // handed back after its last delivery: never delivered again

  /** A message, its run's row, and what happened to it: processes started for it, and those of them
      cut short by a runner's shutdown. */
  datatype Msg = Msg(job: R.Job, st: MsgState, deliveries: nat, row: Row, starts: nat, cutShort: nat,
                     last: Option<Disposition>)

  datatype System = System(msgs: seq<Msg>, rs: seq<R.State>)

  function NewMsg(job: R.Job): Msg {
    Msg(job, Waiting, 0, Queued, 0, 0, None)
  }

  datatype Step = Deliver(m: nat, r: nat) | Local(r: nat, a: R.Action)

  predicate Enabled(sys: System, step: Step) {
    match step
    case Deliver(m, r) =>
      m < |sys.msgs| && r < |sys.rs| && sys.msgs[m].st == Waiting && sys.msgs[m].deliveries < MAX_DELIVER
      && sys.rs[r].phase != R.Closed
    case Local(r, a) => r < |sys.rs| && !a.Receive? && R.Enabled(sys.rs[r], a)
  }

  /** A delivery is settled with d; `recorded` is the final status written with it. */
  function Ended(msg: Msg, d: Disposition, recorded: Option<Row>, started: bool): Msg {
    msg.(last := Some(d),
         row := if recorded.Some? then recorded.value else msg.row,
         cutShort := if d.NakShutdown? && started then msg.cutShort + 1 else msg.cutShort,
         st := if d.Ends() then Settled else if msg.deliveries < MAX_DELIVER then Waiting else Dead)
  }

  /** The message of a handler's step: markRunning when the process starts, markResult when it is settled. */
  function MsgAfter(msg: Msg, s: R.State, a: R.Action, h: R.Handler): Msg
    requires R.EnabledAt(s, a, h)
  {
    var x := R.Moved(s, a, h);
    if a.Start? then msg.(starts := msg.starts + 1, row := Running)
    else if |x.disps| > |h.disps| then
      Ended(msg, x.disps[|h.disps|], if a.SettleIt? then Settle(h.pc.o, s.ctxDone, h.n).1 else None, h.started)
    else msg
  }

  function Apply(sys: System, step: Step): System
    requires Enabled(sys, step)
  {
    match step
    case Deliver(m, r) =>
      var msg, s := sys.msgs[m], sys.rs[r];
      System(sys.msgs[m := msg.(st := Held(r, |s.hs|), deliveries := msg.deliveries + 1)],
             sys.rs[r := R.Apply(s, R.Receive(m, msg.deliveries + 1, msg.job))])
    case Local(r, a) =>
      var s := sys.rs[r];
      var rs := sys.rs[r := R.Apply(s, a)];
      if a.OfHandler() && s.hs[a.h].msg < |sys.msgs| then
        var m := s.hs[a.h].msg;
        System(sys.msgs[m := MsgAfter(sys.msgs[m], s, a, s.hs[a.h])], rs)
      else System(sys.msgs, rs)
  }

  // ── the invariant ──────────────────────────────────────────────────────────

  predicate IsHandler(sys: System, r: nat, h: nat) {
    r < |sys.rs| && h < |sys.rs[r].hs|
  }

  function At(sys: System, r: nat, h: nat): R.Handler
    requires IsHandler(sys, r, h)
  {
    sys.rs[r].hs[h]
  }

  /** What holds of a message by where it is; `started`: the delivery that holds it started its process. */
  ghost predicate MsgOk(msg: Msg, started: bool) {
    && msg.deliveries <= MAX_DELIVER
    && (msg.job.Malformed? ==> msg.row == Queued && msg.starts == 0)
    && (!msg.row.Final() ==> (msg.row == Running <==> msg.starts > 0))
    && match msg.st
       case Waiting =>
         msg.deliveries < MAX_DELIVER && msg.starts == msg.cutShort && !msg.row.Final()
       case Held(_, _) =>
         msg.deliveries >= 1 && msg.starts == msg.cutShort + (if started then 1 else 0) && !msg.row.Final()
       case Settled =>
         && msg.last.Some? && msg.last.value.Ends()
         && (msg.row.Final() <==> msg.job.Job?)
         && msg.starts == msg.cutShort + (if msg.last.value.Ack? then 1 else 0)
         && (msg.row == RowSucceeded ==> msg.last.value.Ack?)
       case Dead =>
         && msg.deliveries == MAX_DELIVER && msg.starts == msg.cutShort && !msg.row.Final()
         && msg.last.Some? && (msg.last.value.NakDeferred? || msg.last.value.NakShutdown? || msg.last.value.NakClosing?)
  }

  ghost predicate HeldBy(sys: System, m: nat)
    requires m < |sys.msgs|
  {
    var msg := sys.msgs[m];
    if msg.st.Held? then
      && IsHandler(sys, msg.st.r, msg.st.h)
      && var x := At(sys, msg.st.r, msg.st.h); x.msg == m && x.n == msg.deliveries && R.Open(x) && MsgOk(msg, x.started)
    else MsgOk(msg, false)
  }

  ghost predicate DeliveryOk(sys: System, r: nat, h: nat)
    requires IsHandler(sys, r, h)
  {
    var x := At(sys, r, h);
    && x.msg < |sys.msgs|
    && var msg := sys.msgs[x.msg];
    && x.job == msg.job && 1 <= x.n <= msg.deliveries
    && (R.Open(x) ==> msg.st == Held(r, h))
    && (x.disps != [] && x.disps[0].Ends() ==> msg.st == Settled && x.n == msg.deliveries)
    && (x.disps != [] && x.n == msg.deliveries ==> !msg.st.Held? && msg.last == Some(x.disps[0]))
  }

  /** Two deliveries of one message have different delivery numbers. */
  ghost predicate Apart(sys: System, r: nat, h: nat, r2: nat, h2: nat)
    requires IsHandler(sys, r, h) && IsHandler(sys, r2, h2)
  {
    At(sys, r, h).msg == At(sys, r2, h2).msg && At(sys, r, h).n == At(sys, r2, h2).n ==> r == r2 && h == h2
  }

  ghost predicate Inv(sys: System) {
    && (forall r :: 0 <= r < |sys.rs| ==> R.Inv(sys.rs[r]))
    && (forall m :: 0 <= m < |sys.msgs| ==> HeldBy(sys, m))
    && (forall r, h :: IsHandler(sys, r, h) ==> DeliveryOk(sys, r, h))
    && (forall r, h, r2, h2 :: IsHandler(sys, r, h) && IsHandler(sys, r2, h2) ==> Apart(sys, r, h, r2, h2))
  }

  // ── a delivery ─────────────────────────────────────────────────────────────

  lemma {:induction false} DeliverMsgs(sys: System, step: Step)
    requires Inv(sys) && Enabled(sys, step) && step.Deliver?
    ensures forall m :: 0 <= m < |sys.msgs| ==> HeldBy(Apply(sys, step), m)
  {
    var sys' := Apply(sys, step);
    hide R.Inv, Apart, DeliveryOk;
    assert HeldBy(sys, step.m);
    forall m | 0 <= m < |sys.msgs| ensures HeldBy(sys', m) {
      assert HeldBy(sys, m);
    }
  }

  lemma {:induction false} DeliverDeliveries(sys: System, step: Step)
    requires Inv(sys) && Enabled(sys, step) && step.Deliver?
    ensures forall r, h :: IsHandler(Apply(sys, step), r, h) ==> DeliveryOk(Apply(sys, step), r, h)
  {
    var sys' := Apply(sys, step);
    hide R.Inv, MsgOk, Apart, HeldBy;
    forall r, h | IsHandler(sys', r, h) ensures DeliveryOk(sys', r, h) {
      if IsHandler(sys, r, h) {
        assert DeliveryOk(sys, r, h);
      }
    }
  }

  /** The new delivery has a number no earlier one of its message has. */
  lemma {:induction false} DeliverApart(sys: System, step: Step)
    requires Inv(sys) && Enabled(sys, step) && step.Deliver?
    ensures forall r, h, r2, h2 :: IsHandler(Apply(sys, step), r, h) && IsHandler(Apply(sys, step), r2, h2) ==>
              Apart(Apply(sys, step), r, h, r2, h2)
  {
    var sys' := Apply(sys, step);
    hide R.Inv, MsgOk, HeldBy;
    forall r, h, r2, h2 | IsHandler(sys', r, h) && IsHandler(sys', r2, h2) ensures Apart(sys', r, h, r2, h2) {
      if IsHandler(sys, r, h) {
        assert DeliveryOk(sys, r, h);
      }
      if IsHandler(sys, r2, h2) {
        assert DeliveryOk(sys, r2, h2);
      }
      if IsHandler(sys, r, h) && IsHandler(sys, r2, h2) {
        assert Apart(sys, r, h, r2, h2);
      }
    }
  }

  lemma {:induction false} DeliverInv(sys: System, step: Step)
    requires Inv(sys) && Enabled(sys, step) && step.Deliver?
    ensures Inv(Apply(sys, step))
  {
    hide R.Inv, HeldBy, DeliveryOk, Apart;
    DeliverRunner(sys, step);
    DeliverMsgs(sys, step);
    DeliverDeliveries(sys, step);
    DeliverApart(sys, step);
    hide Apply, Enabled;
    SameLength(sys, step);
  }

  lemma {:induction false} DeliverRunner(sys: System, step: Step)
    requires Inv(sys) && Enabled(sys, step) && step.Deliver?
    ensures forall r :: 0 <= r < |Apply(sys, step).rs| ==> R.Inv(Apply(sys, step).rs[r])
  {
    hide R.Inv, HeldBy, DeliveryOk, Apart;
    var m, r := step.m, step.r;
    R.StepInv(sys.rs[r], R.Receive(m, sys.msgs[m].deliveries + 1, sys.msgs[m].job));
    hide R.Apply;
  }

  lemma {:induction false} SameLength(sys: System, step: Step)
    requires Enabled(sys, step)
    ensures |Apply(sys, step).msgs| == |sys.msgs| && |Apply(sys, step).rs| == |sys.rs|
  {
    hide R.Apply, MsgAfter;
  }

  // ── a handler's step ───────────────────────────────────────────────────────

  /** What the step does to the handler's own message. */
  lemma {:induction false} MsgStep(msg: Msg, s: R.State, a: R.Action, h: R.Handler)
    requires R.EnabledAt(s, a, h) && R.HandlerOk(s, h) && (s.closing ==> s.ctxDone)
    requires h.job == msg.job && R.Open(h) && msg.st.Held? && h.n == msg.deliveries && MsgOk(msg, h.started)
    ensures var x, msg' := R.Moved(s, a, h), MsgAfter(msg, s, a, h);
            && msg'.job == msg.job && msg'.deliveries == msg.deliveries
            && MsgOk(msg', R.Open(x) && x.started)
            && (R.Open(x) ==> msg'.st == msg.st)
            && (!R.Open(x) ==>
                x.disps != [] && !msg'.st.Held? && msg'.last == Some(x.disps[0])
                    && (x.disps[0].Ends() ==> msg'.st == Settled))
  {
    if a.SettleIt? {
      SettleFacts(h.pc.o, s.ctxDone, h.n);
    }
  }

  /** After its disposition a delivery leaves its message alone. */
  lemma {:induction false} SettledStep(msg: Msg, s: R.State, a: R.Action, h: R.Handler)
    requires R.EnabledAt(s, a, h) && !R.Open(h)
    ensures MsgAfter(msg, s, a, h) == msg && !R.Open(R.Moved(s, a, h)) && R.Moved(s, a, h).disps == h.disps
  {
  }

  /** Steps of a handler change no delivery's message, number or job. */
  ghost predicate SameDeliveries(sys: System, sys': System) {
    && |sys'.rs| == |sys.rs| && |sys'.msgs| == |sys.msgs|
    && (forall r, h :: IsHandler(sys', r, h) ==>
          && IsHandler(sys, r, h)
          && At(sys', r, h).msg == At(sys, r, h).msg && At(sys', r, h).n == At(sys, r, h).n
              && At(sys', r, h).job == At(sys, r, h).job)
  }

  lemma {:induction false} StayApart(sys: System, sys': System)
    requires Inv(sys) && SameDeliveries(sys, sys')
    ensures forall r, h, r2, h2 :: IsHandler(sys', r, h) && IsHandler(sys', r2, h2) ==> Apart(sys', r, h, r2, h2)
  {
    hide R.Inv, HeldBy, DeliveryOk;
    forall r1, h1, r2, h2 | IsHandler(sys', r1, h1) && IsHandler(sys', r2, h2) ensures Apart(sys', r1, h1, r2, h2) {
      assert IsHandler(sys, r1, h1) && IsHandler(sys, r2, h2) && Apart(sys, r1, h1, r2, h2);
    }
  }

  /** The handler's message and the handler after its step, as the rest of the proof needs them. */
  ghost predicate Stepped(sys: System, step: Step, msg': Msg, x: R.Handler)
    requires Enabled(sys, step) && step.Local? && step.a.OfHandler() && IsHandler(sys, step.r, step.a.h)
  {
    var h := At(sys, step.r, step.a.h);
    && h.msg < |sys.msgs| && x.msg == h.msg && x.n == h.n && x.job == h.job
    && var msg := sys.msgs[h.msg];
    && msg'.job == msg.job && msg'.deliveries == msg.deliveries
    && (if R.Open(h) then
          && MsgOk(msg', R.Open(x) && x.started)
          && (R.Open(x) ==> msg'.st == msg.st && x.disps == [])
          && (!R.Open(x) ==>
              x.disps != [] && !msg'.st.Held? && msg'.last == Some(x.disps[0])
                  && (x.disps[0].Ends() ==> msg'.st == Settled))
        else msg' == msg && !R.Open(x) && x.disps == h.disps)
    && Apply(sys, step) == System(sys.msgs[h.msg := msg'], sys.rs[step.r := R.Apply(sys.rs[step.r], step.a)])
    && R.Apply(sys.rs[step.r], step.a).hs == sys.rs[step.r].hs[step.a.h := x]
  }

  lemma {:induction false} HandlerStepped(sys: System, step: Step) returns (msg': Msg, x: R.Handler)
    requires Inv(sys) && Enabled(sys, step) && step.Local? && step.a.OfHandler()
    ensures IsHandler(sys, step.r, step.a.h) && Stepped(sys, step, msg', x)
  {
    var r, a, s, h := step.r, step.a, sys.rs[step.r], step.a.h;
    assert IsHandler(sys, r, h) && DeliveryOk(sys, r, h);
    var y := s.hs[h];
    assert R.HandlerOk(s, y);
    R.MovedOk(s, a, y);
    x := R.Moved(s, a, y);
    assert HeldBy(sys, y.msg);
    msg' := MsgAfter(sys.msgs[y.msg], s, a, y);
    assert R.Open(x) ==> x.disps == [];
    hide R.Inv, R.Moved, R.SlotsAfter, R.InflightAfter, R.WgAfter, MsgAfter, MsgOk, R.EnabledAt, R.HandlerOk;
    if R.Open(y) {
      MsgStep(sys.msgs[y.msg], s, a, y);
    } else {
      SettledStep(sys.msgs[y.msg], s, a, y);
    }
  }

  lemma {:induction false} HandlerMsgs(sys: System, step: Step, msg': Msg, x: R.Handler)
    requires Inv(sys) && Enabled(sys, step) && step.Local? && step.a.OfHandler()
    requires IsHandler(sys, step.r, step.a.h) && Stepped(sys, step, msg', x)
    ensures forall m :: 0 <= m < |sys.msgs| ==> HeldBy(Apply(sys, step), m)
  {
    hide R.Inv, Apply, R.Apply, MsgOk, Enabled, Apart, R.Open;
    var sys' := Apply(sys, step);
    assert DeliveryOk(sys, step.r, step.a.h);
    hide Inv;
    forall m | 0 <= m < |sys.msgs| ensures HeldBy(sys', m) {
      InvAt(sys, m);
      HandlerMsg(sys, step, msg', x, m);
    }
  }

  lemma {:induction false} HandlerMsg(sys: System, step: Step, msg': Msg, x: R.Handler, m: nat)
    requires Enabled(sys, step) && step.Local? && step.a.OfHandler()
    requires IsHandler(sys, step.r, step.a.h) && Stepped(sys, step, msg', x)
    requires m < |sys.msgs| && HeldBy(sys, m) && DeliveryOk(sys, step.r, step.a.h)
    ensures HeldBy(Apply(sys, step), m)
  {
    hide Apply, R.Apply, MsgOk, Enabled;
    var sys' := Apply(sys, step);
    if m != x.msg && sys.msgs[m].st.Held? {
      assert At(sys', sys.msgs[m].st.r, sys.msgs[m].st.h) == At(sys, sys.msgs[m].st.r, sys.msgs[m].st.h);
    }
  }

  lemma {:induction false} InvAt(sys: System, m: nat)
    requires Inv(sys) && m < |sys.msgs|
    ensures HeldBy(sys, m)
  {
  }

  lemma {:induction false} HandlerDelivery(sys: System, step: Step, msg': Msg, x: R.Handler, r: nat, h: nat)
    requires Inv(sys) && Enabled(sys, step) && step.Local? && step.a.OfHandler()
    requires IsHandler(sys, step.r, step.a.h) && Stepped(sys, step, msg', x) && IsHandler(sys, r, h)
    ensures IsHandler(Apply(sys, step), r, h) && DeliveryOk(Apply(sys, step), r, h)
  {
    hide R.Inv, Apply, R.Apply, MsgOk, Enabled, R.Open;
    var sys' := Apply(sys, step);
    assert HeldBy(sys, x.msg);
    assert DeliveryOk(sys, step.r, step.a.h);
    assert DeliveryOk(sys, r, h);
    assert Apart(sys, step.r, step.a.h, r, h);
    hide Inv;
    if r == step.r && h == step.a.h {
      assert At(sys', r, h) == x;
    } else {
      assert At(sys', r, h) == At(sys, r, h);
    }
  }

  lemma {:induction false} HandlerDeliveries(sys: System, step: Step, msg': Msg, x: R.Handler)
    requires Inv(sys) && Enabled(sys, step) && step.Local? && step.a.OfHandler()
    requires IsHandler(sys, step.r, step.a.h) && Stepped(sys, step, msg', x)
    ensures SameDeliveries(sys, Apply(sys, step))
    ensures forall r, h :: IsHandler(Apply(sys, step), r, h) ==> DeliveryOk(Apply(sys, step), r, h)
  {
    var sys' := Apply(sys, step);
    hide Inv, Apply, R.Apply, MsgOk, Enabled, HeldBy, DeliveryOk;
    forall r, h | IsHandler(sys', r, h) ensures DeliveryOk(sys', r, h) {
      assert IsHandler(sys, r, h);
      HandlerDelivery(sys, step, msg', x, r, h);
    }
  }

  lemma {:induction false} HandlerInv(sys: System, step: Step)
    requires Inv(sys) && Enabled(sys, step) && step.Local? && step.a.OfHandler()
    ensures Inv(Apply(sys, step))
  {
    var msg', x := HandlerStepped(sys, step);
    HandlerMsgs(sys, step, msg', x);
    HandlerDeliveries(sys, step, msg', x);
    StayApart(sys, Apply(sys, step));
    R.StepInv(sys.rs[step.r], step.a);
    hide R.Inv, R.Apply, HeldBy, DeliveryOk, Apart, R.Enabled;
  }

  /** A step of the main goroutine. */
  lemma {:induction false} OtherInv(sys: System, step: Step)
    requires Inv(sys) && Enabled(sys, step) && step.Local? && !step.a.OfHandler()
    ensures Inv(Apply(sys, step))
  {
    var sys' := Apply(sys, step);
    R.StepInv(sys.rs[step.r], step.a);
    assert sys'.rs[step.r].hs == sys.rs[step.r].hs;
    hide R.Inv, R.Apply, R.Enabled, MsgOk, Apart;
    forall m | 0 <= m < |sys'.msgs| ensures HeldBy(sys', m) {
      assert HeldBy(sys, m);
    }
    forall r, h | IsHandler(sys', r, h) ensures DeliveryOk(sys', r, h) {
      assert IsHandler(sys, r, h) && DeliveryOk(sys, r, h);
    }
    StayApart(sys, sys');
  }

  lemma {:induction false} StepInv(sys: System, step: Step)
    requires Inv(sys) && Enabled(sys, step)
    ensures Inv(Apply(sys, step))
  {
    hide Inv, Enabled, Apply;
    if step.Deliver? {
      DeliverInv(sys, step);
    } else if step.a.OfHandler() {
      HandlerInv(sys, step);
    } else {
      OtherInv(sys, step);
    }
  }

  // ── every run of the whole system ──────────────────────────────────────────

  /** Nothing delivered yet, every runner just started with its own caps. */
  function Begin(jobs: seq<R.Job>, caps: seq<(nat, int)>): System {
    System(seq(|jobs|, i requires 0 <= i < |jobs| => NewMsg(jobs[i])),
           seq(|caps|, i requires 0 <= i < |caps| => R.Initial(caps[i].0, caps[i].1)))
  }

  ghost predicate LegalRun(sys: System, steps: seq<Step>)
    decreases |steps|
  {
    steps == [] || (Enabled(sys, steps[0]) && LegalRun(Apply(sys, steps[0]), steps[1..]))
  }

  ghost function Exec(sys: System, steps: seq<Step>): System
    requires LegalRun(sys, steps)
    decreases |steps|
  {
    if steps == [] then sys else Exec(Apply(sys, steps[0]), steps[1..])
  }

  /** At the beginning every job waits, queued and never delivered; a message's first delivery is number 1
      and each later one a number more. */
  lemma {:induction false} DeliveriesAreNumbered(jobs: seq<R.Job>, caps: seq<(nat, int)>, sys: System, m: nat, r: nat)
    requires Enabled(sys, Deliver(m, r))
    ensures forall i :: 0 <= i < |jobs| ==> Begin(jobs, caps).msgs[i] == Msg(jobs[i], Waiting, 0, Queued, 0, 0, None)
    ensures forall i :: 0 <= i < |caps| ==> Begin(jobs, caps).rs[i] == R.Initial(caps[i].0, caps[i].1)
    ensures var sys', h := Apply(sys, Deliver(m, r)), |sys.rs[r].hs|;
            && sys'.msgs[m] == sys.msgs[m].(st := Held(r, h), deliveries := sys.msgs[m].deliveries + 1)
            && IsHandler(sys', r, h)
            && At(sys', r, h) == R.Handler(m, sys.msgs[m].deliveries + 1, sys.msgs[m].job, R.Callback, [], false)
  {
  }

  lemma {:induction false} BeginInv(jobs: seq<R.Job>, caps: seq<(nat, int)>)
    ensures Inv(Begin(jobs, caps))
  {
    forall r | 0 <= r < |caps| ensures R.Inv(Begin(jobs, caps).rs[r]) {
      R.InitialInv(caps[r].0, caps[r].1);
    }
  }

  lemma {:induction false} RunInv(sys: System, steps: seq<Step>)
    requires Inv(sys) && LegalRun(sys, steps)
    ensures Inv(Exec(sys, steps))
    decreases |steps|
  {
    hide Inv, Enabled, Apply;
    if steps != [] {
      StepInv(sys, steps[0]);
      RunInv(Apply(sys, steps[0]), steps[1..]);
    }
  }

  // ── started once ───────────────────────────────────────────────────────────

  /** Of two deliveries of one message the earlier was settled, without ending the message. */
  lemma {:induction false} EarlierHandedBack(sys: System, r: nat, h: nat, r2: nat, h2: nat)
    requires Inv(sys) && IsHandler(sys, r, h) && IsHandler(sys, r2, h2)
    requires At(sys, r, h).msg == At(sys, r2, h2).msg && At(sys, r, h).n < At(sys, r2, h2).n
    ensures var x := At(sys, r, h); |x.disps| == 1 && !x.disps[0].Ends() && R.HandlerOk(sys.rs[r], x)
  {
    hide Apart;
    var x := At(sys, r, h);
    assert DeliveryOk(sys, r, h) && DeliveryOk(sys, r2, h2) && HeldBy(sys, x.msg);
    assert R.Inv(sys.rs[r]) && R.HandlerOk(sys.rs[r], x);
  }

  /** If both deliveries started the process of one message, they are the same, or the earlier was cut
      short because its runner was stopping and was handed back by its shutdown Nak alone. */
  predicate CutShortOrSame(sys: System, r: nat, h: nat, r2: nat, h2: nat)
    requires IsHandler(sys, r, h) && IsHandler(sys, r2, h2)
  {
    var x, y := At(sys, r, h), At(sys, r2, h2);
    x.msg == y.msg && x.started && y.started ==>
      if x.n < y.n then x.disps == [NakShutdown] && sys.rs[r].ctxDone
      else if y.n < x.n then y.disps == [NakShutdown] && sys.rs[r2].ctxDone
      else r == r2 && h == h2
  }

  lemma {:induction false} StartedApart(sys: System, r: nat, h: nat, r2: nat, h2: nat)
    requires Inv(sys) && IsHandler(sys, r, h) && IsHandler(sys, r2, h2)
    ensures CutShortOrSame(sys, r, h, r2, h2)
  {
    var x, y := At(sys, r, h), At(sys, r2, h2);
    assert Apart(sys, r, h, r2, h2);
    hide Inv;
    if x.msg == y.msg && x.n < y.n {
      EarlierHandedBack(sys, r, h, r2, h2);
    } else if x.msg == y.msg && y.n < x.n {
      EarlierHandedBack(sys, r2, h2, r, h);
    }
  }

  /**
   In every state of every run: once a delivery of a message has started its process, an earlier one
   that did too was cut short because its runner was stopping, and was handed back by exactly that
   shutdown Nak. So no process is started twice but for shutdowns.
   */
  lemma {:induction false} StartedOnce(jobs: seq<R.Job>, caps: seq<(nat, int)>, steps: seq<Step>)
    requires LegalRun(Begin(jobs, caps), steps)
    ensures var sys := Exec(Begin(jobs, caps), steps);
            && (forall r: nat, h: nat, r2: nat, h2: nat :: IsHandler(sys, r, h) && IsHandler(sys, r2, h2) ==>
                  CutShortOrSame(sys, r, h, r2, h2))
            && (forall m :: 0 <= m < |sys.msgs| ==> sys.msgs[m].starts <= sys.msgs[m].cutShort + 1)
  {
    var begin := Begin(jobs, caps);
    var sys := Exec(begin, steps);
    BeginInv(jobs, caps);
    RunInv(begin, steps);
    hide LegalRun, Exec, R.Inv, Begin, Apart;
    forall r: nat, h: nat, r2: nat, h2: nat | IsHandler(sys, r, h) && IsHandler(sys, r2, h2)
      ensures CutShortOrSame(sys, r, h, r2, h2)
    {
      StartedApart(sys, r, h, r2, h2);
    }
    forall m | 0 <= m < |sys.msgs| ensures sys.msgs[m].starts <= sys.msgs[m].cutShort + 1 {
      assert HeldBy(sys, m);
    }
  }

  // ── what a handler's steps make of its message ─────────────────────────────

  /** The message a delivery belongs to is held by it until it is settled. */
  lemma {:induction false} HandlersMessage(sys: System, r: nat, h: nat)
    requires Inv(sys) && IsHandler(sys, r, h)
    ensures var x := At(sys, r, h);
            && x.msg < |sys.msgs| && x.job == sys.msgs[x.msg].job
            && (R.Open(x) ==> sys.msgs[x.msg].st == Held(r, h) && sys.msgs[x.msg].deliveries == x.n <= MAX_DELIVER)
  {
    hide Apart;
    var x := At(sys, r, h);
    assert DeliveryOk(sys, r, h) && HeldBy(sys, x.msg);
  }

  /**
   How a settlement ends. A job that ran to its end is recorded as it went and its message is gone. After
   any error while its runner stops the row stays as it was and, short of its last delivery, the message
   waits for another one. Else a job that never can run or did not start in time is recorded failed, and
   so is one whose sandbox was lost; one that did not start waits for its next delivery.
   */
  lemma {:induction false} AfterSettling(sys: System, r: nat, h: nat)
    requires Inv(sys) && Enabled(sys, Local(r, R.SettleIt(h)))
    ensures var x, sys' := sys.rs[r].hs[h], Apply(sys, Local(r, R.SettleIt(h)));
            && x.msg < |sys.msgs|
            && var msg, o := sys.msgs[x.msg], x.pc.o;
            && sys'.msgs == sys.msgs[x.msg := sys'.msgs[x.msg]]
            && sys'.msgs[x.msg]
               == if o.Succeeded? then msg.(st := Settled, row := RowSucceeded, last := Some(Ack))
                  else if o.FailedRun? then msg.(st := Settled, row := RowFailed, last := Some(Ack))
                  else if sys.rs[r].ctxDone then
                    msg.(st := if x.n < MAX_DELIVER then Waiting else Dead, last := Some(NakShutdown),
                         cutShort := msg.cutShort + if x.started then 1 else 0)
                  else if o.Broken? then msg.(st := Settled, row := RowFailed, last := Some(Ack))
                  else if o.ConfigError? || x.n == MAX_DELIVER then
                    msg.(st := Settled, row := RowFailed, last := Some(Term))
                  else msg.(st := Waiting, last := Some(NakRetry(if o.BasePending? then 15 else 5)))
  {
    HandlersMessage(sys, r, h);
    assert R.Inv(sys.rs[r]);
    hide Inv, Settle, R.Inv, R.Moved, MsgAfter, Ended;
    OneMessage(sys, r, R.SettleIt(h));
    SettledAs(sys.msgs[sys.rs[r].hs[h].msg], sys.rs[r], h);
  }

  /** A handler's step changes its own message alone. */
  lemma {:induction false} OneMessage(sys: System, r: nat, a: R.Action)
    requires Enabled(sys, Local(r, a)) && a.OfHandler() && sys.rs[r].hs[a.h].msg < |sys.msgs|
    ensures var m, sys' := sys.rs[r].hs[a.h].msg, Apply(sys, Local(r, a));
            && sys'.msgs == sys.msgs[m := MsgAfter(sys.msgs[m], sys.rs[r], a, sys.rs[r].hs[a.h])]
            && sys'.rs[r] == R.Apply(sys.rs[r], a)
  {
    hide MsgAfter, R.Apply;
  }

  lemma {:induction false} SettledAs(msg: Msg, s: R.State, h: nat)
    requires R.Inv(s) && R.Enabled(s, R.SettleIt(h)) && msg.deliveries == s.hs[h].n <= MAX_DELIVER
    ensures var x := s.hs[h];
            var o := x.pc.o;
            MsgAfter(msg, s, R.SettleIt(h), x)
            == if o.Succeeded? then msg.(st := Settled, row := RowSucceeded, last := Some(Ack))
               else if o.FailedRun? then msg.(st := Settled, row := RowFailed, last := Some(Ack))
               else if s.ctxDone then
                 msg.(st := if x.n < MAX_DELIVER then Waiting else Dead, last := Some(NakShutdown),
                      cutShort := msg.cutShort + if x.started then 1 else 0)
               else if o.Broken? then msg.(st := Settled, row := RowFailed, last := Some(Ack))
               else if o.ConfigError? || x.n == MAX_DELIVER then
                 msg.(st := Settled, row := RowFailed, last := Some(Term))
               else msg.(st := Waiting, last := Some(NakRetry(if o.BasePending? then 15 else 5)))
  {
    var x := s.hs[h];
    assert R.HandlerOk(s, x);
    SettleFacts(x.pc.o, s.ctxDone, x.n);
    hide Settle, R.Inv;
  }

  /** A delivery that a closing runner or a gate turns away leaves its row as it was and, short of the last
      delivery, its message waiting; one that they let pass changes neither. */
  lemma {:induction false} AfterAGate(sys: System, r: nat, a: R.Action)
    requires Inv(sys) && Enabled(sys, Local(r, a)) && (a.Enter? || a.Gate1? || a.Gate2?)
    ensures var x, sys' := sys.rs[r].hs[a.h], Apply(sys, Local(r, a));
            && x.msg < |sys.msgs|
            && var msg, y := sys.msgs[x.msg], sys'.rs[r].hs[a.h];
            && sys'.msgs == sys.msgs[x.msg := sys'.msgs[x.msg]]
            && sys'.msgs[x.msg]
               == if R.Open(y) then msg
                  else if a.Gate1? && x.job.Malformed? then msg.(st := Settled, last := Some(Term))
                  else msg.(st := if x.n < MAX_DELIVER then Waiting else Dead,
                            last := Some(if a.Enter? then NakClosing else NakDeferred))
  {
    HandlersMessage(sys, r, a.h);
    assert R.Inv(sys.rs[r]);
    hide Inv, Settle, R.Inv, R.Moved, MsgAfter, Ended;
    OneMessage(sys, r, a);
    GatedAs(sys.msgs[sys.rs[r].hs[a.h].msg], sys.rs[r], a);
  }

  lemma {:induction false} GatedAs(msg: Msg, s: R.State, a: R.Action)
    requires R.Inv(s) && R.Enabled(s, a) && (a.Enter? || a.Gate1? || a.Gate2?)
    requires msg.deliveries == s.hs[a.h].n <= MAX_DELIVER
    ensures var x, y := s.hs[a.h], R.Apply(s, a).hs[a.h];
            MsgAfter(msg, s, a, x)
            == if R.Open(y) then msg
               else if a.Gate1? && x.job.Malformed? then msg.(st := Settled, last := Some(Term))
               else msg.(st := if x.n < MAX_DELIVER then Waiting else Dead,
                         last := Some(if a.Enter? then NakClosing else NakDeferred))
  {
    assert R.HandlerOk(s, s.hs[a.h]);
    hide Settle, R.Inv, R.SlotsAfter, R.InflightAfter, R.WgAfter;
  }

  /** When its process starts a job is recorded running, and nothing else about its message changes. */
  lemma {:induction false} AfterAStart(sys: System, r: nat, h: nat)
    requires Inv(sys) && Enabled(sys, Local(r, R.Start(h)))
    ensures var x, sys' := sys.rs[r].hs[h], Apply(sys, Local(r, R.Start(h)));
            && x.msg < |sys.msgs|
            && sys'.msgs == sys.msgs[x.msg := sys.msgs[x.msg].(row := Running, starts := sys.msgs[x.msg].starts + 1)]
            && sys'.rs[r].hs[h] == x.(pc := R.Started, started := true)
  {
    HandlersMessage(sys, r, h);
    hide Inv;
  }

  // ── a recorded status stays ────────────────────────────────────────────────

  lemma {:induction false} FinalStep(sys: System, step: Step, m: nat)
    requires Inv(sys) && Enabled(sys, step) && m < |sys.msgs| && sys.msgs[m].row.Final()
    ensures m < |Apply(sys, step).msgs| && Apply(sys, step).msgs[m] == sys.msgs[m]
  {
    assert HeldBy(sys, m) && sys.msgs[m].st == Settled;
    if step.Local? && step.a.OfHandler() {
      var s, h := sys.rs[step.r], sys.rs[step.r].hs[step.a.h];
      assert IsHandler(sys, step.r, step.a.h) && DeliveryOk(sys, step.r, step.a.h);
      hide R.Inv, R.Apply, MsgAfter, R.Moved, HeldBy;
      if h.msg == m {
        SettledStep(sys.msgs[m], s, step.a, h);
      }
    }
  }

  /** A recorded succeeded or failed status is never overwritten, and its message never delivered again. */
  lemma {:induction false} FinalRowStays(sys: System, steps: seq<Step>, m: nat)
    requires Inv(sys) && LegalRun(sys, steps) && m < |sys.msgs| && sys.msgs[m].row.Final()
    ensures m < |Exec(sys, steps).msgs| && Exec(sys, steps).msgs[m] == sys.msgs[m]
    decreases |steps|
  {
    hide Inv, Enabled, Apply;
    if steps != [] {
      FinalStep(sys, steps[0], m);
      StepInv(sys, steps[0]);
      FinalRowStays(Apply(sys, steps[0]), steps[1..], m);
    }
  }

  // ── a runner that closes ───────────────────────────────────────────────────

  /** Exactly the messages whose callback has not yet run are still held by a runner that has closed its
      connection; none of them is in a process of this delivery, and none has a final row. */
  lemma {:induction false} HeldAtClose(sys: System, r: nat, h: nat)
    requires Inv(sys) && IsHandler(sys, r, h) && sys.rs[r].phase == R.Closed
    ensures var x := At(sys, r, h);
            && x.msg < |sys.msgs|
            && var msg := sys.msgs[x.msg];
            && (msg.st == Held(r, h) <==> x.pc == R.Callback)
            && (x.pc == R.Callback ==> msg.starts == msg.cutShort && !msg.row.Final())
  {
    hide Apart, R.Inv;
    var x := At(sys, r, h);
    assert R.Inv(sys.rs[r]) && DeliveryOk(sys, r, h) && HeldBy(sys, x.msg);
    R.UnsettledAtClose(sys.rs[r], h);
  }

  // ── the delivery budget ────────────────────────────────────────────────────

  /**
   The exact split after the last delivery a job may have. It ends the message and, unless the
   message was malformed, records a final status, if and only if it was acknowledged or terminated;
   otherwise it was an admission deferral or a shutdown Nak, and then the message is dead and its run
   is left queued or running for ever.
   */
  lemma {:induction false} LastDelivery(sys: System, r: nat, h: nat)
    requires Inv(sys) && IsHandler(sys, r, h) && At(sys, r, h).n == MAX_DELIVER && !R.Open(At(sys, r, h))
    ensures var x := At(sys, r, h);
            && x.msg < |sys.msgs| && |x.disps| == 1
            && var msg := sys.msgs[x.msg];
            && (x.disps[0].Ends() <==> msg.st == Settled)
            && (x.disps[0].Ends() && msg.job.Job? <==> msg.row.Final())
            && (x.disps[0].NakDeferred? || x.disps[0].NakShutdown? || x.disps[0].NakClosing? <==> msg.st == Dead)
            && (msg.st == Dead ==> msg.row == (if msg.starts > 0 then Running else Queued))
            && (msg.st == Settled || msg.st == Dead)
  {
    hide Apart;
    var x := At(sys, r, h);
    assert DeliveryOk(sys, r, h) && HeldBy(sys, x.msg) && R.HandlerOk(sys.rs[r], x);
  }

  /** The branches of a handler that hand a delivery back without looking at the budget. */
  predicate IgnoresBudget(s: R.State, a: R.Action, h: R.Handler) {
    match a
    case Enter(_) => s.closing
    case Gate1(_) => h.job.Job? && s.slots >= s.globalMax
    case Gate2(_) => h.job.Job? && Acquire(s.inflight, h.job.tenant, s.tenantMax).None?
    case SettleIt(_) => h.pc.Returned? && s.ctxDone && !h.pc.o.Succeeded? && !h.pc.o.FailedRun?
    case _ => false
  }

  lemma {:induction false} LastStep(msg: Msg, s: R.State, a: R.Action, h: R.Handler)
    requires R.EnabledAt(s, a, h) && R.HandlerOk(s, h)
    requires h.job == msg.job && R.Open(h) && msg.st.Held? && h.n == msg.deliveries == MAX_DELIVER
    ensures var x, msg' := R.Moved(s, a, h), MsgAfter(msg, s, a, h);
            && (msg'.st == Dead <==> IgnoresBudget(s, a, h))
            && (msg'.st == Settled <==> !R.Open(x) && !IgnoresBudget(s, a, h))
  {
    if a.SettleIt? {
      SettleFacts(h.pc.o, s.ctxDone, h.n);
    }
  }

  /**
   And by what the handler looks at rather than by what it answers: each step of a job's last delivery
   leaves the message dead if and only if the runner is closing when the delivery comes in, a gate
   refuses it, or the run comes back without its job having ended while the runner stops. Every other
   step that settles it ends the message.
   */
  lemma {:induction false} WhenTheLastDeliveryDies(sys: System, r: nat, a: R.Action)
    requires Inv(sys) && Enabled(sys, Local(r, a)) && a.OfHandler()
    requires var x := sys.rs[r].hs[a.h]; R.Open(x) && x.n == MAX_DELIVER
    ensures var x, sys' := sys.rs[r].hs[a.h], Apply(sys, Local(r, a));
            && x.msg < |sys'.msgs|
            && (sys'.msgs[x.msg].st == Dead <==> IgnoresBudget(sys.rs[r], a, x))
            && (sys'.msgs[x.msg].st == Settled <==> !R.Open(sys'.rs[r].hs[a.h]) && !IgnoresBudget(sys.rs[r], a, x))
  {
    hide Apart;
    var x := sys.rs[r].hs[a.h];
    assert IsHandler(sys, r, a.h) && DeliveryOk(sys, r, a.h) && HeldBy(sys, x.msg) && R.HandlerOk(sys.rs[r], x);
    LastStep(sys.msgs[x.msg], sys.rs[r], a, x);
    hide R.Inv, MsgAfter, IgnoresBudget, MsgOk, R.Moved, R.HandlerOk, R.SlotsAfter, R.InflightAfter, R.WgAfter;
  }

  /** No global slot is free. */
  predicate Full(sys: System, r: nat) {
    && r < |sys.rs| && sys.rs[r].slots >= sys.rs[r].globalMax
    && !sys.rs[r].closing && sys.rs[r].phase == R.Serving
  }

  lemma {:induction false} Prepend(sys: System, step: Step, t: System, steps: seq<Step>) returns (run: seq<Step>)
    requires Enabled(sys, step) && Apply(sys, step) == t && LegalRun(t, steps)
    ensures LegalRun(sys, run) && Exec(sys, run) == Exec(t, steps)
  {
    run := [step] + steps;
    assert run[1..] == steps;
  }

  /** One deferral: delivered, handed to a handler, refused at the first gate. */
  lemma {:induction false} Deferral(sys: System, r: nat, m: nat) returns (t: System, a: seq<System>)
    requires Full(sys, r) && m < |sys.msgs| && sys.msgs[m].st == Waiting && sys.msgs[m].job.Job?
    requires sys.msgs[m].deliveries < MAX_DELIVER
    ensures var h := |sys.rs[r].hs|;
            && |a| == 2 && Enabled(sys, Deliver(m, r)) && Apply(sys, Deliver(m, r)) == a[0]
            && Enabled(a[0], Local(r, R.Enter(h))) && Apply(a[0], Local(r, R.Enter(h))) == a[1]
            && Enabled(a[1], Local(r, R.Gate1(h))) && Apply(a[1], Local(r, R.Gate1(h))) == t
    ensures Full(t, r) && |t.msgs| == |sys.msgs|
    ensures var n := sys.msgs[m].deliveries + 1;
            t.msgs[m] == sys.msgs[m].(deliveries := n, last := Some(NakDeferred),
                                      st := if n < MAX_DELIVER then Waiting else Dead)
  {
    var h := |sys.rs[r].hs|;
    var s1 := Apply(sys, Deliver(m, r));
    var s2 := Apply(s1, Local(r, R.Enter(h)));
    t := Apply(s2, Local(r, R.Gate1(h)));
    a := [s1, s2];
  }

  /** While a runner has no slot free its deferrals alone can spend a job's whole budget. */
  lemma {:induction false} DeferralsSpendTheBudget(sys: System, r: nat, m: nat) returns (run: seq<Step>)
    requires Full(sys, r) && m < |sys.msgs| && sys.msgs[m].st == Waiting && sys.msgs[m].job.Job?
    requires sys.msgs[m].deliveries < MAX_DELIVER
    ensures LegalRun(sys, run) && m < |Exec(sys, run).msgs|
    ensures Exec(sys, run).msgs[m] == sys.msgs[m].(deliveries := MAX_DELIVER, last := Some(NakDeferred), st := Dead)
    decreases MAX_DELIVER - sys.msgs[m].deliveries
  {
    var h := |sys.rs[r].hs|;
    var t, a := Deferral(sys, r, m);
    hide Enabled, Apply, Full;
    run := [];
    if t.msgs[m].st == Waiting {
      run := DeferralsSpendTheBudget(t, r, m);
    }
    hide LegalRun, Exec;
    run := Prepend(a[1], Local(r, R.Gate1(h)), t, run);
    run := Prepend(a[0], Local(r, R.Enter(h)), a[1], run);
    run := Prepend(sys, Deliver(m, r), a[0], run);
  }

  /** The first job passes the first gate. */
  lemma {:induction false} FirstTakesTheSlot(first: string, second: string)
    returns (begin: System, s1: System, s2: System, s3: System)
    ensures begin == Begin([R.Job(first), R.Job(second)], [(1, 0)])
    ensures Enabled(begin, Deliver(0, 0)) && s1 == Apply(begin, Deliver(0, 0))
    ensures Enabled(s1, Local(0, R.Enter(0))) && s2 == Apply(s1, Local(0, R.Enter(0)))
    ensures Enabled(s2, Local(0, R.Gate1(0))) && s3 == Apply(s2, Local(0, R.Gate1(0)))
    ensures Full(s3, 0) && |s3.msgs| == 2 && s3.msgs[1] == NewMsg(R.Job(second))
  {
    begin := Begin([R.Job(first), R.Job(second)], [(1, 0)]);
    assert begin.msgs == [NewMsg(R.Job(first)), NewMsg(R.Job(second))] && begin.rs == [R.Initial(1, 0)];
    hide Begin, Settle, R.InflightAfter, Acquire, Release;
    s1 := Apply(begin, Deliver(0, 0));
    s2 := Apply(s1, Local(0, R.Enter(0)));
    s3 := Apply(s2, Local(0, R.Gate1(0)));
  }

  /** And from the very beginning: with one slot, taken by the first job for long enough, the second
      is never started and never recorded. */
  lemma {:induction false} NeverRecorded(first: string, second: string) returns (run: seq<Step>)
    ensures var begin := Begin([R.Job(first), R.Job(second)], [(1, 0)]);
            LegalRun(begin, run) && |Exec(begin, run).msgs| == 2
            && Exec(begin, run).msgs[1] == Msg(R.Job(second), Dead, MAX_DELIVER, Queued, 0, 0, Some(NakDeferred))
  {
    var begin, s1, s2, s3 := FirstTakesTheSlot(first, second);
    hide LegalRun, Exec, Apply, Enabled, Full, Begin;
    run := DeferralsSpendTheBudget(s3, 0, 1);
    SameMsgs(s3, run);
    run := Prepend(s2, Local(0, R.Gate1(0)), s3, run);
    run := Prepend(s1, Local(0, R.Enter(0)), s2, run);
    run := Prepend(begin, Deliver(0, 0), s1, run);
  }

  lemma {:induction false} SameMsgs(sys: System, steps: seq<Step>)
    requires LegalRun(sys, steps)
    ensures |Exec(sys, steps).msgs| == |sys.msgs|
    decreases |steps|
  {
    if steps != [] {
      SameMsgs(Apply(sys, steps[0]), steps[1..]);
    }
  }
}
