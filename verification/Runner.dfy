/**
 One runner process (runner/worker.go): any number of concurrent handlers under two admission gates,
 and its shutdown. Each step below is one critical section or one effect of the source; handlers and
 the main goroutine take them in any order.
 */
module Runner {
  import opened Gates
  import opened Options
  import opened Outcomes
  import opened Sequences

  datatype Job = Malformed | Job(tenant: string)

  /** Where a delivery is in its callback and handler. */
  datatype PC =
    | Callback              // the consumer's callback has the message
    | Fresh                 // a handler was started for it
    | HasGlobal             // past gate 1
    | Admitted              // past gate 2
    | Started               // the job's process runs
    | Returned(o: Outcome)  // the run came back
    | FreesTenant           // settled; the deferred releases are left
    | FreesGlobal
    | Leaves                // only jobs.Done() is left
    | Gone

  /** One delivery: its message, its delivery number, and every disposition issued for it. */
  datatype Handler = Handler(msg: nat, n: nat, job: Job, pc: PC, disps: seq<Disposition>, started: bool)

  datatype Phase = Serving | Waiting | Waited | Closed

  datatype State = State(
    globalMax: nat, tenantMax: int,
    hs: seq<Handler>,
    slots: nat,                   // len(globalSem)
    inflight: map<string, nat>,
    wg: nat,                      // the WaitGroup's counter
    ctxDone: bool, closing: bool,
    phase: Phase)

  function Initial(globalMax: nat, tenantMax: int): State {
    State(globalMax, tenantMax, [], 0, map[], 0, false, false, Serving)
  }

  // ── the steps ──────────────────────────────────────────────────────────────

  datatype Action =
    | Receive(msg: nat, n: nat, job: Job)
    | Enter(h: nat) | Gate1(h: nat) | Gate2(h: nat)
    | Start(h: nat) | Return(h: nat, o: Outcome) | SettleIt(h: nat)
    | FreeTenant(h: nat) | FreeGlobal(h: nat) | Leave(h: nat)
    | Cancel | Close | WaitReturns | Shut
  {
    /** Steps that change one handler. */
    predicate OfHandler() { !Receive? && !Cancel? && !Close? && !WaitReturns? && !Shut? }
  }

  predicate Enabled(s: State, a: Action) {
    if a.OfHandler() then a.h < |s.hs| && EnabledAt(s, a, s.hs[a.h])
    else
      match a
      case Receive(_, _, _) => s.phase != Closed
      case Cancel => true
      case Close => s.ctxDone && s.phase == Serving
      case WaitReturns => s.phase == Waiting && s.wg == 0
      case _ => s.phase == Waited
  }

  predicate EnabledAt(s: State, a: Action, h: Handler) {
    match a
    case Enter(_) => h.pc == Callback
    case Gate1(_) => h.pc == Fresh
    case Gate2(_) => h.pc == HasGlobal
    case Start(_) => h.pc == Admitted
    case Return(_, o) =>
      // an error after the start of the process is never one of those before it; a run is only cut
      // short by the runner's own context
      h.pc == (if o.AfterStart() then Started else Admitted) && (o.Interrupted? ==> s.ctxDone)
    case SettleIt(_) => h.pc.Returned?
    case FreeTenant(_) => h.pc == FreesTenant
    case FreeGlobal(_) => h.pc == FreesGlobal
    case Leave(_) => h.pc == Leaves
    case _ => false
  }

  function Dispose(h: Handler, d: Disposition, pc: PC): Handler {
    h.(disps := h.disps + [d], pc := pc)
  }

  /** The handler after its step. */
  function Moved(s: State, a: Action, h: Handler): Handler
    requires EnabledAt(s, a, h)
  {
    match a
    case Enter(_) => if s.closing then Dispose(h, NakClosing, Gone) else h.(pc := Fresh)
    case Gate1(_) =>
      if h.job.Malformed? then Dispose(h, Term, Leaves)
      else if s.slots < s.globalMax then h.(pc := HasGlobal)
      else Dispose(h, NakDeferred, Leaves)
    case Gate2(_) =>
      if h.job.Malformed? || Acquire(s.inflight, h.job.tenant, s.tenantMax).Some? then h.(pc := Admitted)
      else Dispose(h, NakDeferred, FreesGlobal)
    case Start(_) => h.(pc := Started, started := true)
    case Return(_, o) => h.(pc := Returned(o))
    case SettleIt(_) => Dispose(h, Settle(h.pc.o, s.ctxDone, h.n).0, FreesTenant)
    case FreeTenant(_) => h.(pc := FreesGlobal)
    case FreeGlobal(_) => h.(pc := Leaves)
    case _ => h.(pc := Gone)
  }

  /** globalSem's length after a handler's step. */
  function SlotsAfter(s: State, a: Action, h: Handler): nat
    requires EnabledAt(s, a, h)
  {
    match a
    case Gate1(_) => if Moved(s, a, h).pc == HasGlobal then s.slots + 1 else s.slots
    case FreeGlobal(_) => if s.slots > 0 then s.slots - 1 else 0
    case _ => s.slots
  }

  function InflightAfter(s: State, a: Action, h: Handler): map<string, nat>
    requires EnabledAt(s, a, h)
  {
    if h.job.Malformed? then s.inflight
    else
      match a
      case Gate2(_) =>
        (match Acquire(s.inflight, h.job.tenant, s.tenantMax) case Some(m) => m case None => s.inflight)
      case FreeTenant(_) => Release(s.inflight, h.job.tenant, s.tenantMax)
      case _ => s.inflight
  }

  /** jobs.Add(1) in the callback's critical section, jobs.Done() at the very end. */
  function WgAfter(s: State, a: Action, h: Handler): nat
    requires EnabledAt(s, a, h)
  {
    match a
    case Enter(_) => if s.closing then s.wg else s.wg + 1
    case Leave(_) => if s.wg > 0 then s.wg - 1 else 0
    case _ => s.wg
  }

  function Apply(s: State, a: Action): State
    requires Enabled(s, a)
  {
    if a.OfHandler() then
      var h := s.hs[a.h];
      s.(hs := s.hs[a.h := Moved(s, a, h)], slots := SlotsAfter(s, a, h),
         inflight := InflightAfter(s, a, h), wg := WgAfter(s, a, h))
    else
      match a
      case Receive(msg, n, job) => s.(hs := s.hs + [Handler(msg, n, job, Callback, [], false)])
      case Cancel => s.(ctxDone := true)
      case Close => s.(closing := true, phase := Waiting)
      case WaitReturns => s.(phase := Waited)
      case _ => s.(phase := Closed)
  }

  // ── the invariant ──────────────────────────────────────────────────────────

  predicate HoldsGlobal(h: Handler) {
    h.pc == HasGlobal || h.pc == FreesGlobal || HoldsTenant(h)
  }

  predicate HoldsTenant(h: Handler) {
    h.pc == Admitted || h.pc == Started || h.pc.Returned? || h.pc == FreesTenant
  }

  predicate InGroup(h: Handler) {
    h.pc != Callback && h.pc != Gone
  }

  function HolderOf(tenant: string): Handler -> bool {
    (h: Handler) => HoldsTenant(h) && h.job == Job(tenant)
  }

  /** Not yet settled. */
  predicate Open(h: Handler) {
    h.pc == Callback || h.pc == Fresh || h.pc == HasGlobal || h.pc == Admitted || h.pc == Started || h.pc.Returned?
  }

  ghost predicate HandlerOk(s: State, h: Handler) {
    && |h.disps| == (if Open(h) then 0 else 1)
    && (HoldsGlobal(h) ==> h.job.Job?)
    && (h.pc == Started ==> h.started)
    && (h.pc.Returned? ==> (h.started <==> h.pc.o.AfterStart()) && (h.pc.o.Interrupted? ==> s.ctxDone))
    && (Open(h) && h.pc != Started && !h.pc.Returned? ==> !h.started)
    && (h.disps != [] ==>
          && (h.started ==> h.disps[0].Ack? || h.disps[0].NakShutdown?)
          && (h.disps[0].Ack? ==> h.started)
          && (h.disps[0].NakShutdown? || h.disps[0].NakClosing? ==> s.ctxDone)
          && (h.disps[0].NakRetry? ==> h.n < MAX_DELIVER))
  }

  ghost predicate TenantOk(s: State, t: string) {
    if s.tenantMax <= 0 then t !in s.inflight
    else if t in s.inflight then 1 <= s.inflight[t] == Count(s.hs, HolderOf(t)) && s.inflight[t] <= s.tenantMax
    else Count(s.hs, HolderOf(t)) == 0
  }

  ghost predicate Inv(s: State) {
    && s.slots == Count(s.hs, HoldsGlobal) && s.slots <= s.globalMax
    && (forall t :: TenantOk(s, t))
    && s.wg == Count(s.hs, InGroup)
    && (forall i :: 0 <= i < |s.hs| ==> HandlerOk(s, s.hs[i]))
    && (s.closing <==> s.phase != Serving) && (s.closing ==> s.ctxDone)
    && (s.phase == Waited || s.phase == Closed ==> s.wg == 0)
  }

  lemma {:induction false} InitialInv(globalMax: nat, tenantMax: int)
    ensures Inv(Initial(globalMax, tenantMax))
  {
  }

  lemma {:induction false} MovedOk(s: State, a: Action, h: Handler)
    requires EnabledAt(s, a, h) && HandlerOk(s, h) && (s.closing ==> s.ctxDone)
    ensures HandlerOk(s, Moved(s, a, h))
    ensures Moved(s, a, h).msg == h.msg && Moved(s, a, h).n == h.n && Moved(s, a, h).job == h.job
  {
    if a.SettleIt? {
      SettleFacts(h.pc.o, s.ctxDone, h.n);
    }
  }

  function One(b: bool): nat { if b then 1 else 0 }

  lemma {:induction false} SlotsStep(s: State, a: Action, h: Handler)
    requires EnabledAt(s, a, h) && HandlerOk(s, h) && (HoldsGlobal(h) ==> s.slots > 0) && s.slots <= s.globalMax
    ensures SlotsAfter(s, a, h) + One(HoldsGlobal(h)) == s.slots + One(HoldsGlobal(Moved(s, a, h)))
    ensures SlotsAfter(s, a, h) <= s.globalMax
  {
  }

  lemma {:induction false} WgStep(s: State, a: Action, h: Handler)
    requires EnabledAt(s, a, h) && (InGroup(h) ==> s.wg > 0)
    ensures WgAfter(s, a, h) + One(InGroup(h)) == s.wg + One(InGroup(Moved(s, a, h)))
    ensures s.closing ==> WgAfter(s, a, h) <= s.wg
  {
  }

  /** One tenant's counter moves with the handlers that hold one of its slots. */
  lemma {:induction false} InflightStep(s: State, a: Action, h: Handler, t: string, holders: nat)
    requires EnabledAt(s, a, h) && HandlerOk(s, h)
    requires if s.tenantMax <= 0 then t !in s.inflight
             else if t in s.inflight then 1 <= s.inflight[t] == holders && holders <= s.tenantMax else holders == 0
    requires HolderOf(t)(h) ==> holders > 0
    ensures var m, held := InflightAfter(s, a, h), holders + One(HolderOf(t)(Moved(s, a, h))) - One(HolderOf(t)(h));
            if s.tenantMax <= 0 then t !in m
            else if t in m then 1 <= m[t] == held && held <= s.tenantMax else held == 0
  {
    hide Settle;
    var x := Moved(s, a, h);
    assert x.job == h.job;
    if a.Gate2? || a.FreeTenant? {
      assert h.job.Job?;
      if h.job.tenant != t {
        assert !HolderOf(t)(h) && !HolderOf(t)(x);
      }
    } else {
      assert InflightAfter(s, a, h) == s.inflight;
      assert HoldsTenant(x) == HoldsTenant(h);
    }
  }

  lemma {:induction false} CountHolds(hs: seq<Handler>, i: nat, x: Handler, p: Handler -> bool)
    requires i < |hs|
    ensures Count(hs[i := x], p) + One(p(hs[i])) == Count(hs, p) + One(p(x))
    ensures p(hs[i]) ==> Count(hs, p) > 0
  {
    CountUpdate(hs, i, x, p);
    CountZero(hs, p);
  }

  lemma {:induction false} TenantStep(s: State, a: Action, t: string)
    requires Enabled(s, a) && a.OfHandler() && TenantOk(s, t) && HandlerOk(s, s.hs[a.h])
    ensures TenantOk(Apply(s, a), t)
  {
    hide Moved, InflightAfter, SlotsAfter, WgAfter, EnabledAt, HandlerOk;
    var h := s.hs[a.h];
    CountHolds(s.hs, a.h, Moved(s, a, h), HolderOf(t));
    InflightStep(s, a, h, t, Count(s.hs, HolderOf(t)));
  }

  lemma {:induction false} HandlersStep(s: State, a: Action)
    requires Inv(s) && Enabled(s, a) && a.OfHandler()
    ensures forall i :: 0 <= i < |s.hs| ==> HandlerOk(Apply(s, a), Apply(s, a).hs[i])
    ensures forall t :: TenantOk(Apply(s, a), t)
  {
    hide Moved, InflightAfter, SlotsAfter, WgAfter, EnabledAt, TenantOk, HandlerOk;
    var s' := Apply(s, a);
    assert HandlerOk(s, s.hs[a.h]);
    MovedOk(s, a, s.hs[a.h]);
    forall t ensures TenantOk(s', t) {
      assert TenantOk(s, t);
      TenantStep(s, a, t);
    }
    forall i | 0 <= i < |s.hs| ensures HandlerOk(s', s'.hs[i]) {
      assert i != a.h ==> HandlerOk(s, s.hs[i]);
      SameContext(s, s', s'.hs[i]);
    }
  }

  lemma {:induction false} CountersStep(s: State, a: Action)
    requires Inv(s) && Enabled(s, a) && a.OfHandler()
    ensures Apply(s, a).slots == Count(Apply(s, a).hs, HoldsGlobal) <= s.globalMax
    ensures Apply(s, a).wg == Count(Apply(s, a).hs, InGroup)
    ensures s.closing ==> Apply(s, a).wg <= s.wg
  {
    hide Moved, InflightAfter, SlotsAfter, WgAfter, EnabledAt, TenantOk, HandlerOk, Count;
    var h := s.hs[a.h];
    assert HandlerOk(s, h);
    var x := Moved(s, a, h);
    CountHolds(s.hs, a.h, x, HoldsGlobal);
    SlotsStep(s, a, h);
    CountHolds(s.hs, a.h, x, InGroup);
    WgStep(s, a, h);
  }

  /** The step of one handler keeps the invariant. */
  lemma {:induction false} HandlerStepInv(s: State, a: Action)
    requires Inv(s) && Enabled(s, a) && a.OfHandler()
    ensures Inv(Apply(s, a))
  {
    HandlersStep(s, a);
    CountersStep(s, a);
    hide Moved, InflightAfter, SlotsAfter, WgAfter, EnabledAt, TenantOk, HandlerOk, Count, HoldsGlobal, InGroup;
  }

  lemma {:induction false} SameContext(s: State, s': State, h: Handler)
    requires s.ctxDone ==> s'.ctxDone
    ensures HandlerOk(s, h) ==> HandlerOk(s', h)
  {
  }

  lemma {:induction false} StepInv(s: State, a: Action)
    requires Inv(s) && Enabled(s, a)
    ensures Inv(Apply(s, a))
  {
    hide Inv, Enabled, Apply;
    if a.OfHandler() {
      HandlerStepInv(s, a);
    } else {
      OtherStepInv(s, a);
    }
  }

  lemma {:induction false} OtherStepInv(s: State, a: Action)
    requires Inv(s) && Enabled(s, a) && !a.OfHandler()
    ensures Inv(Apply(s, a))
  {
    hide Count, Settle;
    if a.Receive? {
      ReceiveInv(s, a);
    } else {
      var s' := Apply(s, a);
      forall t ensures TenantOk(s', t) {
        assert TenantOk(s, t);
      }
    }
  }

  lemma {:induction false} ReceiveInv(s: State, a: Action)
    requires Inv(s) && Enabled(s, a) && a.Receive?
    ensures Inv(Apply(s, a))
  {
    var s' := Apply(s, a);
    var x := Handler(a.msg, a.n, a.job, Callback, [], false);
    hide Count, Settle;
    CountSnoc(s.hs, x, HoldsGlobal);
    CountSnoc(s.hs, x, InGroup);
    forall t ensures TenantOk(s', t) {
      assert TenantOk(s, t);
      CountSnoc(s.hs, x, HolderOf(t));
    }
    forall i | 0 <= i < |s'.hs| ensures HandlerOk(s', s'.hs[i]) {
      assert i < |s.hs| ==> HandlerOk(s, s.hs[i]);
      if i < |s.hs| {
        SameContext(s, s', s.hs[i]);
      }
    }
  }

  // ── every run of one process ───────────────────────────────────────────────

  ghost predicate LegalRun(s: State, steps: seq<Action>)
    decreases |steps|
  {
    steps == [] || (Enabled(s, steps[0]) && LegalRun(Apply(s, steps[0]), steps[1..]))
  }

  ghost function Exec(s: State, steps: seq<Action>): State
    requires LegalRun(s, steps)
    decreases |steps|
  {
    if steps == [] then s else Exec(Apply(s, steps[0]), steps[1..])
  }

  /** The invariant holds in every state of every run, and the caps are those the process began with. */
  lemma {:induction false} RunInv(s: State, steps: seq<Action>)
    requires Inv(s) && LegalRun(s, steps)
    ensures Inv(Exec(s, steps))
    ensures Exec(s, steps).globalMax == s.globalMax && Exec(s, steps).tenantMax == s.tenantMax
    decreases |steps|
  {
    hide Inv, Enabled;
    if steps != [] {
      StepInv(s, steps[0]);
      RunInv(Apply(s, steps[0]), steps[1..]);
    }
  }

  // ── admission ──────────────────────────────────────────────────────────────

  ghost function Pick(ks: set<string>): (k: string)
    requires ks != {}
    ensures k in ks
  {
    var k :| k in ks;
    k
  }

  ghost function SumOver(m: map<string, nat>, ks: set<string>): nat
    requires ks <= m.Keys
    decreases ks
  {
    if ks == {} then 0 else m[Pick(ks)] + SumOver(m, ks - {Pick(ks)})
  }

  ghost function HolderIn(ks: set<string>): Handler -> bool {
    (h: Handler) => HoldsTenant(h) && h.job.Job? && h.job.tenant in ks
  }

  lemma {:induction false} SplitTenant(hs: seq<Handler>, ks: set<string>, t: string)
    requires t in ks
    ensures Count(hs, HolderIn(ks)) == Count(hs, HolderOf(t)) + Count(hs, HolderIn(ks - {t}))
  {
    CountSplit(hs, HolderIn(ks), HolderOf(t), HolderIn(ks - {t}));
  }

  lemma {:induction false} SumIsCount(s: State, ks: set<string>)
    requires s.tenantMax > 0 && (forall t :: TenantOk(s, t)) && ks <= s.inflight.Keys
    ensures SumOver(s.inflight, ks) == Count(s.hs, HolderIn(ks)) <= |ks| * s.tenantMax
    decreases ks
  {
    if ks == {} {
      CountZero(s.hs, HolderIn(ks));
    } else {
      hide Count;
      var t := Pick(ks);
      var rest := ks - {t};
      SumIsCount(s, rest);
      assert TenantOk(s, t);
      SplitTenant(s.hs, ks, t);
      assert |ks| == |rest| + 1;
      assert (|rest| + 1) * s.tenantMax == |rest| * s.tenantMax + s.tenantMax;
    }
  }

  /** Every tenant slot is counted for a tenant in the map. */
  lemma {:induction false} HoldersAreInflight(s: State)
    requires Inv(s) && s.tenantMax > 0
    ensures Count(s.hs, HoldsTenant) == Count(s.hs, HolderIn(s.inflight.Keys))
  {
    var p := HolderIn(s.inflight.Keys);
    forall i | 0 <= i < |s.hs| && HoldsTenant(s.hs[i]) ensures p(s.hs[i]) {
      assert HandlerOk(s, s.hs[i]);
      var t := s.hs[i].job.tenant;
      assert TenantOk(s, t);
      CountZero(s.hs, HolderOf(t));
      assert HolderOf(t)(s.hs[i]);
    }
    CountMono(s.hs, HoldsTenant, p);
    CountMono(s.hs, p, HoldsTenant);
  }

  /**
   In every reachable state the global slots taken are the handlers past gate 1 that have not given
   theirs back, at most globalMax; each tenant's counter is its handlers past gate 2, at most
   tenantMax, never a zero entry; and the counters add up to no more than the global slots.
   */
  lemma {:induction false} Admission(s: State)
    requires Inv(s)
    ensures s.slots == Count(s.hs, HoldsGlobal) <= s.globalMax
    ensures s.tenantMax > 0 ==>
              && (forall t :: t in s.inflight ==>
                  1 <= s.inflight[t] == Count(s.hs, HolderOf(t)) && s.inflight[t] <= s.tenantMax)
              && (forall t :: t !in s.inflight ==> Count(s.hs, HolderOf(t)) == 0)
              && SumOver(s.inflight, s.inflight.Keys) == Count(s.hs, HoldsTenant) <= s.slots
    ensures s.tenantMax <= 0 ==> s.inflight == map[]
  {
    CountMono(s.hs, HoldsTenant, HoldsGlobal);
    if s.tenantMax > 0 {
      SumIsCount(s, s.inflight.Keys);
      HoldersAreInflight(s);
      forall t
        ensures t in s.inflight ==> 1 <= s.inflight[t] == Count(s.hs, HolderOf(t)) && s.inflight[t] <= s.tenantMax
        ensures t !in s.inflight ==> Count(s.hs, HolderOf(t)) == 0
      {
        assert TenantOk(s, t);
      }
    } else {
      forall t ensures t !in s.inflight {
        assert TenantOk(s, t);
      }
    }
  }

  /** A job passes gate 1 exactly while fewer handlers than globalMax hold a global slot, and is deferred
      otherwise; a message that names no run is terminated. */
  lemma {:induction false} GateOne(s: State, h: nat)
    requires Inv(s) && Enabled(s, Gate1(h))
    ensures var x, y := s.hs[h], Apply(s, Gate1(h)).hs[h];
            if x.job.Malformed? then y == x.(pc := Leaves, disps := [Term])
            else if Count(s.hs, HoldsGlobal) < s.globalMax then y == x.(pc := HasGlobal)
            else y == x.(pc := Leaves, disps := [NakDeferred])
  {
    assert HandlerOk(s, s.hs[h]);
    hide Count;
  }

  /** A job passes gate 2 exactly while fewer handlers than tenantMax of its tenant are past it, or there is
      no cap, and is deferred otherwise. */
  lemma {:induction false} GateTwo(s: State, h: nat)
    requires Inv(s) && Enabled(s, Gate2(h))
    ensures var x, y := s.hs[h], Apply(s, Gate2(h)).hs[h];
            && x.job.Job?
            && if s.tenantMax <= 0 || Count(s.hs, HolderOf(x.job.tenant)) < s.tenantMax then y == x.(pc := Admitted)
               else y == x.(pc := FreesGlobal, disps := [NakDeferred])
  {
    assert HandlerOk(s, s.hs[h]) && HoldsGlobal(s.hs[h]);
    assert TenantOk(s, s.hs[h].job.tenant);
    hide Count;
  }

  /** A delivery that comes in is handed back if the runner is closing and gets a handler otherwise. */
  lemma {:induction false} EntersUnlessClosing(s: State, h: nat)
    requires Inv(s) && Enabled(s, Enter(h))
    ensures var x, y := s.hs[h], Apply(s, Enter(h)).hs[h];
            if s.phase == Serving then y == x.(pc := Fresh) else y == x.(pc := Gone, disps := [NakClosing])
  {
    assert HandlerOk(s, s.hs[h]);
  }

  /**
   A run that came back is settled by how it ended: acknowledged if its code ran to its end; handed back,
   after any error, while the runner stops; else terminated, tried again later or acknowledged.
   */
  lemma {:induction false} SettlesByOutcome(s: State, h: nat)
    requires Inv(s) && Enabled(s, SettleIt(h))
    ensures var x, y := s.hs[h], Apply(s, SettleIt(h)).hs[h];
            var o := x.pc.o;
            && y == x.(pc := FreesTenant, disps := y.disps)
            && y.disps == if o.Succeeded? || o.FailedRun? then [Ack]
                          else if s.ctxDone then [NakShutdown]
                          else if o.Broken? then [Ack]
                          else if o.ConfigError? || x.n >= MAX_DELIVER then [Term]
                          else [NakRetry(if o.BasePending? then 15 else 5)]
  {
    var x := s.hs[h];
    assert HandlerOk(s, x);
    SettleFacts(x.pc.o, s.ctxDone, x.n);
    hide Settle;
  }

  /** Between the gates, or with only its global slot left to give back. */
  predicate HoldsGlobalOnly(h: Handler) {
    HoldsGlobal(h) && !HoldsTenant(h)
  }

  predicate PassesBothGates(s: State, h: nat)
    requires h < |s.hs| && s.hs[h].pc == Fresh
  {
    var s1 := Apply(s, Gate1(h));
    s1.hs[h].pc == HasGlobal && Apply(s1, Gate2(h)).hs[h].pc == Admitted
  }

  /**
   The point of the two caps, exactly: a job of a tenant that runs nothing passes both gates if and
   only if the running tenants' counters and the handlers that hold a global slot alone leave one
   global slot.
   */
  lemma {:induction false} WhenANewTenantIsAdmitted(s: State, h: nat)
    requires Inv(s) && s.tenantMax > 0
    requires h < |s.hs| && s.hs[h].pc == Fresh && s.hs[h].job.Job? && s.hs[h].job.tenant !in s.inflight
    ensures PassesBothGates(s, h) <==> SumOver(s.inflight, s.inflight.Keys) + Count(s.hs, HoldsGlobalOnly) < s.globalMax
  {
    hide Count, SumOver, Inv, WgAfter, Settle, Release;
    Admission(s);
    CountSplit(s.hs, HoldsGlobal, HoldsTenant, HoldsGlobalOnly);
  }

  /**
   In particular, while no handler holds a global slot alone and the running tenants' caps together
   stay under the global one: with tenantMax < globalMax one busy tenant never keeps another out.
   */
  lemma {:induction false} NewTenantIsAdmitted(s: State, h: nat)
    requires Inv(s) && s.tenantMax > 0 && |s.inflight| * s.tenantMax < s.globalMax
    requires h < |s.hs| && s.hs[h].pc == Fresh && s.hs[h].job.Job? && s.hs[h].job.tenant !in s.inflight
    requires forall i :: 0 <= i < |s.hs| ==> !HoldsGlobalOnly(s.hs[i])
    ensures PassesBothGates(s, h)
  {
    hide PassesBothGates, Count;
    WhenANewTenantIsAdmitted(s, h);
    CountZero(s.hs, HoldsGlobalOnly);
    SumIsCount(s, s.inflight.Keys);
    assert |s.inflight.Keys| == |s.inflight|;
  }

  /** Tenant B's delivery was sent back though B runs nothing and A runs one job only. */
  ghost predicate KeptOut(s: State) {
    && |s.hs| == 3 && s.hs[2].job == Job("B") && s.hs[2].disps == [NakDeferred]
    && Count(s.hs, HolderOf("B")) == 0 && Count(s.hs, HolderOf("A")) == 1
  }

  /** A handler between the gates does keep another tenant out for that moment: with caps 2 and 1,
      tenant A running one job and looking at its second, tenant B's job is sent back. */
  lemma {:induction false} BetweenTheGates() returns (steps: seq<Action>)
    ensures LegalRun(Initial(2, 1), steps) && KeptOut(Exec(Initial(2, 1), steps))
  {
    hide LegalRun, Exec, Count;
    var x, y := Handler(0, 1, Job("A"), Admitted, [], false), Handler(1, 1, Job("A"), HasGlobal, [], false);
    var z := Handler(2, 1, Job("B"), Leaves, [NakDeferred], false);
    var mid := State(2, 1, [x, y], 2, map["A" := 1], 2, false, false, Serving);
    var end := State(2, 1, [x, y, z], 2, map["A" := 1], 3, false, false, Serving);
    steps := LastSteps(mid, end, x, y);
    steps := FirstSteps(mid, steps, end, x, y);
    CountZero(end.hs, HolderOf("B"));
    CountOnly(end.hs, 0, HolderOf("A"));
  }

  lemma {:induction false} FirstSteps(mid: State, steps: seq<Action>, end: State, x: Handler, y: Handler)
    returns (run: seq<Action>)
    requires x == Handler(0, 1, Job("A"), Admitted, [], false) && y == Handler(1, 1, Job("A"), HasGlobal, [], false)
    requires mid == State(2, 1, [x, y], 2, map["A" := 1], 2, false, false, Serving)
    requires LegalRun(mid, steps) && Exec(mid, steps) == end
    ensures LegalRun(Initial(2, 1), run) && Exec(Initial(2, 1), run) == end
  {
    hide LegalRun, Exec, Settle;
    var s1 := State(2, 1, [x.(pc := Callback)], 0, map[], 0, false, false, Serving);
    var s2 := s1.(hs := [x.(pc := Fresh)], wg := 1);
    var s3 := s2.(hs := [x.(pc := HasGlobal)], slots := 1);
    var s4 := s3.(hs := [x], inflight := map["A" := 1]);
    var s5 := s4.(hs := [x, y.(pc := Callback)]);
    var s6 := s5.(hs := [x, y.(pc := Fresh)], wg := 2);
    run := Before(s6, Gate1(1), mid, steps, end);
    run := Before(s5, Enter(1), s6, run, end);
    run := Before(s4, Receive(1, 1, Job("A")), s5, run, end);
    run := Before(s3, Gate2(0), s4, run, end);
    run := Before(s2, Gate1(0), s3, run, end);
    run := Before(s1, Enter(0), s2, run, end);
    run := Before(Initial(2, 1), Receive(0, 1, Job("A")), s1, run, end);
  }

  lemma {:induction false} LastSteps(mid: State, end: State, x: Handler, y: Handler) returns (run: seq<Action>)
    requires mid == State(2, 1, [x, y], 2, map["A" := 1], 2, false, false, Serving)
    requires end == mid.(hs := [x, y, Handler(2, 1, Job("B"), Leaves, [NakDeferred], false)], wg := 3)
    ensures LegalRun(mid, run) && Exec(mid, run) == end
  {
    var z := Handler(2, 1, Job("B"), Callback, [], false);
    var s8 := mid.(hs := [x, y, z]);
    var s9 := s8.(hs := [x, y, z.(pc := Fresh)], wg := 3);
    run := [];
    assert Exec(end, run) == end;
    hide LegalRun, Exec, Settle;
    assert [] + [NakDeferred] == [NakDeferred];
    assert Apply(s9, Gate1(2)).hs == end.hs;
    run := Before(s9, Gate1(2), end, run, end);
    run := Before(s8, Enter(2), s9, run, end);
    run := Before(mid, Receive(2, 1, Job("B")), s8, run, end);
  }

  lemma {:induction false} Before(s: State, a: Action, t: State, steps: seq<Action>, end: State)
    returns (run: seq<Action>)
    requires Enabled(s, a) && Apply(s, a) == t && LegalRun(t, steps) && Exec(t, steps) == end
    ensures LegalRun(s, run) && Exec(s, run) == end
  {
    run := [a] + steps;
    assert run[1..] == steps;
  }

  lemma {:induction false} CountOnly(hs: seq<Handler>, i: nat, p: Handler -> bool)
    requires i < |hs| && p(hs[i]) && forall j :: 0 <= j < |hs| && j != i ==> !p(hs[j])
    ensures Count(hs, p) == 1
  {
    var n := |hs| - 1;
    if i == n {
      CountZero(hs[..n], p);
    } else {
      CountOnly(hs[..n], i, p);
    }
  }

  // ── one disposition for every delivery ─────────────────────────────────────

  /** How many of its own steps a delivery is away from its end, at most. */
  function Rank(pc: PC): nat {
    match pc
    case Callback => 9
    case Fresh => 8
    case HasGlobal => 7
    case Admitted => 6
    case Started => 5
    case Returned(_) => 4
    case FreesTenant => 3
    case FreesGlobal => 2
    case Leaves => 1
    case Gone => 0
  }

  /** A step that a delivery that is not over can always take, whatever everyone else does; `o` is
      how its run comes back if that is what it waits for. */
  function NextStep(h: nat, pc: PC, o: Outcome): Action
    requires pc != Gone
  {
    match pc
    case Callback => Enter(h)
    case Fresh => Gate1(h)
    case HasGlobal => Gate2(h)
    case Admitted => if o.AfterStart() then Start(h) else Return(h, o)
    case Started => Return(h, if o.AfterStart() then o else FailedRun)
    case Returned(_) => SettleIt(h)
    case FreesTenant => FreeTenant(h)
    case FreesGlobal => FreeGlobal(h)
    case _ => Leave(h)
  }

  /**
   Both gates answer at once, so a delivery never waits for another: its next step is enabled in
   every state, each of its steps brings it nearer its end, and at the end it has been settled
   exactly once. Steps of others leave it as it is.
   */
  lemma {:induction false} EveryDeliveryEndsOnce(s: State, h: nat, o: Outcome)
    requires Inv(s) && h < |s.hs| && !o.Interrupted?
    ensures s.hs[h].pc != Gone ==> Enabled(s, NextStep(h, s.hs[h].pc, o))
    ensures forall a :: Enabled(s, a) && a.OfHandler() ==>
              if a.h == h then Rank(Apply(s, a).hs[h].pc) < Rank(s.hs[h].pc) && s.hs[h].disps <= Apply(s, a).hs[h].disps
              else Apply(s, a).hs[h] == s.hs[h]
    ensures |s.hs[h].disps| == (if Open(s.hs[h]) then 0 else 1)
    ensures s.hs[h].pc == Gone ==> |s.hs[h].disps| == 1
  {
    assert HandlerOk(s, s.hs[h]);
    hide Inv, Moved, Settle, SlotsAfter, InflightAfter, WgAfter, EnabledAt, Rank;
    if s.hs[h].pc != Gone {
      NextIsEnabled(s, h, o);
    }
    forall a | Enabled(s, a) && a.OfHandler()
      ensures if a.h == h then Rank(Apply(s, a).hs[h].pc) < Rank(s.hs[h].pc) && s.hs[h].disps <= Apply(s, a).hs[h].disps
              else Apply(s, a).hs[h] == s.hs[h]
    {
      StepDown(s, a, s.hs[a.h]);
    }
  }

  lemma {:induction false} NextIsEnabled(s: State, h: nat, o: Outcome)
    requires h < |s.hs| && s.hs[h].pc != Gone && !o.Interrupted?
    ensures Enabled(s, NextStep(h, s.hs[h].pc, o))
  {
  }

  lemma {:induction false} StepDown(s: State, a: Action, h: Handler)
    requires EnabledAt(s, a, h)
    ensures Rank(Moved(s, a, h).pc) < Rank(h.pc) && h.disps <= Moved(s, a, h).disps
  {
  }

  // ── shutdown ───────────────────────────────────────────────────────────────

  /** After `closing` is set no step adds to the WaitGroup, in any continuation. */
  lemma {:induction false} NoHandlerStartsAfterClosing(s: State, steps: seq<Action>)
    requires Inv(s) && s.closing && LegalRun(s, steps)
    ensures Exec(s, steps).closing && Exec(s, steps).wg <= s.wg
    decreases |steps|
  {
    if steps != [] {
      var a := steps[0];
      StepInv(s, a);
      hide Inv;
      StaysClosing(s, a);
      NoHandlerStartsAfterClosing(Apply(s, a), steps[1..]);
    }
  }

  lemma {:induction false} StaysClosing(s: State, a: Action)
    requires s.closing && Enabled(s, a)
    ensures Apply(s, a).closing && Apply(s, a).wg <= s.wg
  {
  }

  /** When the connection closes, a delivery may be unsettled only because its callback has not yet come to
      look at `closing`; no process was started for it, and all it can still do is give it back. */
  lemma {:induction false} UnsettledAtClose(s: State, i: nat)
    requires Inv(s) && (s.phase == Waited || s.phase == Closed) && i < |s.hs|
    ensures Open(s.hs[i]) <==> s.hs[i].pc == Callback
    ensures Open(s.hs[i]) ==> !s.hs[i].started && s.hs[i].disps == []
    ensures forall a :: Enabled(s, a) && a.OfHandler() && a.h == i ==>
              a.Enter? && Apply(s, a).hs[i] == Dispose(s.hs[i], NakClosing, Gone)
  {
    Drained(s);
    assert HandlerOk(s, s.hs[i]);
    hide HandlerOk, TenantOk;
    assert s.hs[i].pc == Callback || s.hs[i].pc == Gone;
  }

  /**
   Once jobs.Wait() has returned, and so before the flush and the close: every delivery handed to a
   handler has its one disposition issued, every slot of both kinds is back, and this stays so.
   */
  lemma {:induction false} Drained(s: State)
    requires Inv(s) && (s.phase == Waited || s.phase == Closed)
    ensures forall i :: 0 <= i < |s.hs| ==> s.hs[i].pc == Callback || (s.hs[i].pc == Gone && |s.hs[i].disps| == 1)
    ensures s.slots == 0 && s.inflight == map[]
  {
    CountZero(s.hs, InGroup);
    forall i | 0 <= i < |s.hs| ensures s.hs[i].pc == Callback || (s.hs[i].pc == Gone && |s.hs[i].disps| == 1) {
      assert HandlerOk(s, s.hs[i]);
    }
    CountZero(s.hs, HoldsGlobal);
    forall t ensures t !in s.inflight {
      assert TenantOk(s, t);
      CountZero(s.hs, HolderOf(t));
    }
  }

  // ── a shutdown comes to its end ────────────────────────────────────────────

  lemma {:induction false} RunOn(s: State, first: seq<Action>, more: seq<Action>)
    requires LegalRun(s, first) && LegalRun(Exec(s, first), more)
    ensures LegalRun(s, first + more) && Exec(s, first + more) == Exec(Exec(s, first), more)
    decreases |first|
  {
    hide Enabled, Apply;
    if first == [] {
      assert first + more == more;
    } else {
      assert (first + more)[0] == first[0] && (first + more)[1..] == first[1..] + more;
      RunOn(Apply(s, first[0]), first[1..], more);
    }
  }

  /** One delivery is brought to its end, and the others are left as they are. */
  lemma {:induction false} EndOne(s: State, h: nat) returns (steps: seq<Action>)
    requires Inv(s) && h < |s.hs|
    ensures LegalRun(s, steps)
    ensures var t := Exec(s, steps);
            Inv(t) && t.phase == s.phase && t.ctxDone == s.ctxDone && |t.hs| == |s.hs| && t.hs[h].pc == Gone
            && forall i :: 0 <= i < |s.hs| && i != h ==> t.hs[i] == s.hs[i]
    decreases Rank(s.hs[h].pc)
  {
    hide Inv, Moved, SlotsAfter, InflightAfter, WgAfter, EnabledAt, Rank;
    if s.hs[h].pc == Gone {
      steps := [];
    } else {
      EveryDeliveryEndsOnce(s, h, FailedRun);
      var a := NextStep(h, s.hs[h].pc, FailedRun);
      NextIsOfHandler(h, s.hs[h].pc);
      StepInv(s, a);
      var rest := EndOne(Apply(s, a), h);
      steps := [a] + rest;
      assert steps[0] == a && steps[1..] == rest;
    }
  }

  lemma {:induction false} NextIsOfHandler(h: nat, pc: PC)
    requires pc != Gone
    ensures var a := NextStep(h, pc, FailedRun); a.OfHandler() && a.h == h
  {
  }

  lemma {:induction false} EndFirst(s: State, n: nat) returns (steps: seq<Action>)
    requires Inv(s) && n <= |s.hs|
    ensures LegalRun(s, steps)
    ensures var t := Exec(s, steps);
            Inv(t) && t.phase == s.phase && t.ctxDone == s.ctxDone && |t.hs| == |s.hs|
            && forall i :: 0 <= i < n ==> t.hs[i].pc == Gone
  {
    hide Inv, Enabled, Apply;
    if n == 0 {
      steps := [];
    } else {
      var first := EndFirst(s, n - 1);
      var last := EndOne(Exec(s, first), n - 1);
      RunOn(s, first, last);
      steps := first + last;
    }
  }

  /**
   From every reachable state the process can be brought to its end, with every delivery it took settled
   once: nothing waits for what never comes.
   */
  lemma {:induction false} CanShutDown(s: State) returns (steps: seq<Action>)
    requires Inv(s)
    ensures LegalRun(s, steps)
    ensures var t := Exec(s, steps);
            t.phase == Closed && |t.hs| == |s.hs|
            && forall i :: 0 <= i < |t.hs| ==> t.hs[i].pc == Gone && |t.hs[i].disps| == 1
  {
    hide Enabled, Apply, LegalRun, Exec, Inv;
    var first := EndFirst(s, |s.hs|);
    var t := Exec(s, first);
    NobodyLeft(t);
    var last := CloseDown(t);
    RunOn(s, first, last);
    steps := first + last;
  }

  lemma {:induction false} NobodyLeft(s: State)
    requires Inv(s) && forall i :: 0 <= i < |s.hs| ==> s.hs[i].pc == Gone
    ensures s.wg == 0 && (s.closing <==> s.phase != Serving)
    ensures forall i :: 0 <= i < |s.hs| ==> |s.hs[i].disps| == 1
  {
    CountZero(s.hs, InGroup);
    forall i | 0 <= i < |s.hs| ensures |s.hs[i].disps| == 1 {
      assert HandlerOk(s, s.hs[i]);
    }
  }

  /** The main goroutine's way out, when no handler is left. */
  lemma {:induction false} CloseDown(s: State) returns (steps: seq<Action>)
    requires s.wg == 0
    ensures LegalRun(s, steps) && Exec(s, steps).phase == Closed && Exec(s, steps).hs == s.hs
    decreases match s.phase case Serving => 3 case Waiting => 2 case Waited => 1 case Closed => 0
  {
    match s.phase {
      case Serving =>
        var cancelled := Apply(s, Cancel);
        var rest := CloseDown(Apply(cancelled, Close));
        assert [Cancel, Close] + rest == [Cancel] + ([Close] + rest);
        assert ([Close] + rest)[1..] == rest && ([Cancel] + ([Close] + rest))[1..] == [Close] + rest;
        steps := [Cancel] + ([Close] + rest);
      case Waiting =>
        var rest := CloseDown(Apply(s, WaitReturns));
        steps := [WaitReturns] + rest;
        assert steps[1..] == rest;
      case Waited =>
        steps := [Shut];
        assert steps[1..] == [];
      case Closed =>
        steps := [];
    }
  }
}
