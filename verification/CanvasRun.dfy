/**
 A rule without a graph that is run from the canvas (api/apps/api/src/automations.ts
 `executeAutomation`, started by routes/automation.ts), beside the same rule run on an event.
 */
module CanvasRun {
  import opened Actions
  import opened DeriveGraph
  import opened Engine
  import opened FlowGraph
  import opened Options
  import opened RuleOrGraph
  import opened Rules
  import opened Templates

  /** All actions, whatever stops. */
  function AllPerformed(env: Env, actions: seq<Action>, k: nat): (results: seq<Result>)
    requires k <= |actions|
    ensures |results| == k
  {
    if k == 0 then []
    else
      var before := AllPerformed(env, actions, k - 1);
      before + [env.act(Calls(actions, before), actions[k - 1], None)]
  }

  function Executed(env: Env, d: Draft): seq<Result> {
    if Holds(env, [], d.all, d.conditions, None) then AllPerformed(env, d.actions, |d.actions|) else []
  }

  /** Its loop over the actions has no break. */
  method ExecuteLinear(env: Env, d: Draft) returns (results: seq<Result>)
    ensures results == Executed(env, d)
  {
    results := [];
    if Holds(env, [], d.all, d.conditions, None) {
      for i := 0 to |d.actions|
        invariant results == AllPerformed(env, d.actions, i)
      {
        results := results + [env.act(Calls(d.actions, results), d.actions[i], None)];
      }
    }
  }

  /** What a canvas run makes of an action shows in what it asks. */
  predicate LooksAt(opts: Opts, a: Action) {
    || Withheld(opts, a)
    || (opts.awaitRun && a.kind == RunCommand)
    || (opts.dryRun && a.kind == Rag && a.autoReply)
  }

  lemma {:induction false} PerformIgnores(w: World, opts: Opts, ctx0: Ctx, calls: seq<Call>, a: Action)
    requires !LooksAt(opts, a)
    ensures Perform(w, opts, ctx0, calls, a, None) == Perform(w, EVENT, ctx0, calls, a, None)
  {
    hide Context, Raised, Performing, TextsOf, HandsOn, WellGuarded;
    assert Raised(w, opts, ctx0, calls, a) == Raised(w, EVENT, ctx0, calls, a) by {
      RaisedIgnores(w, opts, ctx0, calls, a);
    }
  }

  lemma {:induction false} RaisedIgnores(w: World, opts: Opts, ctx0: Ctx, calls: seq<Call>, a: Action)
    requires !LooksAt(opts, a)
    ensures Raised(w, opts, ctx0, calls, a) == Raised(w, EVENT, ctx0, calls, a)
  {
  }

  /** Without a stop on the way, and with nothing that looks at the options, all is the same. */
  lemma {:induction false} SamePerformed(w: World, opts: Opts, ctx0: Ctx, actions: seq<Action>, k: nat)
    requires k <= |actions| && Runs(actions, if k == 0 then 0 else k - 1)
    requires forall i :: 0 <= i < k ==> !LooksAt(opts, actions[i])
    ensures AllPerformed(EnvOf(w, opts, ctx0), actions, k) == Performed(EnvOf(w, EVENT, ctx0), actions, NoPlane(), k)
  {
    hide Perform, Calls, LooksAt, EnvOf, AllPerformed, Performed;
    if k == 0 {
      NonePerformed(EnvOf(w, EVENT, ctx0), actions, NoPlane());
    } else {
      SamePerformed(w, opts, ctx0, actions, k - 1);
      HaltedAtStop(w, EVENT, ctx0, actions, NoPlane(), k - 1);
      OneMore(w, EVENT, ctx0, actions, NoPlane(), k - 1);
      OneMoreOfAll(w, opts, ctx0, actions, k - 1);
      var before := AllPerformed(EnvOf(w, opts, ctx0), actions, k - 1);
      NoPlaneIs(before);
      PerformIgnores(w, opts, ctx0, Calls(actions, before), actions[k - 1]);
    }
  }

  lemma {:induction false} OneMoreOfAll(w: World, opts: Opts, ctx0: Ctx, actions: seq<Action>, k: nat)
    requires k < |actions|
    ensures var env := EnvOf(w, opts, ctx0);
            var before := AllPerformed(env, actions, k);
            AllPerformed(env, actions, k + 1)
                == before + [Perform(w, opts, ctx0, Calls(actions, before), actions[k], None)]
  {
    hide Perform, Calls;
  }

  /** A stop before the last action: the engine performs fewer. */
  lemma {:induction false} StopsShort(env: Env, actions: seq<Action>, k: nat)
    requires k < |actions| && Halted(Performed(env, actions, NoPlane(), k))
    ensures |Performed(env, actions, NoPlane(), |actions|)| < |actions|
  {
    PerformedStays(env, actions, NoPlane(), k, |actions|);
    hide Performed;
  }

  /** A ticket, so that each action gets to what it does. */
  const TICKET: Ctx := map["ticketId" := TextValue("t")]

  lemma {:induction false} AsksOtherwise(opts: Opts, a: Action, ctx: Ctx)
    requires LooksAt(opts, a) && HasTicket(ctx)
    ensures Ask(opts, a, ctx) != Ask(EVENT, a, ctx)
  {
    hide Performing, TextsOf, HandsOn, WellGuarded;
  }

  lemma {:induction false} FirstLook(opts: Opts, actions: seq<Action>, n: nat) returns (k: nat)
    requires n <= |actions| && exists i :: 0 <= i < n && LooksAt(opts, actions[i])
    ensures k < n && LooksAt(opts, actions[k]) && forall i :: 0 <= i < k ==> !LooksAt(opts, actions[i])
  {
    hide LooksAt;
    if exists i :: 0 <= i < n - 1 && LooksAt(opts, actions[i]) {
      k := FirstLook(opts, actions, n - 1);
    } else {
      k := n - 1;
    }
  }

  /** The first action that looks at the options shows it. */
  lemma {:induction false} LookingShows(opts: Opts, actions: seq<Action>, k: nat)
    requires k < |actions| && Runs(actions, |actions| - 1)
    requires LooksAt(opts, actions[k]) && forall i :: 0 <= i < k ==> !LooksAt(opts, actions[i])
    ensures AllPerformed(EnvOf(Quiet(), opts, TICKET), actions, |actions|)
            != Performed(EnvOf(Quiet(), EVENT, TICKET), actions, NoPlane(), |actions|)
  {
    hide *;
    var w, run, event := Quiet(), EnvOf(Quiet(), opts, TICKET), EnvOf(Quiet(), EVENT, TICKET);
    RunsLess(actions, k);
    SamePerformed(w, opts, TICKET, actions, k);
    HaltedAtStop(w, EVENT, TICKET, actions, NoPlane(), k);
    OneMore(w, EVENT, TICKET, actions, NoPlane(), k);
    OneMoreOfAll(w, opts, TICKET, actions, k);
    var before := Performed(event, actions, NoPlane(), k);
    NoPlaneIs(before);
    QuietPuts(EVENT, TICKET, actions, NoPlane(), k);
    BaseStays(TICKET, actions, before);
    Contexts(TICKET, Calls(actions, before), Plane(Seed, map[]));
    QuietPerforms(opts, TICKET, Calls(actions, before), actions[k], None);
    QuietPerforms(EVENT, TICKET, Calls(actions, before), actions[k], None);
    TicketIsThere();
    AsksOtherwise(opts, actions[k], TICKET);
    PerformedFirst(event, actions, NoPlane(), k + 1, |actions|);
    AllPerformedFirst(run, actions, k + 1, |actions|);
    DifferAt(AllPerformed(run, actions, |actions|), Performed(event, actions, NoPlane(), |actions|), before,
             Perform(w, opts, TICKET, Calls(actions, before), actions[k], None),
             Perform(w, EVENT, TICKET, Calls(actions, before), actions[k], None));
  }

  lemma {:induction false} RunsLess(actions: seq<Action>, k: nat)
    requires k < |actions| && Runs(actions, |actions| - 1)
    ensures Runs(actions, k) && Runs(actions, if k == 0 then 0 else k - 1)
  {
  }

  lemma {:induction false} TicketIsThere()
    ensures HasTicket(TICKET)
  {
  }

  lemma {:induction false} DifferAt(a: seq<Result>, b: seq<Result>, before: seq<Result>, r: Result, s: Result)
    requires before + [r] <= a && before + [s] <= b && r != s
    ensures a != b
  {
    assert (before + [r])[|before|] == r && (before + [s])[|before|] == s;
  }

  lemma {:induction false} AllPerformedFirst(env: Env, actions: seq<Action>, j: nat, k: nat)
    requires j <= k <= |actions|
    ensures AllPerformed(env, actions, j) <= AllPerformed(env, actions, k)
  {
    hide Calls;
    if j < k {
      AllPerformedFirst(env, actions, j, k - 1);
    }
  }

  /** A rule that does the same from the canvas as on an event. */
  predicate CanvasSafe(opts: Opts, actions: seq<Action>) {
    && (forall i :: 0 <= i < |actions| - 1 ==> actions[i].kind != Stop)
    && forall i :: 0 <= i < |actions| ==> !LooksAt(opts, actions[i])
  }

  /**
   Exactly when a rule that is run from the canvas, dry or for real, does what the engine does with it
   on an event, in any world and from any context: when no action before the last is a stop, and none
   is withheld or waited for, nor a draft that is also sent. Results include all that was asked.
   */
  lemma {:induction false} WhenTheCanvasRunIsTheEngines(opts: Opts, d: Draft)
    ensures CanvasSafe(opts, d.actions)
            <==> forall w, ctx0 :: Executed(EnvOf(w, opts, ctx0), d) == Linear(EnvOf(w, EVENT, ctx0), d)
  {
    hide LooksAt, EnvOf, AllPerformed, Performed, Linear, Executed;
    if CanvasSafe(opts, d.actions) {
      forall w, ctx0 ensures Executed(EnvOf(w, opts, ctx0), d) == Linear(EnvOf(w, EVENT, ctx0), d) {
        SamePerformed(w, opts, ctx0, d.actions, |d.actions|);
        SameVerdict(w, opts, ctx0, d);
        ByVerdict(EnvOf(w, opts, ctx0), EnvOf(w, EVENT, ctx0), d);
      }
    } else {
      var w, run, event := Quiet(), EnvOf(Quiet(), opts, TICKET), EnvOf(Quiet(), EVENT, TICKET);
      QuietHolds(opts, TICKET, d);
      QuietHolds(EVENT, TICKET, d);
      ByVerdict(run, event, d);
      if i :| 0 <= i < |d.actions| - 1 && d.actions[i].kind == Stop {
        HaltedAtStop(w, EVENT, TICKET, d.actions, NoPlane(), i + 1);
        StopsShort(event, d.actions, i + 1);
      } else {
        var k := FirstLook(opts, d.actions, |d.actions|);
        LookingShows(opts, d.actions, k);
      }
      assert Executed(run, d) != Linear(event, d);
    }
  }

  /** A condition is judged alike however the run was started. */
  lemma {:induction false} SameVerdict(w: World, opts: Opts, ctx0: Ctx, d: Draft)
    ensures Holds(EnvOf(w, opts, ctx0), [], d.all, d.conditions, None)
            <==> Holds(EnvOf(w, EVENT, ctx0), [], d.all, d.conditions, None)
  {
    HoldsIs(w, opts, ctx0, d, None);
    HoldsIs(w, EVENT, ctx0, d, None);
  }

  lemma {:induction false} ByVerdict(run: Env, event: Env, d: Draft)
    ensures Executed(run, d)
            == if Holds(run, [], d.all, d.conditions, None) then AllPerformed(run, d.actions, |d.actions|) else []
    ensures Linear(event, d)
            == if Holds(event, [], d.all, d.conditions, None)
               then Performed(event, d.actions, NoPlane(), |d.actions|) else []
  {
    hide AllPerformed, Performed, Holds;
  }
}
