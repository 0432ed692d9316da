/**
 The two admission gates (runner/worker.go `globalSem`, `tryAcquire`, `release`) and one handler that
 passes through them alone; Runner takes any number of handlers through them in any order.
 */
module Gates {
  import opened Options
  import opened Outcomes

  /** tryAcquire: the counters with one more for `tenant`, none at the cap. */
  function Acquire(inflight: map<string, nat>, tenant: string, tenantMax: int): Option<map<string, nat>> {
    var taken := if tenant in inflight then inflight[tenant] else 0;
    if tenantMax <= 0 then Some(inflight)
    else if taken >= tenantMax then None
    else Some(inflight[tenant := taken + 1])
  }

  /** release: the counters with one less; a counter never stays at zero. */
  function Release(inflight: map<string, nat>, tenant: string, tenantMax: int): map<string, nat> {
    if tenantMax <= 0 then inflight
    else if tenant !in inflight || inflight[tenant] <= 1 then inflight - {tenant}
    else inflight[tenant := inflight[tenant] - 1]
  }

  /** A release undoes its acquire, unless the map held a zero entry, which it then drops. */
  lemma {:induction false} ReleaseUndoesAcquire(inflight: map<string, nat>, tenant: string, tenantMax: int)
    requires Acquire(inflight, tenant, tenantMax).Some?
    ensures Release(Acquire(inflight, tenant, tenantMax).value, tenant, tenantMax) == inflight
            <==> tenantMax <= 0 || tenant !in inflight || inflight[tenant] != 0
  {
    if tenantMax > 0 {
      if tenant !in inflight {
        assert inflight[tenant := 1] - {tenant} == inflight;
      } else if inflight[tenant] != 0 {
        assert inflight[tenant := inflight[tenant] + 1][tenant := inflight[tenant]] == inflight;
      }
    }
  }

  class Slots {
    const globalMax: nat
    const tenantMax: int
    /** len(globalSem) */
    var taken: nat
    var inflight: map<string, nat>

    constructor (globalMax: nat, tenantMax: int)
      ensures this.globalMax == globalMax && this.tenantMax == tenantMax && taken == 0 && inflight == map[]
    {
      this.globalMax, this.tenantMax := globalMax, tenantMax;
      taken, inflight := 0, map[];
    }

    method TryGlobal() returns (ok: bool)
      modifies this`taken
      ensures ok <==> old(taken) < globalMax
      ensures taken == old(taken) + if ok then 1 else 0
    {
      ok := taken < globalMax;
      if ok {
        taken := taken + 1;
      }
    }

    method FreeGlobal()
      requires taken > 0
      modifies this`taken
      ensures taken == old(taken) - 1
    {
      taken := taken - 1;
    }

    method TryAcquire(tenant: string) returns (ok: bool)
      modifies this`inflight
      ensures ok <==> tenantMax <= 0 || (if tenant in old(inflight) then old(inflight)[tenant] else 0) < tenantMax
      ensures !ok || tenantMax <= 0 ==> inflight == old(inflight)
      ensures ok && tenantMax > 0 ==>
                inflight == old(inflight)[tenant := 1 + if tenant in old(inflight) then old(inflight)[tenant] else 0]
      ensures (if ok then Some(inflight) else None) == Acquire(old(inflight), tenant, tenantMax)
    {
      if tenantMax <= 0 {
        return true;
      }
      var n := if tenant in inflight then inflight[tenant] else 0;
      if n >= tenantMax {
        return false;
      }
      inflight := inflight[tenant := n + 1];
      return true;
    }

    method ReleaseTenant(tenant: string)
      modifies this`inflight
      ensures inflight == Release(old(inflight), tenant, tenantMax)
      ensures forall t :: t != tenant ==> (t in inflight <==> t in old(inflight))
      ensures forall t :: t != tenant && t in inflight ==> inflight[t] == old(inflight)[t]
      ensures tenantMax > 0 ==> (tenant in inflight <==> tenant in old(inflight) && old(inflight)[tenant] > 1)
      ensures tenantMax > 0 && tenant in inflight ==> inflight[tenant] == old(inflight)[tenant] - 1
    {
      if tenantMax <= 0 {
        return;
      }
      if tenant !in inflight || inflight[tenant] <= 1 {
        inflight := inflight - {tenant};
      } else {
        inflight := inflight[tenant := inflight[tenant] - 1];
      }
    }

    /**
     One handler on its own: `job` is its tenant, none for a message that names no run; `o`, how its
     run comes back if it gets that far. It issues one disposition, says whether it ran, and leaves
     both gates exactly as it found them, on every path.
     */
    method HandleJob(job: Option<string>, o: Outcome, ctxDone: bool, delivered: nat)
      returns (ran: bool, d: Disposition, recorded: Option<Row>)
      requires forall t :: t in inflight ==> inflight[t] != 0
      modifies this
      ensures taken == old(taken) && inflight == old(inflight)
      ensures ran <==> job.Some? && taken < globalMax
                       && (tenantMax <= 0
                           || (if job.value in inflight then inflight[job.value] else 0) < tenantMax)
      ensures ran ==> (d, recorded) == Settle(o, ctxDone, delivered)
      ensures !ran ==> d == (if job.None? then Term else NakDeferred) && recorded.None?
    {
      if job.None? {
        return false, Term, None;
      }
      var free := TryGlobal();
      if !free {
        return false, NakDeferred, None;
      }
      var mine := TryAcquire(job.value);
      if !mine {
        FreeGlobal();
        return false, NakDeferred, None;
      }
      ran := true;
      var settled := Settle(o, ctxDone, delivered);
      d, recorded := settled.0, settled.1;
      ReleaseUndoesAcquire(old(inflight), job.value, tenantMax);
      ReleaseTenant(job.value);
      FreeGlobal();
    }
  }
}
