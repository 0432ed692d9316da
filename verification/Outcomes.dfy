/** How one run of a job ends, and what `handleJob` makes of it (runner/worker.go). */
module Outcomes {
  import opened Options

  /** maxDeliver: the consumer's delivery budget. */
  const MAX_DELIVER: nat := 100

  /** What `runShell` and `runFlow` return. */
  datatype Outcome =
    | Succeeded     // the job's code ran and exited 0
    | FailedRun     // it ran and failed, or timed out
    | ConfigError   // the job cannot run as sent
    | BasePending   // its sandbox base is still building or pulling
    | StartFailed   // a startError: nothing of it ran
    | Interrupted   // the runner's context ended while it ran
    | Broken        // it ran, then its sandbox was lost
  {
    /** The outcomes that leave the job's code having run. */
    predicate AfterStart() {
      Succeeded? || FailedRun? || Interrupted? || Broken?
    }
  }

  datatype Disposition =
    | Ack
    | Term
    | NakRetry(seconds: nat)
    | NakDeferred    // no admission slot
    | NakShutdown    // the run was cut short, or its error came while the runner stops
    | NakClosing     // arrived after the runner stopped taking jobs
  {
    predicate Ends() { Ack? || Term? }
  }

  /** runner_runs.status */
  datatype Row = Queued | Running | RowSucceeded | RowFailed
  {
    predicate Final() { RowSucceeded? || RowFailed? }
  }

  /** The last switch of `handleJob`: the disposition, and the final status recorded with it. */
  function Settle(o: Outcome, ctxDone: bool, delivered: nat): (Disposition, Option<Row>) {
    if o.Succeeded? then (Ack, Some(RowSucceeded))
    else if o.FailedRun? then (Ack, Some(RowFailed))
    else if ctxDone then (NakShutdown, None)
    else if o.ConfigError? then (Term, Some(RowFailed))
    else if o.BasePending? || o.StartFailed? then
      if delivered >= MAX_DELIVER then (Term, Some(RowFailed))
      else (NakRetry(if o.BasePending? then 15 else 5), None)
    else (Ack, Some(RowFailed))
  }

  /**
   What becomes of a run, case by case. A job whose code ran to its end is acknowledged and recorded as
   it went. Any other comes back on the queue while the runner stops, whatever its error and however
   often it was delivered. Else one that never can run is terminated; one that did not start is handed
   back while it may be delivered again and terminated after that; and one whose sandbox was lost is
   acknowledged. A final status is recorded exactly with an Ack or a Term, succeeded for a success.
   */
  lemma {:induction false} SettleFacts(o: Outcome, ctxDone: bool, delivered: nat)
    ensures var (d, row) := Settle(o, ctxDone, delivered);
            && (d.Ack? <==> o.Succeeded? || o.FailedRun? || (!ctxDone && (o.Broken? || o.Interrupted?)))
            && (d.NakShutdown? <==> ctxDone && !o.Succeeded? && !o.FailedRun?)
            && (d.Term? <==> !ctxDone && (o.ConfigError?
                                          || ((o.BasePending? || o.StartFailed?) && delivered >= 100)))
            && (d.NakRetry? <==> !ctxDone && (o.BasePending? || o.StartFailed?) && delivered < 100)
            && (d.NakRetry? ==> d.seconds == if o.BasePending? then 15 else 5)
            && row == (if d.Ack? || d.Term? then Some(if o.Succeeded? then RowSucceeded else RowFailed) else None)
  {
  }
}
