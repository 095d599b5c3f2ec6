/** The deposit calls as the service makes them; each is a run of the protocol. */
module DepositService {
  import opened DepositProtocol
  import opened Options

  datatype EnqueueOutcome = PaymentSettled | SettlementKnown | SettlementCreated | StillPending | SignatureRefused
  /** `JobStopped` is a job that threw before its guarded part. */
  datatype JobOutcome = NotFound | AlreadySettled | JobCompleted | JobFailed | JobStopped

  function WithLink(payments: map<PaymentId, Payment>, p: PaymentId, transaction: TransactionId): map<PaymentId, Payment>
    requires p in payments
  {
    payments[p := payments[p].(status := Captured, walletTransaction := Some(transaction))]
  }

  /**
   * How a job ends that found the payment unsettled, by how many of its writes
   * succeed: PROCESSING, the audit record of the start, credit, link,
   * completion, the audit record of the end.
   */
  function JobEnd(budget: nat): JobOutcome
  {
    if budget < 2 then JobStopped else if budget < 6 then JobFailed else JobCompleted
  }

  function Worked(settlement: Settlement, budget: nat): Settlement
  {
    if budget == 0 then settlement
    else settlement.(status := if budget == 1 then Processing else if budget < 6 then Failed else Completed,
                     attempts := settlement.attempts + 1)
  }

  class DepositStore {
    var payments: map<PaymentId, Payment>
    var settlements: map<SettlementId, Settlement>
    var deposits: map<PaymentId, Deposit>
    ghost var triggers: map<ProcessId, Trigger>
    ghost var jobs: map<ProcessId, Job>

    constructor (payments: map<PaymentId, Payment>)
      requires forall p :: p in payments ==> payments[p].walletTransaction.None?
      ensures Initial(Contents()) && Contents().payments == payments
    {
      this.payments, settlements, deposits := payments, map[], map[];
      triggers, jobs := map[], map[];
    }

    ghost function Contents(): State
      reads this
    {
      State(payments, settlements, deposits, triggers, jobs)
    }

    /** A verified webhook: capture the payment and make sure its settlement row exists. */
    method SettleDepositFromWebhook(ghost id: ProcessId, p: PaymentId, row: SettlementId, queued: bool,
                                    ghost job: ProcessId, transaction: TransactionId, budget: nat)
      returns (outcome: EnqueueOutcome, processed: Option<JobOutcome>, ghost steps: seq<Step>)
      requires p in payments && id !in triggers && row !in settlements
      requires job !in jobs && !TransactionUsed(Contents(), transaction)
      modifies this
      ensures Runs(old(Contents()), steps) && Contents() == After(old(Contents()), steps)
      ensures outcome == PaymentSettled <==> old(payments[p].walletTransaction.Some?)
      ensures outcome == SettlementKnown <==>
                old(payments[p].walletTransaction.None?) && old(HasSettlement(Contents(), p))
      ensures outcome == SettlementCreated <==>
                old(payments[p].walletTransaction.None?) && !old(HasSettlement(Contents(), p))
      ensures outcome == PaymentSettled ==> Contents() == old(Contents())
      ensures outcome != PaymentSettled ==> HasSettlement(Contents(), p)
      ensures processed == if outcome == SettlementCreated && !queued then Some(JobEnd(budget)) else None
      ensures settlements ==
                if outcome == SettlementCreated
                then old(settlements)[row := Worked(Settlement(p, old(payments)[p].amount, Pending, 0), if queued then 0 else budget)]
                else old(settlements)
      ensures deposits == if processed.Some? && budget >= 3 then Deposited(old(Contents()), p, transaction) else old(deposits)
      ensures outcome != PaymentSettled ==>
                payments == if processed.Some? && budget >= 4 then WithLink(old(payments), p, deposits[p].transaction)
                            else old(payments)[p := old(payments)[p].(status := Captured)]
    {
      ghost var start := Contents();
      steps := [];
      if payments[p].walletTransaction.Some? {
        return PaymentSettled, None, steps;
      }
      hide Runs, After, Enabled;
      steps := MarkCaptured(id, p);
      var created;
      ghost var rest;
      created, processed, rest := EnqueueDepositSettlement(id, p, row, queued, job, transaction, budget);
      RunsConcat(start, steps, rest);
      steps := steps + rest;
      outcome := if created then SettlementCreated else SettlementKnown;
    }

    method MarkCaptured(ghost id: ProcessId, p: PaymentId) returns (ghost steps: seq<Step>)
      requires p in payments && payments[p].walletTransaction.None? && id !in triggers
      modifies this`payments, this`triggers
      ensures Runs(old(Contents()), steps) && Contents() == After(old(Contents()), steps)
      ensures payments == old(payments)[p := old(payments)[p].(status := Captured)]
      ensures triggers == old(triggers)[id := Trigger(p, Marked)]
    {
      ghost var start := Contents();
      triggers := triggers[id := Trigger(p, Verified)];
      ghost var s := Contents();
      OneMoreStep(start, [], start, Arrive(id, p), s);
      payments := payments[p := payments[p].(status := Captured)];
      triggers := triggers[id := Trigger(p, Marked)];
      OneMoreStep(start, [] + [Arrive(id, p)], s, Capture(id), Contents());
      steps := [] + [Arrive(id, p)] + [Capture(id)];
    }

    /** Finds or creates the settlement row of a payment. */
    method CreateSettlement(ghost id: ProcessId, p: PaymentId, row: SettlementId)
      returns (created: bool, ghost steps: seq<Step>)
      requires TriggerAt(Contents(), id, Marked) && triggers[id].payment == p && p in payments && row !in settlements
      modifies this`settlements, this`triggers
      ensures Runs(old(Contents()), steps) && Contents() == After(old(Contents()), steps)
      ensures created <==> !old(HasSettlement(Contents(), p))
      ensures HasSettlement(Contents(), p)
      ensures settlements == if created then old(settlements)[row := Settlement(p, payments[p].amount, Pending, 0)] else old(settlements)
    {
      ghost var start := Contents();
      var existing := exists r :: r in settlements && settlements[r].payment == p;
      triggers := triggers[id := Trigger(p, if existing then Answered else Creating)];
      ghost var s := Contents();
      OneMoreStep(start, [], start, LookUp(id), s);
      steps := [] + [LookUp(id)];
      created := !existing;
      if created {
        settlements := settlements[row := Settlement(p, payments[p].amount, Pending, 0)];
        triggers := triggers[id := Trigger(p, Answered)];
        OneMoreStep(start, steps, s, Create(id, row), Contents());
        steps := steps + [Create(id, row)];
        assert row in settlements && settlements[row].payment == p;
      }
    }

    /**
     * Makes sure the payment has a settlement row. A new row is handed to the
     * queue, or without one processed at once.
     */
    method EnqueueDepositSettlement(ghost id: ProcessId, p: PaymentId, row: SettlementId, queued: bool,
                                    ghost job: ProcessId, transaction: TransactionId, budget: nat)
      returns (created: bool, processed: Option<JobOutcome>, ghost steps: seq<Step>)
      requires TriggerAt(Contents(), id, Marked) && triggers[id].payment == p && p in payments && row !in settlements
      requires payments[p].walletTransaction.None?
      requires job !in jobs && !TransactionUsed(Contents(), transaction)
      modifies this
      ensures Runs(old(Contents()), steps) && Contents() == After(old(Contents()), steps)
      ensures created <==> !old(HasSettlement(Contents(), p))
      ensures HasSettlement(Contents(), p)
      ensures processed == if created && !queued then Some(JobEnd(budget)) else None
      ensures deposits == if processed.Some? && budget >= 3 then Deposited(old(Contents()), p, transaction) else old(deposits)
      ensures payments == if processed.Some? && budget >= 4 then WithLink(old(payments), p, deposits[p].transaction) else old(payments)
      ensures settlements ==
                if created
                then old(settlements)[row := Worked(Settlement(p, old(payments)[p].amount, Pending, 0), if queued then 0 else budget)]
                else old(settlements)
    {
      ghost var start := Contents();
      created, steps := CreateSettlement(id, p, row);
      processed := None;
      if created && !queued {
        var outcome;
        ghost var rest;
        outcome, rest := ProcessDepositSettlement(job, row, p, transaction, budget);
        RunsConcat(start, steps, rest);
        steps := steps + rest;
        processed := Some(outcome);
        assert row in settlements && settlements[row].payment == p;
      }
    }

    /**
     * A client's callback: pending and settled payments are left alone, a bad
     * signature marks the payment FAILED, a good one is a webhook. It leads to a
     * credit of its own exactly when the row is new and no queue takes it over.
     */
    method VerifyClientPayment(ghost id: ProcessId, p: PaymentId, row: SettlementId, pending: bool, valid: bool,
                               queued: bool, ghost job: ProcessId, transaction: TransactionId, budget: nat)
      returns (outcome: EnqueueOutcome, processed: Option<JobOutcome>, ghost steps: seq<Step>)
      requires p in payments && id !in triggers && row !in settlements
      requires job !in jobs && !TransactionUsed(Contents(), transaction)
      modifies this
      ensures Runs(old(Contents()), steps) && Contents() == After(old(Contents()), steps)
      ensures outcome == PaymentSettled <==> old(payments[p].walletTransaction.Some?)
      ensures outcome == StillPending <==> old(payments[p].walletTransaction.None?) && pending
      ensures outcome == SignatureRefused <==> old(payments[p].walletTransaction.None?) && !pending && !valid
      ensures outcome == SettlementKnown <==>
                old(payments[p].walletTransaction.None?) && !pending && valid && old(HasSettlement(Contents(), p))
      ensures outcome == SettlementCreated <==>
                old(payments[p].walletTransaction.None?) && !pending && valid && !old(HasSettlement(Contents(), p))
      ensures outcome == PaymentSettled || outcome == StillPending ==> Contents() == old(Contents())
      ensures outcome == SignatureRefused ==> payments == old(payments)[p := old(payments)[p].(status := PaymentFailed)]
      ensures outcome == SettlementKnown || outcome == SettlementCreated ==> HasSettlement(Contents(), p)
      ensures processed == if outcome == SettlementCreated && !queued then Some(JobEnd(budget)) else None
      ensures settlements ==
                if outcome == SettlementCreated
                then old(settlements)[row := Worked(Settlement(p, old(payments)[p].amount, Pending, 0), if queued then 0 else budget)]
                else old(settlements)
      ensures deposits == if processed.Some? && budget >= 3 then Deposited(old(Contents()), p, transaction) else old(deposits)
      ensures outcome == SettlementKnown || outcome == SettlementCreated ==>
                payments == if processed.Some? && budget >= 4 then WithLink(old(payments), p, deposits[p].transaction)
                            else old(payments)[p := old(payments)[p].(status := Captured)]
      ensures deposits != old(deposits) <==>
                && old(payments[p].walletTransaction.None?) && !pending && valid && !queued && budget >= 3
                && !old(HasSettlement(Contents(), p)) && p !in old(deposits)
    {
      ghost var start := Contents();
      steps := [];
      if payments[p].walletTransaction.Some? {
        return PaymentSettled, None, steps;
      }
      if pending {
        return StillPending, None, steps;
      }
      if valid {
        outcome, processed, steps := SettleDepositFromWebhook(id, p, row, queued, job, transaction, budget);
        return;
      }
      triggers := triggers[id := Trigger(p, Verified)];
      ghost var s := Contents();
      OneMoreStep(start, steps, start, Arrive(id, p), s);
      payments := payments[p := payments[p].(status := PaymentFailed)];
      triggers := triggers[id := Trigger(p, Answered)];
      OneMoreStep(start, steps + [Arrive(id, p)], s, Reject(id), Contents());
      steps := steps + [Arrive(id, p)] + [Reject(id)];
      outcome, processed := SignatureRefused, None;
    }

    method MarkProcessing(ghost id: ProcessId, row: SettlementId) returns (ghost steps: seq<Step>)
      requires Enabled(Contents(), Begin(id)) && jobs[id].settlement == row
      modifies this`settlements, this`jobs
      ensures Runs(old(Contents()), steps) && Contents() == After(old(Contents()), steps)
      ensures settlements == old(settlements)[row := Worked(old(settlements)[row], 1)]
      ensures jobs == old(jobs)[id := old(jobs)[id].(stage := Begun)]
    {
      ghost var start := Contents();
      settlements := settlements[row := settlements[row].(status := Processing, attempts := settlements[row].attempts + 1)];
      jobs := jobs[id := jobs[id].(stage := Begun)];
      OneMoreStep(start, [], start, Begin(id), Contents());
      steps := [] + [Begin(id)];
    }

    /** The wallet call: a key used before returns the first transaction. */
    method Deposit(ghost id: ProcessId, p: PaymentId, transaction: TransactionId) returns (credited: TransactionId)
      requires Enabled(Contents(), Credit(id, transaction)) && jobs[id].payment == p
      modifies this`deposits, this`jobs
      ensures Contents() == Apply(old(Contents()), Credit(id, transaction))
      ensures jobs[id].stage == Credited(credited)
    {
      if p !in deposits {
        deposits := deposits[p := DepositProtocol.Deposit(transaction, payments[p].amount)];
      }
      credited := deposits[p].transaction;
      jobs := jobs[id := jobs[id].(stage := Credited(credited))];
    }

    method MarkSettled(ghost id: ProcessId, p: PaymentId, credited: TransactionId)
      requires Enabled(Contents(), Link(id)) && jobs[id].payment == p && jobs[id].stage == Credited(credited)
      modifies this`payments, this`jobs
      ensures Contents() == Apply(old(Contents()), Link(id))
    {
      payments := payments[p := payments[p].(status := Captured, walletTransaction := Some(credited))];
      jobs := jobs[id := jobs[id].(stage := Linked)];
    }

    method MarkCompleted(ghost id: ProcessId, row: SettlementId)
      requires Enabled(Contents(), Complete(id)) && jobs[id].settlement == row
      modifies this`settlements, this`jobs
      ensures Contents() == Apply(old(Contents()), Complete(id))
    {
      settlements := settlements[row := settlements[row].(status := Completed)];
      jobs := jobs[id := jobs[id].(stage := Reporting)];
    }

    /** The audit record that follows; once it is written the job is over. */
    ghost method Reported(id: ProcessId)
      requires Enabled(Contents(), Report(id))
      modifies this`jobs
      ensures Contents() == Apply(old(Contents()), Report(id))
    {
      jobs := jobs[id := jobs[id].(stage := Over)];
    }

    method MarkFailed(ghost id: ProcessId, row: SettlementId)
      requires Enabled(Contents(), FailJob(id)) && jobs[id].settlement == row
      modifies this`settlements, this`jobs
      ensures Contents() == Apply(old(Contents()), FailJob(id))
    {
      settlements := settlements[row := settlements[row].(status := Failed)];
      jobs := jobs[id := jobs[id].(stage := Over)];
    }

    /** Deposit, link, complete: `budget` of the three succeed before one throws. */
    method CreditLinkComplete(ghost id: ProcessId, row: SettlementId, p: PaymentId, transaction: TransactionId, budget: nat)
      returns (ghost steps: seq<Step>)
      requires JobActive(Contents(), id) && jobs[id] == Job(row, p, Begun)
      requires !TransactionUsed(Contents(), transaction)
      modifies this
      ensures Runs(old(Contents()), steps) && Contents() == After(old(Contents()), steps)
      ensures JobActive(Contents(), id) && jobs[id].settlement == row && jobs[id].payment == p && jobs[id].stage != Read
      ensures deposits == if budget >= 1 then Deposited(old(Contents()), p, transaction) else old(deposits)
      ensures payments == if budget >= 2 then WithLink(old(payments), p, deposits[p].transaction) else old(payments)
      ensures settlements == if budget >= 3 then old(settlements)[row := old(settlements)[row].(status := Completed)] else old(settlements)
      ensures budget >= 3 ==> jobs[id].stage == Reporting
    {
      ghost var start := Contents();
      steps := [];
      if budget == 0 {
        return;
      }
      var credited := Deposit(id, p, transaction);
      OneMoreStep(start, steps, start, Credit(id, transaction), Contents());
      steps := steps + [Credit(id, transaction)];
      if budget == 1 {
        return;
      }
      ghost var s := Contents();
      MarkSettled(id, p, credited);
      OneMoreStep(start, steps, s, Link(id), Contents());
      steps := steps + [Link(id)];
      if budget == 2 {
        return;
      }
      s := Contents();
      MarkCompleted(id, row);
      OneMoreStep(start, steps, s, Complete(id), Contents());
      steps := steps + [Complete(id)];
    }

    /** The guarded part of the job; a failure of the audit record marks even a completed row FAILED. */
    method CreditAndLink(ghost id: ProcessId, row: SettlementId, p: PaymentId, transaction: TransactionId, budget: nat)
      returns (completed: bool, ghost steps: seq<Step>)
      requires JobActive(Contents(), id) && jobs[id] == Job(row, p, Begun)
      requires !TransactionUsed(Contents(), transaction)
      modifies this
      ensures Runs(old(Contents()), steps) && Contents() == After(old(Contents()), steps)
      ensures settlements == old(settlements)[row := old(settlements)[row].(status := if completed then Completed else Failed)]
      ensures completed <==> budget >= 4
      ensures deposits == if budget >= 1 then Deposited(old(Contents()), p, transaction) else old(deposits)
      ensures payments == if budget >= 2 then WithLink(old(payments), p, deposits[p].transaction) else old(payments)
    {
      ghost var start := Contents();
      steps := CreditLinkComplete(id, row, p, transaction, budget);
      ghost var s := Contents();
      completed := budget >= 4;
      if completed {
        Reported(id);
        OneMoreStep(start, steps, s, Report(id), Contents());
        steps := steps + [Report(id)];
      } else {
        MarkFailed(id, row);
        OneMoreStep(start, steps, s, FailJob(id), Contents());
        steps := steps + [FailJob(id)];
      }
    }

    /** A throw outside the guarded part ends the job and leaves the row as it is. */
    ghost method Stopped(id: ProcessId)
      requires Enabled(Contents(), Crash(id))
      modifies this`jobs
      ensures Contents() == Apply(old(Contents()), Crash(id))
    {
      jobs := jobs[id := jobs[id].(stage := Over)];
    }

    /**
     * The job: PROCESSING and the audit record of the start, then credit the
     * wallet once, link the payment, complete and record; `budget` of these six
     * writes succeed before one throws.
     */
    method ProcessDepositSettlement(ghost id: ProcessId, row: SettlementId, p: PaymentId,
                                    transaction: TransactionId, budget: nat)
      returns (outcome: JobOutcome, ghost steps: seq<Step>)
      requires id !in jobs && !TransactionUsed(Contents(), transaction)
      requires row in settlements ==> settlements[row].payment == p
      modifies this
      ensures Runs(old(Contents()), steps) && Contents() == After(old(Contents()), steps)
      ensures outcome == NotFound <==> !(row in old(settlements) && p in old(payments))
      ensures outcome == AlreadySettled <==>
                row in old(settlements) && p in old(payments) && old(payments)[p].walletTransaction.Some?
      ensures outcome == NotFound || outcome == AlreadySettled ==> Contents() == old(Contents())
      ensures outcome != NotFound && outcome != AlreadySettled ==>
                && outcome == JobEnd(budget)
                && deposits == (if budget >= 3 then Deposited(old(Contents()), p, transaction) else old(deposits))
                && payments == (if budget >= 4 then WithLink(old(payments), p, deposits[p].transaction) else old(payments))
                && settlements == old(settlements)[row := Worked(old(settlements)[row], budget)]
    {
      ghost var start := Contents();
      steps := [];
      if row !in settlements || p !in payments {
        return NotFound, steps;
      }
      if payments[p].walletTransaction.Some? {
        return AlreadySettled, steps;
      }
      jobs := jobs[id := Job(row, p, Read)];
      ghost var reading := Contents();
      OneMoreStep(start, steps, start, StartJob(id, row), reading);
      steps := steps + [StartJob(id, row)];
      ghost var rest;
      outcome, rest := RunJob(id, row, p, transaction, budget);
      RunsConcat(start, steps, rest);
      steps := steps + rest;
    }

    /** The writes of a job that found the payment unsettled. */
    method RunJob(ghost id: ProcessId, row: SettlementId, p: PaymentId, transaction: TransactionId, budget: nat)
      returns (outcome: JobOutcome, ghost steps: seq<Step>)
      requires JobActive(Contents(), id) && jobs[id] == Job(row, p, Read)
      requires !TransactionUsed(Contents(), transaction)
      modifies this
      ensures Runs(old(Contents()), steps) && Contents() == After(old(Contents()), steps)
      ensures outcome == JobEnd(budget)
      ensures deposits == if budget >= 3 then Deposited(old(Contents()), p, transaction) else old(deposits)
      ensures payments == if budget >= 4 then WithLink(old(payments), p, deposits[p].transaction) else old(payments)
      ensures settlements == old(settlements)[row := Worked(old(settlements)[row], budget)]
      ensures settlements[row].attempts == old(settlements)[row].attempts + if budget > 0 then 1 else 0
      ensures settlements[row].status == if budget == 0 then old(settlements)[row].status else if budget == 1 then Processing
                                         else if budget <= 5 then Failed else Completed
      ensures outcome == JobCompleted <==> budget >= 6
      ensures budget >= 3 ==>
                p in deposits && deposits[p] == if p in old(deposits) then old(deposits)[p]
                                                else DepositProtocol.Deposit(transaction, old(payments)[p].amount)
      ensures p in payments && payments[p].walletTransaction
                               == if budget >= 4 then Some(deposits[p].transaction) else old(payments)[p].walletTransaction
    {
      ghost var start := Contents();
      steps := [];
      if budget > 0 {
        steps := MarkProcessing(id, row);
      }
      ghost var s := Contents();
      if budget < 2 {
        Stopped(id);
        OneMoreStep(start, steps, s, Crash(id), Contents());
        return JobStopped, steps + [Crash(id)];
      }
      hide Runs, After;
      var completed;
      ghost var rest;
      completed, rest := CreditAndLink(id, row, p, transaction, budget - 2);
      RunsConcat(start, steps, rest);
      steps := steps + rest;
      outcome := if completed then JobCompleted else JobFailed;
    }
  }
}
