/**
 * Crediting deposits: webhooks, client verifications, queue workers, retries
 * and crashes as interleaved store writes.
 */
module DepositProtocol {
  import opened Options

  type PaymentId = nat
  type SettlementId = nat
  type TransactionId = nat
  type ProcessId = nat

  datatype PaymentStatus = Created | Captured | PaymentFailed

  datatype Payment = Payment(amount: nat, status: PaymentStatus, walletTransaction: Option<TransactionId>)

  datatype SettlementStatus = Pending | Processing | Completed | Failed

  datatype Settlement = Settlement(payment: PaymentId, amount: nat, status: SettlementStatus, attempts: nat)

  /** The wallet transaction under the key `payment-settle:<paymentId>`. */
  datatype Deposit = Deposit(transaction: TransactionId, amount: nat)

  /** A webhook or client call that found the payment unsettled. */
  datatype TriggerStage = Verified | Marked | Creating | Answered
  datatype Trigger = Trigger(payment: PaymentId, stage: TriggerStage)

  /** One run of the settlement job, from its first read on; `Reporting` is the audit record after completion. */
  datatype JobStage = Read | Begun | Credited(transaction: TransactionId) | Linked | Reporting | Over
  datatype Job = Job(settlement: SettlementId, payment: PaymentId, stage: JobStage)

  datatype State = State(payments: map<PaymentId, Payment>, settlements: map<SettlementId, Settlement>,
                         deposits: map<PaymentId, Deposit>,
                         triggers: map<ProcessId, Trigger>, jobs: map<ProcessId, Job>)

  datatype Step =
    | Arrive(id: ProcessId, payment: PaymentId)
    | Reject(id: ProcessId)
    | Capture(id: ProcessId)
    | LookUp(id: ProcessId)
    | Create(id: ProcessId, settlement: SettlementId)
    | StartJob(id: ProcessId, settlement: SettlementId)
    | Begin(id: ProcessId)
    | Credit(id: ProcessId, transaction: TransactionId)
    | Link(id: ProcessId)
    | Complete(id: ProcessId)
    | Report(id: ProcessId)
    | FailJob(id: ProcessId)
    | Crash(id: ProcessId)

  /** The unique index on the settlement key `deposit:<paymentId>`. */
  predicate HasSettlement(s: State, payment: PaymentId)
  {
    exists row :: row in s.settlements && s.settlements[row].payment == payment
  }

  predicate TriggerAt(s: State, id: ProcessId, stage: TriggerStage)
  {
    id in s.triggers && s.triggers[id].stage == stage && s.triggers[id].payment in s.payments
  }

  predicate JobActive(s: State, id: ProcessId)
  {
    id in s.jobs && s.jobs[id].payment in s.payments && s.jobs[id].settlement in s.settlements && s.jobs[id].stage != Over
  }

  predicate TransactionUsed(s: State, transaction: TransactionId)
  {
    exists p :: p in s.deposits && s.deposits[p].transaction == transaction
  }

  predicate Enabled(s: State, step: Step)
  {
    match step
    case Arrive(id, p) => id !in s.triggers && p in s.payments && s.payments[p].walletTransaction.None?
    case Reject(id) => TriggerAt(s, id, Verified)
    case Capture(id) => TriggerAt(s, id, Verified)
    case LookUp(id) => TriggerAt(s, id, Marked)
    case Create(id, row) => TriggerAt(s, id, Creating) && row !in s.settlements
    case StartJob(id, row) =>
      && id !in s.jobs && row in s.settlements && s.settlements[row].payment in s.payments
      && s.payments[s.settlements[row].payment].walletTransaction.None?
    case Begin(id) => JobActive(s, id) && s.jobs[id].stage == Read
    case Credit(id, transaction) =>
      JobActive(s, id) && s.jobs[id].stage == Begun && !TransactionUsed(s, transaction)
    case Link(id) => JobActive(s, id) && s.jobs[id].stage.Credited?
    case Complete(id) => JobActive(s, id) && s.jobs[id].stage == Linked
    case Report(id) => JobActive(s, id) && s.jobs[id].stage == Reporting
    case FailJob(id) => JobActive(s, id) && s.jobs[id].stage != Read
    case Crash(id) => JobActive(s, id)
  }

  function WithTrigger(s: State, id: ProcessId, stage: TriggerStage): State
    requires id in s.triggers
  {
    s.(triggers := s.triggers[id := s.triggers[id].(stage := stage)])
  }

  function WithJob(s: State, id: ProcessId, stage: JobStage): State
    requires id in s.jobs
  {
    s.(jobs := s.jobs[id := s.jobs[id].(stage := stage)])
  }

  function WithStatus(s: State, row: SettlementId, status: SettlementStatus): State
    requires row in s.settlements
  {
    s.(settlements := s.settlements[row := s.settlements[row].(status := status)])
  }

  /** `transaction` names the wallet transaction in case one is created. */
  function Deposited(s: State, p: PaymentId, transaction: TransactionId): map<PaymentId, Deposit>
    requires p in s.payments
  {
    if p in s.deposits then s.deposits else s.deposits[p := Deposit(transaction, s.payments[p].amount)]
  }

  function Apply(s: State, step: Step): State
    requires Enabled(s, step)
  {
    match step
    case Arrive(id, p) => s.(triggers := s.triggers[id := Trigger(p, Verified)])
    case Reject(id) =>
      var p := s.triggers[id].payment;
      WithTrigger(s, id, Answered).(payments := s.payments[p := s.payments[p].(status := PaymentFailed)])
    case Capture(id) =>
      var p := s.triggers[id].payment;
      WithTrigger(s, id, Marked).(payments := s.payments[p := s.payments[p].(status := Captured)])
    case LookUp(id) => WithTrigger(s, id, if HasSettlement(s, s.triggers[id].payment) then Answered else Creating)
    case Create(id, row) =>
      var p := s.triggers[id].payment;
      if HasSettlement(s, p) then WithTrigger(s, id, Answered)
      else WithTrigger(s, id, Answered).(settlements := s.settlements[row := Settlement(p, s.payments[p].amount, Pending, 0)])
    case StartJob(id, row) => s.(jobs := s.jobs[id := Job(row, s.settlements[row].payment, Read)])
    case Begin(id) =>
      var row := s.jobs[id].settlement;
      WithJob(s, id, Begun).(settlements :=
        s.settlements[row := s.settlements[row].(status := Processing, attempts := s.settlements[row].attempts + 1)])
    case Credit(id, transaction) =>
      var p := s.jobs[id].payment;
      var deposits := Deposited(s, p, transaction);
      WithJob(s, id, Credited(deposits[p].transaction)).(deposits := deposits)
    case Link(id) =>
      var p := s.jobs[id].payment;
      WithJob(s, id, Linked).(payments :=
        s.payments[p := s.payments[p].(status := Captured, walletTransaction := Some(s.jobs[id].stage.transaction))])
    case Complete(id) => WithStatus(WithJob(s, id, Reporting), s.jobs[id].settlement, Completed)
    case Report(id) => WithJob(s, id, Over)
    case FailJob(id) => WithStatus(WithJob(s, id, Over), s.jobs[id].settlement, Failed)
    case Crash(id) => WithJob(s, id, Over)
  }

  predicate Runs(s: State, steps: seq<Step>)
    decreases |steps|
  {
    steps == [] || (Enabled(s, steps[0]) && Runs(Apply(s, steps[0]), steps[1..]))
  }

  function After(s: State, steps: seq<Step>): State
    requires Runs(s, steps)
    decreases |steps|
  {
    if steps == [] then s else After(Apply(s, steps[0]), steps[1..])
  }

  /** Extending a run by one step. */
  lemma {:induction false} OneMoreStep(s: State, steps: seq<Step>, t: State, step: Step, u: State)
    requires Runs(s, steps) && After(s, steps) == t
    requires Enabled(t, step) && Apply(t, step) == u
    ensures Runs(s, steps + [step]) && After(s, steps + [step]) == u
    decreases |steps|
  {
    if steps == [] {
      assert steps + [step] == [step];
      assert [step][1..] == [];
    } else {
      assert (steps + [step])[1..] == steps[1..] + [step];
      OneMoreStep(Apply(s, steps[0]), steps[1..], t, step, u);
    }
  }

  /** One run after another. */
  lemma {:induction false} RunsConcat(s: State, first: seq<Step>, second: seq<Step>)
    requires Runs(s, first) && Runs(After(s, first), second)
    ensures Runs(s, first + second) && After(s, first + second) == After(After(s, first), second)
    decreases |first|
  {
    if first == [] {
      assert first + second == second;
    } else {
      assert (first + second)[1..] == first[1..] + second;
      RunsConcat(Apply(s, first[0]), first[1..], second);
    }
  }

  predicate Initial(s: State)
  {
    && s.settlements == map[] && s.deposits == map[] && s.triggers == map[] && s.jobs == map[]
    && forall p :: p in s.payments ==> s.payments[p].walletTransaction.None?
  }

  // ---- What every reachable state satisfies ----------------------------------------------------

  ghost predicate Settled(s: State, p: PaymentId)
  {
    p in s.payments && s.payments[p].walletTransaction.Some?
  }

  /** A linked payment points at its one wallet credit, which is for its amount. */
  ghost predicate PaymentOk(s: State, p: PaymentId)
    requires p in s.payments
  {
    && (p in s.deposits ==> s.deposits[p].amount == s.payments[p].amount)
    && (s.payments[p].walletTransaction.Some? ==>
          p in s.deposits && s.deposits[p].transaction == s.payments[p].walletTransaction.value)
  }

  ghost predicate SettlementOk(s: State, row: SettlementId)
    requires row in s.settlements
  {
    && s.settlements[row].payment in s.payments
    && s.settlements[row].amount == s.payments[s.settlements[row].payment].amount
    && (s.settlements[row].status == Completed ==> Settled(s, s.settlements[row].payment))
  }

  ghost predicate JobOk(s: State, id: ProcessId)
    requires id in s.jobs
  {
    var job := s.jobs[id];
    && job.settlement in s.settlements && s.settlements[job.settlement].payment == job.payment
    && (job.stage.Credited? ==> job.payment in s.deposits && s.deposits[job.payment].transaction == job.stage.transaction)
    && (job.stage == Linked ==> Settled(s, job.payment))
  }

  ghost predicate SameKey(s: State, a: SettlementId, b: SettlementId)
    requires a in s.settlements && b in s.settlements
  {
    s.settlements[a].payment == s.settlements[b].payment
  }

  ghost predicate SameTransaction(s: State, p: PaymentId, q: PaymentId)
    requires p in s.deposits && q in s.deposits
  {
    s.deposits[p].transaction == s.deposits[q].transaction
  }

  ghost predicate Inv(s: State)
  {
    && s.deposits.Keys <= s.payments.Keys
    && (forall p {:trigger PaymentOk(s, p)} :: p in s.payments ==> PaymentOk(s, p))
    && (forall row {:trigger SettlementOk(s, row)} :: row in s.settlements ==> SettlementOk(s, row))
    && (forall id {:trigger JobOk(s, id)} :: id in s.jobs ==> JobOk(s, id))
    && (forall a, b {:trigger SameKey(s, a, b)} :: a in s.settlements && b in s.settlements && SameKey(s, a, b) ==> a == b)
    && (forall p, q {:trigger SameTransaction(s, p, q)} ::
          p in s.deposits && q in s.deposits && SameTransaction(s, p, q) ==> p == q)
  }

  ghost predicate OfJob(step: Step)
  {
    step.Begin? || step.Credit? || step.Link? || step.Complete? || step.Report? || step.FailJob? || step.Crash?
  }

  lemma PaymentStaysOk(s: State, step: Step, p: PaymentId)
    requires Inv(s) && Enabled(s, step) && p in Apply(s, step).payments
    ensures PaymentOk(Apply(s, step), p)
  {
    assert PaymentOk(s, p);
    assert OfJob(step) ==> JobOk(s, step.id);
  }

  lemma SettlementStaysOk(s: State, step: Step, row: SettlementId)
    requires Inv(s) && Enabled(s, step) && row in Apply(s, step).settlements
    ensures SettlementOk(Apply(s, step), row)
  {
    assert row in s.settlements ==> SettlementOk(s, row);
    assert OfJob(step) ==> JobOk(s, step.id);
  }

  lemma JobStaysOk(s: State, step: Step, id: ProcessId)
    requires Inv(s) && Enabled(s, step) && id in Apply(s, step).jobs
    ensures JobOk(Apply(s, step), id)
  {
    assert id in s.jobs ==> JobOk(s, id);
    assert OfJob(step) ==> JobOk(s, step.id);
  }

  lemma StepKeepsInv(s: State, step: Step)
    requires Inv(s) && Enabled(s, step)
    ensures Inv(Apply(s, step))
  {
    var t := Apply(s, step);
    forall p | p in t.payments ensures PaymentOk(t, p) {
      PaymentStaysOk(s, step, p);
    }
    forall row | row in t.settlements ensures SettlementOk(t, row) {
      SettlementStaysOk(s, step, row);
    }
    forall id | id in t.jobs ensures JobOk(t, id) {
      JobStaysOk(s, step, id);
    }
    forall a, b | a in t.settlements && b in t.settlements && SameKey(t, a, b) ensures a == b {
      assert a in s.settlements && b in s.settlements ==> (SameKey(s, a, b) ==> a == b);
    }
    forall p, q | p in t.deposits && q in t.deposits && SameTransaction(t, p, q) ensures p == q {
      assert p in s.deposits && q in s.deposits ==> (SameTransaction(s, p, q) ==> p == q);
    }
  }

  lemma {:induction false} InvHolds(s: State, steps: seq<Step>)
    requires Inv(s) && Runs(s, steps)
    ensures Inv(After(s, steps))
    decreases |steps|
  {
    if steps != [] {
      StepKeepsInv(s, steps[0]);
      InvHolds(Apply(s, steps[0]), steps[1..]);
    }
  }

  // ---- Exactly once ------------------------------------------------------------------------------

  /**
   * Over any interleaving: a credit is for the amount of its payment, a linked
   * transaction is that credit, COMPLETED implies linked, and no payment has
   * two settlement rows.
   */
  lemma DepositsAreSound(s: State, steps: seq<Step>)
    requires Initial(s) && Runs(s, steps)
    ensures var t := After(s, steps);
      && (forall p :: p in t.deposits ==> p in t.payments && t.deposits[p].amount == t.payments[p].amount)
      && (forall p :: p in t.payments && t.payments[p].walletTransaction.Some? ==>
            p in t.deposits && t.payments[p].walletTransaction == Some(t.deposits[p].transaction))
      && (forall row :: row in t.settlements && t.settlements[row].status == Completed ==> Settled(t, t.settlements[row].payment))
      && (forall a, b :: a in t.settlements && b in t.settlements && a != b ==> t.settlements[a].payment != t.settlements[b].payment)
  {
    InvHolds(s, steps);
    var t := After(s, steps);
    forall p | p in t.payments ensures PaymentOk(t, p) {
    }
    forall row | row in t.settlements ensures SettlementOk(t, row) {
    }
    forall a, b | a in t.settlements && b in t.settlements && a != b ensures !SameKey(t, a, b) {
      assert SameKey(t, a, b) ==> a == b;
    }
  }

  lemma StepKeepsCredit(s: State, step: Step, p: PaymentId)
    requires Inv(s) && Enabled(s, step)
    ensures p in s.payments ==> p in Apply(s, step).payments && Apply(s, step).payments[p].amount == s.payments[p].amount
    ensures p in s.deposits ==> p in Apply(s, step).deposits && Apply(s, step).deposits[p] == s.deposits[p]
    ensures Settled(s, p) ==>
              Settled(Apply(s, step), p) && Apply(s, step).payments[p].walletTransaction == s.payments[p].walletTransaction
  {
    assert p in s.payments ==> PaymentOk(s, p);
    assert OfJob(step) ==> JobOk(s, step.id);
  }

  /** A credit is never repeated or changed, and a link once set is set for good. */
  lemma {:induction false} CreditedOnce(s: State, steps: seq<Step>, p: PaymentId)
    requires Inv(s) && Runs(s, steps)
    ensures p in s.deposits ==> p in After(s, steps).deposits && After(s, steps).deposits[p] == s.deposits[p]
    ensures Settled(s, p) ==>
              Settled(After(s, steps), p) && After(s, steps).payments[p].walletTransaction == s.payments[p].walletTransaction
    decreases |steps|
  {
    if steps != [] {
      StepKeepsCredit(s, steps[0], p);
      StepKeepsInv(s, steps[0]);
      CreditedOnce(Apply(s, steps[0]), steps[1..], p);
    }
  }

  /** The same, between any two moments of a run from the start. */
  lemma LinkNeverChanges(s: State, steps: seq<Step>, more: seq<Step>, p: PaymentId)
    requires Initial(s) && Runs(s, steps) && Runs(After(s, steps), more)
    requires Settled(After(s, steps), p)
    ensures var t, u := After(s, steps), After(After(s, steps), more);
      && Settled(u, p) && u.payments[p].walletTransaction == t.payments[p].walletTransaction
      && p in t.deposits && p in u.deposits && u.deposits[p] == t.deposits[p]
  {
    InvHolds(s, steps);
    assert PaymentOk(After(s, steps), p);
    CreditedOnce(After(s, steps), more, p);
    InvHolds(After(s, steps), more);
    assert PaymentOk(After(After(s, steps), more), p);
  }
}
