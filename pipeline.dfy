/**
 * The reconciliation run: settle the plans against the payments, then enrich
 * the debts with the settled plans. Fetching the three collections and
 * printing the result are not part of this model.
 */
module Pipeline {
  import opened Wrappers
  import opened Calendar
  import opened Records
  import opened Scheduler
  import opened Settlement
  import opened Enrichment

  /** The enriched debts a run produces from the three fetched collections. */
  function Reconcile(d: seq<DebtResponse>, plans: seq<PaymentPlanResponse>, payments: seq<PaymentResponse>, now: Time): seq<Debt> {
    EnrichDebts(d, SettlePlans(plans, payments), now)
  }

  /**
   * The processing part of gatherResponses: settle, then enrich. Neither
   * stage ever reports an error, so the run's error checks never fire.
   */
  method RunReconciliation(d: seq<DebtResponse>, plans: array<PaymentPlanResponse>, payments: seq<PaymentResponse>, now: Time)
    returns (processedDebts: seq<Debt>, err: Option<string>)
    modifies plans
    ensures err == None
    ensures processedDebts == Reconcile(d, old(plans[..]), payments, now)
    ensures plans[..] == NetAll(old(plans[..]), payments)
  {
    var processedPaymentPlans;
    processedPaymentPlans, err := ProcessPaymentPlans(plans, payments);
    processedDebts, err := ProcessDebts(d, processedPaymentPlans, payments, now);
  }

  /** A debt that no plan references is reported unchanged, whatever the payments. */
  lemma ReconcileWithoutPlan(
    d: seq<DebtResponse>, plans: seq<PaymentPlanResponse>, payments: seq<PaymentResponse>, now: Time, i: int)
    requires 0 <= i < |d|
    requires forall j :: 0 <= j < |plans| ==> plans[j].debtId != d[i].id
    ensures |Reconcile(d, plans, payments, now)| == |d|
    ensures Reconcile(d, plans, payments, now)[i] == Debt(d[i].id, d[i].amount, false, d[i].amount, ZeroTime)
  {
    var settled := SettlePlans(plans, payments);
    forall j | 0 <= j < |settled|
      ensures settled[j].debtId != d[i].id
    {
      SettledPlan(plans, payments, j);
    }
    NoPlanPassesThrough(d[i], settled, now);
  }

  /**
   * A debt whose first plan (in input order) is plans[j]: it is flagged as in a
   * plan; when the payments to that plan's id cover what it asks, nothing
   * remains and there is no due date; otherwise the unpaid residual remains and
   * the next installment date of that plan is due.
   */
  lemma ReconcileWithPlan(
    d: seq<DebtResponse>, plans: seq<PaymentPlanResponse>, payments: seq<PaymentResponse>, now: Time, i: int, j: nat)
    requires 0 <= i < |d|
    requires j < |plans| && plans[j].debtId == d[i].id
    requires forall k :: 0 <= k < j ==> plans[k].debtId != d[i].id
    ensures |Reconcile(d, plans, payments, now)| == |d|
    ensures var r, residual := Reconcile(d, plans, payments, now)[i], plans[j].amountToPay - PaidTo(payments, plans[j].id);
      && r.id == d[i].id && r.amount == d[i].amount
      && r.isInPaymentPlan
      && (residual <= 0 ==> r.remainingAmount == 0 && r.nextPaymentDueDate == ZeroTime)
      && (residual > 0 ==>
            r.remainingAmount == residual &&
            r.nextPaymentDueDate == NextPaymentDueDate(plans[j].startDate, plans[j].installmentFrequency, now))
  {
    var settled := SettlePlans(plans, payments);
    forall k | 0 <= k < j
      ensures settled[k].debtId != d[i].id
    {
      SettledPlan(plans, payments, k);
    }
    SettledPlan(plans, payments, j);
    FirstPlanDecides(d[i], settled, now, j);
  }

  /**
   * A debt of 500 under a plan asking 400, paid in full by one payment: the
   * plan settles as complete and the debt reports nothing remaining and no
   * due date, but it is still flagged as in a payment plan.
   */
  lemma PaidOffPlanScenario(now: Time)
    ensures var plans := [PaymentPlanResponse(10, 1, 400, "WEEKLY", 100, "2023-01-01")];
            var payments := [PaymentResponse(10, 400, "2023-01-08")];
      && SettlePlans(plans, payments) == [PaymentPlan(10, 1, 0, "WEEKLY", 100, "2023-01-01", true)]
      && Reconcile([DebtResponse(1, 500)], plans, payments, now) == [Debt(1, 500, true, 0, ZeroTime)]
  {
    var plans := [PaymentPlanResponse(10, 1, 400, "WEEKLY", 100, "2023-01-01")];
    var payments := [PaymentResponse(10, 400, "2023-01-08")];
    assert payments[..0] == [];
    assert PaidTo(payments, 10) == 400;
    FirstPlanIndexIs(SettlePlans(plans, payments), 1, 0);
  }

  /**
   * A plan with a frequency the schedule does not know and an amount still
   * owed: the debt is in a plan and owes the residual, but gets no due date.
   */
  lemma UnknownFrequencyScenario(now: Time)
    ensures var plans := [PaymentPlanResponse(10, 1, 400, "MONTHLY", 100, "2023-01-01")];
            var payments := [PaymentResponse(10, 100, "2023-01-08")];
      Reconcile([DebtResponse(1, 500)], plans, payments, now) == [Debt(1, 500, true, 300, ZeroTime)]
  {
    var plans := [PaymentPlanResponse(10, 1, 400, "MONTHLY", 100, "2023-01-01")];
    var payments := [PaymentResponse(10, 100, "2023-01-08")];
    assert payments[..0] == [];
    assert PaidTo(payments, 10) == 100;
    assert PeriodOf("MONTHLY") == None;
    FirstPlanIndexIs(SettlePlans(plans, payments), 1, 0);
  }
}
