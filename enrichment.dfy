/**
 * Debt enrichment: each debt is joined with the first settled plan that
 * references it, which decides whether the debt is in a payment plan, what
 * remains to be paid and when the next installment is due.
 */
module Enrichment {
  import opened Wrappers
  import opened Calendar
  import opened Records
  import opened Scheduler

  /** The position of the first plan for debt `debtId`, scanning in order. */
  function FirstPlanIndex(pp: seq<PaymentPlan>, debtId: int): (r: Option<nat>)
    ensures r.Some? ==> r.value < |pp| && pp[r.value].debtId == debtId
    ensures r.Some? ==> forall k :: 0 <= k < r.value ==> pp[k].debtId != debtId
    ensures r.None? <==> forall k :: 0 <= k < |pp| ==> pp[k].debtId != debtId
  {
    if pp == [] then None
    else if pp[0].debtId == debtId then Some(0)
    else
      match FirstPlanIndex(pp[1..], debtId)
      case None => None
      case Some(k) => Some(k + 1)
  }

  /** The enriched record of one debt, given the settled plans and the clock. */
  function EnrichDebt(debt: DebtResponse, pp: seq<PaymentPlan>, now: Time): Debt {
    match FirstPlanIndex(pp, debt.id)
    case None => Debt(debt.id, debt.amount, false, debt.amount, ZeroTime)
    case Some(j) =>
      if pp[j].isComplete then Debt(debt.id, debt.amount, true, 0, ZeroTime)
      else Debt(debt.id, debt.amount, true, pp[j].amountToPay,
                NextPaymentDueDate(pp[j].startDate, pp[j].installmentFrequency, now))
  }

  /** The enriched records of all debts, one per debt, in the same order. */
  function EnrichDebts(d: seq<DebtResponse>, pp: seq<PaymentPlan>, now: Time): seq<Debt> {
    seq(|d|, i requires 0 <= i < |d| => EnrichDebt(d[i], pp, now))
  }

  /** The first plan for a debt is the one at the position the scan stops at. */
  lemma FirstPlanIndexIs(pp: seq<PaymentPlan>, debtId: int, j: nat)
    requires j < |pp| && pp[j].debtId == debtId
    requires forall k :: 0 <= k < j ==> pp[k].debtId != debtId
    ensures FirstPlanIndex(pp, debtId) == Some(j)
  {
  }

  /**
   * processDebts. The payments are not consulted (the settled plans already
   * account for them), and it never reports an error.
   */
  method ProcessDebts(d: seq<DebtResponse>, pp: seq<PaymentPlan>, payments: seq<PaymentResponse>, now: Time)
    returns (debts: seq<Debt>, err: Option<string>)
    ensures err == None
    ensures |debts| == |d|
    ensures forall i :: 0 <= i < |d| ==> debts[i] == EnrichDebt(d[i], pp, now)
  {
    err := None;
    debts := [];
    for i := 0 to |d|
      invariant |debts| == i
      invariant forall k :: 0 <= k < i ==> debts[k] == EnrichDebt(d[k], pp, now)
    {
      var paymentPlanFound := false;
      var remainingAmount := 0;
      var nextPaymentDueDate := ZeroTime;

      var j := 0;
      while j < |pp|
        invariant 0 <= j <= |pp|
        invariant forall k :: 0 <= k < j ==> pp[k].debtId != d[i].id
        invariant !paymentPlanFound && remainingAmount == 0 && nextPaymentDueDate == ZeroTime
      {
        if d[i].id == pp[j].debtId {
          paymentPlanFound := true;
          if pp[j].isComplete {
            remainingAmount := 0;
          } else {
            remainingAmount := pp[j].amountToPay;
            nextPaymentDueDate := CalculateNextPaymentDueDate(pp[j].startDate, pp[j].installmentFrequency, now);
          }
          FirstPlanIndexIs(pp, d[i].id, j);
          break;
        }
        j := j + 1;
      }

      var debt := Debt(d[i].id, d[i].amount, paymentPlanFound, 0, nextPaymentDueDate);
      if paymentPlanFound {
        debt := debt.(remainingAmount := remainingAmount);
      } else {
        debt := debt.(remainingAmount := d[i].amount);
      }
      debts := debts + [debt];
    }
  }

  /** A debt that no plan references passes through: not in a plan, the whole amount owed, no due date. */
  lemma NoPlanPassesThrough(debt: DebtResponse, pp: seq<PaymentPlan>, now: Time)
    requires forall j :: 0 <= j < |pp| ==> pp[j].debtId != debt.id
    ensures EnrichDebt(debt, pp, now) == Debt(debt.id, debt.amount, false, debt.amount, ZeroTime)
  {
  }

  /** A debt is reported as in a payment plan exactly when some plan references it. */
  lemma InPaymentPlanIffReferenced(debt: DebtResponse, pp: seq<PaymentPlan>, now: Time)
    ensures EnrichDebt(debt, pp, now).isInPaymentPlan <==> exists j :: 0 <= j < |pp| && pp[j].debtId == debt.id
  {
    var r := FirstPlanIndex(pp, debt.id);
    if r.Some? {
      assert pp[r.value].debtId == debt.id;
    }
  }

  /**
   * Only the first plan that references the debt matters: a complete one
   * leaves nothing to pay and no due date; an incomplete one gives its
   * residual and its next due date. Either way the debt is flagged as in a plan.
   */
  lemma FirstPlanDecides(debt: DebtResponse, pp: seq<PaymentPlan>, now: Time, j: nat)
    requires j < |pp| && pp[j].debtId == debt.id
    requires forall k :: 0 <= k < j ==> pp[k].debtId != debt.id
    ensures var e := EnrichDebt(debt, pp, now);
      && e.id == debt.id && e.amount == debt.amount
      && e.isInPaymentPlan
      && (pp[j].isComplete ==> e.remainingAmount == 0 && e.nextPaymentDueDate == ZeroTime)
      && (!pp[j].isComplete ==>
            e.remainingAmount == pp[j].amountToPay &&
            e.nextPaymentDueDate == NextPaymentDueDate(pp[j].startDate, pp[j].installmentFrequency, now))
  {
    FirstPlanIndexIs(pp, debt.id, j);
  }

  /**
   * The command's description says a debt whose plan is completed is not in a
   * payment plan; the code reports it as in one, with nothing remaining.
   */
  lemma CompletedPlanStillFlagged(debt: DebtResponse, pp: seq<PaymentPlan>, now: Time)
    requires FirstPlanIndex(pp, debt.id).Some?
    requires pp[FirstPlanIndex(pp, debt.id).value].isComplete
    ensures EnrichDebt(debt, pp, now).isInPaymentPlan
    ensures EnrichDebt(debt, pp, now).remainingAmount == 0
  {
  }

  /** Plans after the first one that references the debt never change its record. */
  lemma LaterPlansIgnored(debt: DebtResponse, pp: seq<PaymentPlan>, more: seq<PaymentPlan>, now: Time, j: nat)
    requires j < |pp| && pp[j].debtId == debt.id
    ensures EnrichDebt(debt, pp + more, now) == EnrichDebt(debt, pp, now)
  {
    var first := FirstPlanIndex(pp, debt.id).value;
    FirstPlanIndexIs(pp + more, debt.id, first);
  }

  /** A plan that references another debt never changes this debt's record, wherever it stands. */
  lemma OtherDebtsPlansIgnored(
    debt: DebtResponse, a: seq<PaymentPlan>, q: PaymentPlan, b: seq<PaymentPlan>, now: Time)
    requires q.debtId != debt.id
    ensures EnrichDebt(debt, a + [q] + b, now) == EnrichDebt(debt, a + b, now)
  {
    var with, without := a + [q] + b, a + b;
    match FirstPlanIndex(without, debt.id)
    case None =>
      forall k | 0 <= k < |with|
        ensures with[k].debtId != debt.id
      {
        if k > |a| {
          assert with[k] == without[k - 1];
        } else if k < |a| {
          assert with[k] == without[k];
        }
      }
    case Some(j) =>
      var j' := if j < |a| then j else j + 1;
      assert with[j'] == without[j];
      forall k | 0 <= k < j'
        ensures with[k].debtId != debt.id
      {
        if k > |a| {
          assert with[k] == without[k - 1];
        } else if k < |a| {
          assert with[k] == without[k];
        }
      }
      FirstPlanIndexIs(with, debt.id, j');
  }
}
