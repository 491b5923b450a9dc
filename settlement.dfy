/**
 * Plan settlement: every payment is subtracted from the plans it references,
 * in the caller's own slice of plans, and each plan is then copied into a
 * settled plan whose completion flag says whether nothing is left to pay.
 */
module Settlement {
  import opened Wrappers
  import opened Records

  /** The sum of the amounts of the payments in `p` that reference plan `planId`. */
  function PaidTo(p: seq<PaymentResponse>, planId: int): int {
    if p == [] then 0
    else PaidTo(p[..|p| - 1], planId)
         + (if p[|p| - 1].paymentPlanId == planId then p[|p| - 1].amount else 0)
  }

  /** A raw plan whose amount to pay has had every payment referencing it subtracted. */
  function Net(plan: PaymentPlanResponse, p: seq<PaymentResponse>): PaymentPlanResponse {
    plan.(amountToPay := plan.amountToPay - PaidTo(p, plan.id))
  }

  /** The caller's plans after settlement has updated them in place. */
  function NetAll(pp: seq<PaymentPlanResponse>, p: seq<PaymentResponse>): seq<PaymentPlanResponse> {
    seq(|pp|, j requires 0 <= j < |pp| => Net(pp[j], p))
  }

  /** The settled copy of a raw plan: complete once nothing, or less than nothing, is left. */
  function Annotate(plan: PaymentPlanResponse): PaymentPlan {
    PaymentPlan(plan.id, plan.debtId, plan.amountToPay, plan.installmentFrequency,
                plan.installmentAmount, plan.startDate, plan.amountToPay <= 0)
  }

  /** The settled plans, one per raw plan, in the same order. */
  function SettlePlans(pp: seq<PaymentPlanResponse>, p: seq<PaymentResponse>): seq<PaymentPlan> {
    seq(|pp|, j requires 0 <= j < |pp| => Annotate(Net(pp[j], p)))
  }

  /**
   * processPaymentPlans. The plans arrive in a slice that the caller shares:
   * the payments are subtracted in that slice, and the settled copies are
   * built from it afterwards. It never reports an error.
   */
  method ProcessPaymentPlans(pp: array<PaymentPlanResponse>, p: seq<PaymentResponse>)
    returns (paymentPlans: seq<PaymentPlan>, err: Option<string>)
    modifies pp
    ensures pp[..] == NetAll(old(pp[..]), p)
    ensures paymentPlans == SettlePlans(old(pp[..]), p)
    ensures err == None
  {
    err := None;
    for i := 0 to |p|
      invariant forall k :: 0 <= k < pp.Length ==> pp[k] == Net(old(pp[k]), p[..i])
    {
      assert p[..i + 1][..i] == p[..i];
      for j := 0 to pp.Length
        invariant forall k :: 0 <= k < j ==> pp[k] == Net(old(pp[k]), p[..i + 1])
        invariant forall k :: j <= k < pp.Length ==> pp[k] == Net(old(pp[k]), p[..i])
      {
        if p[i].paymentPlanId == pp[j].id {
          pp[j] := pp[j].(amountToPay := pp[j].amountToPay - p[i].amount);
        }
      }
    }
    assert p[..|p|] == p;

    paymentPlans := [];
    for i := 0 to pp.Length
      invariant |paymentPlans| == i
      invariant forall k :: 0 <= k < i ==> paymentPlans[k] == Annotate(pp[k])
    {
      var paymentPlan := PaymentPlan(pp[i].id, pp[i].debtId, pp[i].amountToPay,
                                     pp[i].installmentFrequency, pp[i].installmentAmount,
                                     pp[i].startDate, false);
      if pp[i].amountToPay <= 0 {
        paymentPlan := paymentPlan.(isComplete := true);
      }
      paymentPlans := paymentPlans + [paymentPlan];
    }
  }

  /**
   * Settlement is a one-to-one, order-preserving copy: every field but the
   * amount is kept, the amount is what was owed minus everything paid to
   * that plan id (an overpayment stays negative), and the plan is complete
   * exactly when that residual is not positive.
   */
  lemma SettledPlan(pp: seq<PaymentPlanResponse>, p: seq<PaymentResponse>, j: int)
    requires 0 <= j < |pp|
    ensures |SettlePlans(pp, p)| == |pp|
    ensures var s := SettlePlans(pp, p)[j];
      && s.id == pp[j].id
      && s.debtId == pp[j].debtId
      && s.installmentFrequency == pp[j].installmentFrequency
      && s.installmentAmount == pp[j].installmentAmount
      && s.startDate == pp[j].startDate
      && s.amountToPay == pp[j].amountToPay - PaidTo(p, pp[j].id)
      && (s.isComplete <==> pp[j].amountToPay <= PaidTo(p, pp[j].id))
  {
  }

  /** What is paid to a plan over two runs of payments is the sum of the two. */
  lemma {:induction false} PaidToAppend(a: seq<PaymentResponse>, b: seq<PaymentResponse>, planId: int)
    ensures PaidTo(a + b, planId) == PaidTo(a, planId) + PaidTo(b, planId)
    decreases |b|
  {
    if b == [] {
      assert a + b == a;
    } else {
      var b' := b[..|b| - 1];
      assert (a + b)[..|a + b| - 1] == a + b';
      PaidToAppend(a, b', planId);
    }
  }

  /** Payments that reference a plan id contribute nothing to any other plan. */
  lemma {:induction false} PaidToWithoutMatches(p: seq<PaymentResponse>, planId: int)
    requires forall i :: 0 <= i < |p| ==> p[i].paymentPlanId != planId
    ensures PaidTo(p, planId) == 0
    decreases |p|
  {
    if p != [] {
      PaidToWithoutMatches(p[..|p| - 1], planId);
    }
  }

  /** A payment that references no plan in the list changes no settled plan. */
  lemma UnmatchedPaymentIgnored(
    pp: seq<PaymentPlanResponse>, a: seq<PaymentResponse>, q: PaymentResponse, b: seq<PaymentResponse>)
    requires forall j :: 0 <= j < |pp| ==> pp[j].id != q.paymentPlanId
    ensures SettlePlans(pp, a + [q] + b) == SettlePlans(pp, a + b)
  {
    forall j | 0 <= j < |pp|
      ensures PaidTo(a + [q] + b, pp[j].id) == PaidTo(a + b, pp[j].id)
    {
      PaidToAppend(a + [q], b, pp[j].id);
      PaidToAppend(a, [q], pp[j].id);
      PaidToAppend(a, b, pp[j].id);
      assert [q][..0] == [];
    }
  }

  /** The order in which payments arrive does not change any settled plan. */
  lemma PaymentOrderIrrelevant(pp: seq<PaymentPlanResponse>, a: seq<PaymentResponse>, b: seq<PaymentResponse>)
    ensures SettlePlans(pp, a + b) == SettlePlans(pp, b + a)
  {
    forall j | 0 <= j < |pp|
      ensures PaidTo(a + b, pp[j].id) == PaidTo(b + a, pp[j].id)
    {
      PaidToAppend(a, b, pp[j].id);
      PaidToAppend(b, a, pp[j].id);
    }
  }

  /**
   * A payment is subtracted from every plan that carries its plan id, and from
   * no other: plans sharing an id are each decremented by the full amount.
   */
  lemma OnePaymentDecrementsEachMatchingPlan(
    pp: seq<PaymentPlanResponse>, p: seq<PaymentResponse>, q: PaymentResponse, j: int)
    requires 0 <= j < |pp|
    ensures SettlePlans(pp, p + [q])[j].amountToPay
         == SettlePlans(pp, p)[j].amountToPay - (if pp[j].id == q.paymentPlanId then q.amount else 0)
  {
    assert (p + [q])[..|p + [q]| - 1] == p;
  }

  /**
   * Because the payments are subtracted in the caller's slice, settling that
   * slice a second time subtracts every payment again: two runs act like one
   * run over the payments twice.
   */
  lemma SettlingTwiceSubtractsTwice(pp: seq<PaymentPlanResponse>, p: seq<PaymentResponse>)
    ensures NetAll(NetAll(pp, p), p) == NetAll(pp, p + p)
    ensures SettlePlans(NetAll(pp, p), p) == SettlePlans(pp, p + p)
  {
    forall j | 0 <= j < |pp|
      ensures PaidTo(p + p, pp[j].id) == PaidTo(p, pp[j].id) + PaidTo(p, pp[j].id)
    {
      PaidToAppend(p, p, pp[j].id);
    }
  }
}
