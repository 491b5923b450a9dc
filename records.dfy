/**
 * The records the reconciliation reads and writes. Amounts are whole numbers
 * (for instance cents); dates that arrive as text stay text until the
 * scheduler parses them.
 */
module Records {
  import opened Calendar

  /** A debt as the debts endpoint returns it. */
  datatype DebtResponse = DebtResponse(id: int, amount: int)

  /** The enriched debt the command prints. */
  datatype Debt = Debt(
    id: int,
    amount: int,
    isInPaymentPlan: bool,
    remainingAmount: int,
    nextPaymentDueDate: Time)

  /** A payment plan as the payment-plans endpoint returns it. */
  datatype PaymentPlanResponse = PaymentPlanResponse(
    id: int,
    debtId: int,
    amountToPay: int,
    installmentFrequency: string,
    installmentAmount: int,
    startDate: string)

  /** A payment plan after settlement: residual amount and completion flag. */
  datatype PaymentPlan = PaymentPlan(
    id: int,
    debtId: int,
    amountToPay: int,
    installmentFrequency: string,
    installmentAmount: int,
    startDate: string,
    isComplete: bool)

  /** A payment as the payments endpoint returns it. */
  datatype PaymentResponse = PaymentResponse(paymentPlanId: int, amount: int, date: string)
}
