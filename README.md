# Debt reconciliation, modelled in Dafny

This project models the reconciliation core of the `debts` command in
`cmd/debts.go`. The command fetches three collections: debts, payment plans
and payments. It then produces one enriched record per debt. The record says
whether the debt is in a payment plan, how much remains to be paid, and when
the next installment is due. The core has three stages.

- **Plan settlement** (`processPaymentPlans`, module `Settlement`). Every
  payment is subtracted from every plan whose id equals the payment's plan id.
  The subtraction happens in the caller's own slice of plans, so the model
  takes an `array` and updates it in place. Each plan is then copied into a
  settled plan. The settled plan is complete when its residual is zero or less.
- **Debt enrichment** (`processDebts`, module `Enrichment`). Each debt is
  joined with the first settled plan that references it. Later plans for the
  same debt are never looked at.
- **Due-date scheduling** (`calculateNextPaymentDueDate`, module `Scheduler`).
  A cursor starts at the plan's start date. It moves forward one period at a
  time (7 days for `WEEKLY`, 14 days for `BI_WEEKLY`) until it is strictly
  after the current instant.

Module `Pipeline` composes settlement and enrichment the way `gatherResponses`
does. Module `Calendar` gives the time representation: an instant is a whole
number of seconds since 0001-01-01T00:00:00 UTC. That instant is what Go's
zero `time.Time{}` denotes, so the "no due date" value is `ZeroTime == 0`.
Amounts are whole numbers, for instance cents.

The model follows the code where the code and its documentation differ:

- The command's help text (cmd/debts.go:63-65) and the comment in
  `processDebts` (cmd/debts.go:265-267) say `is_in_payment_plan` is false when
  the plan is completed. The code sets it whenever any plan references the debt
  (cmd/debts.go:284, cmd/debts.go:305). `Enrichment.CompletedPlanStillFlagged`
  and `Pipeline.PaidOffPlanScenario` exhibit this: a fully paid plan gives
  `is_in_payment_plan = true` with nothing remaining.
- Settlement is not a pure function of its inputs. It rewrites the caller's
  plans, so settling the same slice twice subtracts every payment twice
  (`Settlement.SettlingTwiceSubtractsTwice`). The command calls it only once.
- A payment is subtracted from every plan that carries its plan id, not only
  from one (`Settlement.OnePaymentDecrementsEachMatchingPlan`).
- The residual of an overpaid plan is not clamped. It stays negative in the
  settled plan. Enrichment then reports 0 remaining for any complete plan.

## Model

| member | source | states |
|---|---|---|
| `Settlement.ProcessPaymentPlans` | cmd/debts.go:321-354 | afterwards each caller's plan holds its amount minus the payments to its id, with every other field unchanged; the result is the settled copy of each original plan in input order; the error is always nil |
| `Settlement.SettledPlan` | cmd/debts.go:331-349 | one settled plan per input plan, in order; id, debt id, frequency, installment amount and start date are copied; the amount is what was owed minus everything paid to that plan id; complete exactly when the payments cover the amount owed |
| `Settlement.PaidToAppend` | cmd/debts.go:323-329 | the amount paid to a plan over two runs of payments is the sum of what each run pays it |
| `Settlement.PaidToWithoutMatches` | cmd/debts.go:323-329 | payments that reference other plan ids pay nothing to a plan |
| `Settlement.UnmatchedPaymentIgnored` | cmd/debts.go:323-329 | a payment whose plan id matches no plan changes no settled plan, wherever it stands in the payments |
| `Settlement.PaymentOrderIrrelevant` | cmd/debts.go:323-329 | swapping two runs of payments does not change any settled plan |
| `Settlement.OnePaymentDecrementsEachMatchingPlan` | cmd/debts.go:324-327 | one more payment lowers by its amount every plan whose id is its plan id, including several plans sharing that id, and leaves all others alone |
| `Settlement.SettlingTwiceSubtractsTwice` | cmd/debts.go:326 | because the caller's plans are updated in place, settling them a second time equals one settlement over the payments repeated twice |
| `Calendar.ParseDate` | cmd/debts.go:369 | only a ten-character `YYYY-MM-DD` date parses, and it parses to a midnight |
| `Scheduler.PeriodOf` | cmd/debts.go:374-384 | a period exists exactly for `WEEKLY` and `BI_WEEKLY`, and it is a positive whole number of weeks |
| `Scheduler.DueFromIsNextDue` | cmd/debts.go:386-394 | the stepping loop returns start + k·period for the least k ≥ 1 whose date is strictly after now |
| `Scheduler.NextDueUnique` | cmd/debts.go:386-394 | at most one date is the least scheduled date after now |
| `Scheduler.NextDueClosedForm` | cmd/debts.go:386-394 | the loop agrees with the closed form k = floor((now − start) / period) + 1, or k = 1 when the start is in the future |
| `Scheduler.BoundaryIsExclusive` | cmd/debts.go:388-394 | when now is exactly a scheduled date, the next scheduled date is returned |
| `Scheduler.FutureStartDueAfterOnePeriod` | cmd/debts.go:388-393 | a start date in the future yields the start plus one period, never the start itself |
| `Scheduler.CalculateNextPaymentDueDate` | cmd/debts.go:356-397 | zero time for an unparseable start date or an unknown frequency; otherwise the least scheduled date after the start that is strictly after now |
| `Scheduler.WeeklyBoundaryExample` | cmd/debts.go:356-397 | a weekly plan started 2023-01-01, at 2023-01-08, is next due 2023-01-15 |
| `Scheduler.BiWeeklyCadenceExample` | cmd/debts.go:356-397 | a bi-weekly plan started 2023-01-01, at 2023-01-20, is next due 2023-01-29 |
| `Enrichment.FirstPlanIndex` | cmd/debts.go:279-299 | the scan stops at the first plan whose debt id is the debt's; it finds none exactly when no plan references the debt |
| `Enrichment.FirstPlanIndexIs` | cmd/debts.go:279-298 | a matching plan with no matching plan before it is the one the scan stops at |
| `Enrichment.ProcessDebts` | cmd/debts.go:259-319 | one record per debt, in input order, each the enrichment of that debt by the settled plans; the payments are not consulted; the error is always nil |
| `Enrichment.NoPlanPassesThrough` | cmd/debts.go:274-312 | a debt no plan references is not in a plan, owes its whole amount and has no due date |
| `Enrichment.InPaymentPlanIffReferenced` | cmd/debts.go:283-305 | a debt is flagged as in a payment plan exactly when some plan references it, complete or not |
| `Enrichment.FirstPlanDecides` | cmd/debts.go:279-312 | with a first matching plan, id and amount are copied and the flag is set; a complete plan leaves 0 remaining and no due date; an incomplete one gives its residual and its next due date |
| `Enrichment.CompletedPlanStillFlagged` | cmd/debts.go:284-305 | a debt whose first plan is complete is still flagged as in a payment plan, with nothing remaining |
| `Enrichment.LaterPlansIgnored` | cmd/debts.go:279-298 | appending plans after one that references the debt never changes the debt's record |
| `Enrichment.OtherDebtsPlansIgnored` | cmd/debts.go:279-299 | inserting a plan for another debt anywhere never changes the debt's record |
| `Pipeline.RunReconciliation` | cmd/debts.go:102-114 | settling then enriching gives the reconciliation of the original plans, leaves the caller's plans settled, and never fails |
| `Pipeline.ReconcileWithoutPlan` | cmd/debts.go:102-114 | after both stages, a debt no plan references is reported unchanged, whatever the payments |
| `Pipeline.ReconcileWithPlan` | cmd/debts.go:102-114 | after both stages, a debt's first plan decides: flagged as in a plan; 0 remaining and no due date once payments cover it; otherwise the unpaid residual and that plan's next due date |
| `Pipeline.PaidOffPlanScenario` | cmd/debts.go:102-114 | debt 500, plan 400, one payment of 400: the plan settles complete, and the debt reports 0 remaining, no due date, and in a payment plan |
| `Pipeline.UnknownFrequencyScenario` | cmd/debts.go:374-384 | a `MONTHLY` plan with an amount still owed leaves the debt in a plan with its residual but no due date |

## Left out

- HTTP retrieval (`getDebts`, `getPaymentPlans`, `getPayments`): network input, timeouts and body reading are I/O. The model starts from the decoded collections.
- `gatherResponses` beyond its two processing calls: logging, JSON encoding and printing to stdout are output only.
- Command wiring and the endpoint constants: they hold no reconciliation logic.
- Amounts are `float64` in the source and integers here. The properties are about sums and signs, not floating-point rounding.
- `Scheduler.CalculateNextPaymentDueDate`: the clock is the parameter `now`, read once per run. The source reads `time.Now()` on every call, so two debts in one run can see slightly different instants.
- Instants are whole seconds. Go's nanosecond precision, monotonic clock reading and the int64 range limits of `time.Time` and `time.Duration` are not modelled.
- `Calendar.ParseDate`: models `time.Parse` with the layout `2006-01-02` for plain digits only. The library's internals are not modelled, and the year is read as exactly four digits.
- JSON field names and the wire form of the zero time are not modelled.
