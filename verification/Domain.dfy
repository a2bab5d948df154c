/** Values that cross components: decisions, snapshots, raw signals, and the effect that
    feeds rule learning. */
module Domain {
  import opened Prelude
  import opened Allocations

  datatype DecidedBy = Human | Agent

  datatype Decision = Decision(
    allocation: ResolvedAllocation,
    memo: Option<string>,
    approved: bool,
    decidedBy: DecidedBy,
    decidedAt: Instant,
    ruleId: Option<string>)

  datatype YnabSnapshot = YnabSnapshot(
    ynabId: string,
    account: string,
    payee: string,
    amount: Money,
    memo: Option<string>,
    categoryId: Option<CategoryId>,
    reconciled: bool,
    matchedTransactionId: Option<string>)

  datatype Signal =
    | ReplySignal(thread: string, message: string, text: string)
    | ReceiptSignal(receiptId: string)

  datatype LearningKind = ConfirmKind | CorrectKind

  datatype FeedRuleLearning = FeedRuleLearning(
    event: LearningKind, payee: string, decision: Option<Decision>, prior: Option<Decision>)

  /** The shared validator of every post-write state: an approved decision whose split,
      if it is one, sums to the transaction. */
  predicate Committed(amount: Money, decision: Decision) {
    && decision.approved
    && (decision.allocation.ResolvedSplit? ==> LineTotal(decision.allocation.lines) == amount)
  }
}
