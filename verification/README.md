# Verified decision core of the YNAB agent

The agent categorizes bank transactions, watches a budget for overspending, and moves money
between budget categories, mostly by email with its owner. Around its I/O sits a core of pure
decisions and a few durable workflows that turn them into runs. This project models that core in
Dafny and proves what it is for, over every input and every run.

`dafny verify dfyconfig.toml` verifies everything.

| part | files |
|---|---|
| shared vocabulary | `Prelude`, `StableSort`, `Text`, `Allocations`, `Domain`, `Windows` |
| overspend projection and its monitor | `Overspend`, `ProjectionClimb`, `Monitor` |
| the budget balancer, from plan to writes | `Waterfall`, `Coverage`, `CoverageTheorems`, `Planner`, `Guards`, `Donors`, `Proposal`, `Reallocation`, `BalanceWorkflow` |
| scheduled outflows, and covering as the monitor sees it | `Schedule`, `Covering` |
| rules, learning and the autonomy gate | `Learning`, `Registry`, `RuleOutcomes`, `Gate`, `Autonomy`, `Credits`, `Trust`, `Reoffers`, `OfferStarts`, `RegistryWorkflow` |
| the hard floor and the rolling ledgers | `Floor`, `AutoActionLedger`, `AlertLedger`, `AutoPath` |
| writing and verifying a decision | `Resolve`, `Converge`, `WriteBack` |
| the transaction lifecycle and its driver | `Lifecycle`, `LifecycleRuns`, `Outcomes`, `LifecycleWorkflow` |
| from the owner's edit back to the rule | `Attribution` |
| the receipt join | `ReceiptJoin`, `ReceiptStore`, `ReceiptRuns` |
| the frozen-class closure | `FrozenClasses` |

The main results, one for each part: greedy coverage is optimal on every prefix of the needs and
draws on Ready-to-Assign first and then on the categories with most slack (`OptimalOnEveryPrefix`,
`ReadyToAssignFirst`, `RicherDonorsFirst`); the moves the guard
accepts turn no donor over whose scheduled outflow is within the alert threshold, and exactly how
far beyond it they still do not (`CoveringNeverOverspends`, `DonorStaysOnTrackIff`); retried
absolute writes equal each move made once (`RetriedWritesEqualEachMoveOnce`); a quiet category
alerts at most once a period (`QuietCategoryAlertsOnce`); autonomy is granted, never taken, and a
withdrawal holds until a matching rule is blessed (`GrantedNeverTaken`, `WithdrawalForcesAsk`,
`RevocationHolds`); a payee reaches a trusted rule exactly by K confirmations of one category
(`OscillatingPayeeIff`), and a rule's offer is sent at most once ever (`PendingIff`, `StartedOnce`); an
owner's edit takes the autonomy of the rule behind it exactly when it is to a whole category and
nothing was adopted since the rule applied itself (`OverrideReachesTheRuleIff`); automation as a whole
is bounded (`AutomationIsBounded`); writes and verifications alternate, no timer goes stale and no
signal is lost over any run of the lifecycle (`WritesAlternate`, `NoStaleTimers`,
`TransactionWorkflow.Dispatch`), and every event takes every state where the outcome says (`Outcomes`); equal hashes mean equal multisets of lines
(`HashEqualIffSameMultiset`), and a written decision verifies exactly when the wire carries it
(`WriteVerifiesIff`); splits are apportioned exactly (`ResolveSplit`). A receipt acts once and asks once
over every run that parks no more ids than the table holds, and for no larger number, provided each
join is handed the receipt's row as it stands (`ActsOnceAsksOnce`, `ActsOnceIff`); the code hands the
first join the receipt as parsed instead, and every stale copy can act once more (`StaleJoinsIff`).

## Conventions

- Money is an unbounded count of milliunits and time an unbounded count of microseconds, as in the
  original. Floor division is only ever by a positive divisor, where Dafny's and Python's agree.
- SHA-256 over canonical JSON is an injective digest. Lower-casing maps each character, with ASCII
  letters folded; substring matching is on the folded strings.
- Model verdicts, interpretations of replies, read-backs, retries and clocks are parameters, and
  the theorems hold for all of them. An exception a validator raises is the `None` of
  `Lifecycle.Advance`; a missing baseline budget is the `None` of `MoveTargets`.
- Looking something up and recording it is one step, and times within one ledger never go back.
- In `LifecycleRuns` a fired timer is consumed by its own event, and an override is found at the
  moment the archive timer fires. Effects are carried out before the next event; the driver in
  `LifecycleWorkflow` instead verifies a commit between the effects of the step that ordered it.
- In the driver, waits are modelled by the condition that ends them, and each signal that arrives
  while a blocked archive or a flagged wait goes on is the parameter `late`.

## Where the code and its documentation differ

The model follows the code.

- `overspend.py` says the projection is monotonic from day to day for fixed figures. Its two floors
  let it climb by one milliunit (`QuietProjectionCanClimb`), though only for plans below sixteen
  (`MonotoneFromIff`). What the remark is for, that a quiet category does not alert again, does hold
  for every threshold of at least one milliunit and for no smaller one (`QuietCategoryAlertsOnce`,
  `ChurnBelowOneMilliunit`).
- `transitions.py` says a payee that oscillates between two categories never reaches trusted. Hits
  are per rule and survive confirmations of another action: the payee reaches a trusted rule for a
  category exactly when that category was confirmed K times, whatever came in between
  (`OscillatingPayeeIff`; a run that does, `OscillationReachesTrusted`).
- `registry.py` promises a fresh offer after a revocation, but revoking keeps the offer stamp. A
  revoked rule that earns its trust back is offered exactly when it had never been offered
  (`FreshOfferIff`): not if it was blessed through an offer (`SpentOfferStaysSpent`), and for the
  first time if it was blessed by command (`UnspentOfferIsMade`).
- `converge.py` hashes splits without regard to order but compares raw allocations for divergence: an
  unedited end-state counts as an edit exactly when it is a split that reads back in another order
  (`UneditedReadsAsDivergedIff`). At archive time so does one that still verifies
  (`OverrideWithoutEditIff`). The hash itself keeps the order of lines that tie on category, amount
  and memo yet differ (`OrderInsensitiveIff`).
- `read_budget_state` says the guard refuses a move that would pull a category below its own projected
  spend. The balancer projects without the scheduled outflows that the monitor counts
  (`balance_activities.py:136` and `:247` against `monitor_activities.py:74-113`), so an accepted move
  can turn an on-track donor over (`ScheduledDonorTurnsOver`); exactly when none can is
  `DonorStaysOnTrackIff`.
- A receipt evicted from the table and parked again acts again (`ActsTwice`); over all runs whose joins
  are handed the row as it stands, acting once holds for as many distinct ids as the table has rows and
  for no more (`ActsOnceIff`). A join however acts on the copy it is handed (`receipt_workflow.py:50`),
  and the first is handed the receipt as parsed, without a look at the table
  (`dispatch_activities.py:244`): each stale copy can close the receipt once more (`StaleJoinsIff`).
- An edit in YNAB is meant to demote the rule that drove the decision (`state_machine.py:455-463`). It
  does exactly when it is to a whole category and nothing was adopted since the rule applied itself
  (`OverrideReachesTheRuleIff`). An edit to a split teaches nothing, and a receipt folded into the memo
  already replaces the standing decision by one that names no rule (`activities.py:615-628`): the owner's
  next edit then seeds a new rule and the old one keeps its autonomy (`ReceiptHidesTheRule`). So it is
  with replies (`RevisionReachesTheRuleIff`).
- `transitions.py` clears the offer stamp of a corrected rule so that a re-earned eligibility is offered
  again. The rule is pending again and is marked again, but its conversation id is in use and a
  duplicate is refused (`offer_activities.py:46-72`): no second offer goes out (`ReearnedIsNotSent`,
  `StartedOnce`).
- A split or category with a person tag can be decided, but the write does not send the tag
  (`client.py:229-262`), so its read-back never verifies; nor does a whole category written over a split,
  whose lines the write leaves in place (`WriteVerifiesIff`).
- A reply to a lapsed transaction that changes nothing puts it back to waiting without a mail
  (`OwnerHears`), and archiving an unedited transaction only files the agent's own thread.
- A receipt-driven revision may carry a decision that is not approved (`activities.py:615-628`);
  the state machine then raises (`RaisesIff`).

## Model

| member | source | states |
|---|---|---|
| Planner.PlanCoverage | src/ynab_agent/budget/balance.py:113-163 | The nested loops compute the reference waterfall plan; each move draws on a source of which every cheaper one, by priority and then by larger drawable, is already down to its drawable; each move is in (0, ceiling]; no source exceeds its drawable; at most needs + sources + moved/ceiling moves; no move under a ceiling that is not positive. Repeated source categories included. |
| Planner.RankIsCost | src/ynab_agent/budget/balance.py:127-130 | A place in the ranked list is a priority and then a larger drawable: drawing in list order is drawing the cheapest first. |
| Planner.DearerWaits | src/ynab_agent/budget/balance.py:113-163 | With one source per category: at every move, each source of better rank than the one drawn on has been pulled its whole drawable before. |
| Planner.LastDrawable | src/ynab_agent/budget/balance.py:45-71 | The pool of a category is the slack of its last source, or what that source holds when its slack is not known. |
| Planner.PlanIsCheapestFirst | src/ynab_agent/budget/balance.py:113-163 | The reference plan itself draws on the cheapest first, in moves within the ceiling, and pulls no source past its drawable. |
| Planner.CoverNeed | src/ynab_agent/budget/balance.py:137-162 | One need offered to the ranked sources leaves the pool, the moves and the unmet rest where the waterfall puts them. |
| Planner.Draw | src/ynab_agent/budget/balance.py:145-160 | Drawing in capped moves takes min(available, wanted) from a source, or nothing when the ceiling admits no move. |
| CoverageTheorems.PlanTotals | src/ynab_agent/budget/balance.py:113-163 | The plan moves exactly min(total shortfall, total supply), from pool sources to listed needs, pulling from no source more than its drawable. |
| CoverageTheorems.PlanDrains | src/ynab_agent/budget/balance.py:113-163 | When the needs ask for at least everything there is, every source is drained to its drawable. |
| CoverageTheorems.PlanFeasible | src/ynab_agent/budget/balance.py:113-163 | No need is overpaid and no source overdrawn. |
| CoverageTheorems.OptimalOnEveryPrefix | src/ynab_agent/budget/balance.py:113-163 | For every k the first k needs receive min(their shortfalls, all drawables), and no other feasible set of moves delivers them more. |
| CoverageTheorems.UncoveredIsTail | src/ynab_agent/budget/balance.py:137-163 | What is uncovered is nothing, or a suffix of the positive needs of which only the first is part paid. |
| Guards.PulledBySource | src/ynab_agent/budget/balance.py:489-497 | The loop's map holds the total pulled from each source, keyed in order of first appearance. |
| Guards.CheckMoves | src/ynab_agent/budget/balance.py:500-528 | The apply-time guard returns the first fault in its documented order. |
| Guards.ValidateOption | src/ynab_agent/budget/balance.py:266-306 | The proposal guard returns the first fault in its documented order. |
| Guards.CheckAcceptsIff | src/ynab_agent/budget/balance.py:500-528 | Accepts exactly: some move, each positive and within the ceiling, no source pulled past its funds or its slack in total. |
| Guards.RejectedFor | src/ynab_agent/budget/balance.py:266-306 | Why either guard rejects, on the raw moves and funds: for want of moves; else the first move at fault on its own, for being nothing, funding another category, or its size, in that order; else the first whose source all moves overdraw, its funds before its slack; else for not covering the need. |
| Guards.ValidateAcceptsIff | src/ynab_agent/budget/balance.py:266-306 | Accepts exactly the applicable moves that all fund the needy category and meet its shortfall. |
| Guards.ValidatedPassesCheck | src/ynab_agent/budget/balance.py:266-306 | Whatever the proposal guard accepts, the apply-time guard accepts. |
| Guards.SinglePlan | src/ynab_agent/budget/balance.py:325-344 | The plan for one need covers it, and moves something, exactly when the need is positive and the pool can pay it. |
| Guards.FallbackOption | src/ynab_agent/budget/balance.py:325-344 | There is a fallback exactly when the need is positive and the drawables can cover it, and it is the greedy plan. |
| Guards.FeasibleOptions | src/ynab_agent/budget/balance.py:309-322 | Exactly the options the proposal guard accepts against the sources' own balances and drawables. |
| Guards.FeasibleInOrder | src/ynab_agent/budget/balance.py:309-322 | They stay in the order offered and as often as offered: filtering a list is filtering its parts. |
| Guards.FallbackPassesGuard | src/ynab_agent/budget/balance.py:309-344 | The fallback passes the proposal guard over the same sources when they are backed by their balances. |
| Guards.FallbackAlwaysPassesIff | src/ynab_agent/budget/balance.py:309-344 | It passes for every need it can cover if and only if no source offers more than it holds. |
| Donors.NeedsBiggestFirst | src/ynab_agent/budget/balance.py:398-416 | Each need as often as assessments with that positive shortfall have it and no other, biggest first, ties in category order. |
| Donors.VerdictIsNeed | src/ynab_agent/budget/overspend.py:172-209 | For every threshold: overspent exactly when the balance is negative, trending exactly when it is not and the signed gap, projected less spent less balance, exceeds the threshold; the need is the gap clamped at zero. |
| Donors.FlaggedWithoutNeedIff | src/ynab_agent/budget/balance.py:383-395 | A flagged category has no need exactly when its gap is not positive and it is overspent or the threshold lies below the gap; never for a threshold and a scheduled outflow that are not negative. |
| Donors.SlackMirrorsNeed | src/ynab_agent/budget/balance.py:383-438 | Need and slack are one signed gap: never both positive, and their difference is that gap; the slack is the balance less what is still projected, or nothing. |
| Donors.SourcesFromSpends | src/ynab_agent/budget/balance.py:441-486 | The loop lists positive Ready-to-Assign first and then every category that is not excluded and has slack. |
| Proposal.PoolIs | src/ynab_agent/budget/balance.py:441-486 | The pool holds the positive Ready-to-Assign, of the best rank, and categories that are not excluded and have slack, all of one rank, each to draw its slack. |
| Proposal.ReadyToAssignFirst | src/ynab_agent/budget/balance.py:441-486 | In the plan over the donor pool no category is drawn on before Ready-to-Assign has given all it has. |
| Proposal.RicherDonorsFirst | src/ynab_agent/budget/balance.py:441-486 | A category is drawn on only when it is not excluded and has slack, and only after every category with more slack that is not excluded has given all of its own. |
| Proposal.Propose | src/ynab_agent/workflow/balance_activities.py:112-148 | One read of the budget makes one plan for all needs of a pass: the waterfall's over the donors not in need, drawn on in that order, each move within the ceiling. |
| Donors.PlanPassesCheck | src/ynab_agent/budget/balance.py:441-528 | A nonempty plan over the donor pool passes the apply-time guard read from the same budget, when donors hold the slack they offer. |
| Donors.EveryPlanPassesIff | src/ynab_agent/budget/balance.py:441-528 | For a positive ceiling, every plan for every list of needs passes the guard if and only if each donor in the pool holds the slack it offers. |
| Schedule.ScheduledRemaining | src/ynab_agent/ynab/client.py:141-193 | The nested loops sum, per category, the outflows due from today to the end of the month, split lines included; an inflow counts nothing, so no sum is negative. |
| Schedule.OneMoreScheduled | src/ynab_agent/ynab/client.py:141-193 | One more transaction adds nothing when deleted or due outside the days left, nothing for an inflow, each undeleted named line's outflow when split, and its own when not. |
| Covering.CoveringNeverOverspends | src/ynab_agent/workflow/balance_activities.py:231-251 | The guard on the balancer's read, the verdict on the monitor's: after any moves the guard accepts, a category not drawn on needs no more than before; a donor needs at most its scheduled outflow, is never overspent, and is on track when that outflow is within the threshold. |
| Covering.DonorStaysOnTrackIff | src/ynab_agent/workflow/monitor_activities.py:74-113 | No accepted moves whatever take a category off track if and only if it has no slack, or its scheduled outflow is at most the threshold plus what its projection falls by when its slack is taken. |
| Covering.SpentThroughStaysIff | src/ynab_agent/workflow/monitor_activities.py:74-113 | For a donor whose budget does not exceed what it has spent, that is exactly a scheduled outflow within the threshold. |
| Covering.ScheduledDonorTurnsOver | src/ynab_agent/workflow/balance_activities.py:118-140 | Any category with its balance put by for an outflow due, above the threshold and within the move ceiling: on track, accepted as a donor of all of it, and then flagged for the whole outflow. |
| Covering.EveryReadPasses | src/ynab_agent/workflow/balance_activities.py:118-140 | On every budget as the balancer reads it, with no schedule, every nonempty plan passes the apply-time guard. |
| Covering.PlanKeepsDonors | src/ynab_agent/budget/balance.py:113-163 | Carrying out the coordinated plan leaves each donor whose scheduled outflow is within the threshold on track, and deepens no other need. |
| Reallocation.MoveTargets | src/ynab_agent/budget/balance.py:531-554 | The loop yields baseline plus net change for exactly the categories with a nonzero change; no result when a baseline is missing (the original raises). |
| Reallocation.TargetsIff | src/ynab_agent/budget/balance.py:531-554 | No targets exactly when a category whose moves do not cancel out has no baseline; else exactly those categories, each at its baseline plus what the moves come to. |
| Reallocation.WritesConserveMoney | src/ynab_agent/budget/balance.py:531-554 | Over the written categories, targets minus baselines sum to what was drawn from Ready-to-Assign, and no unchanged category is written. |
| Reallocation.RetriedWritesEqualEachMoveOnce | src/ynab_agent/workflow/balance_workflow.py:255-268 | Any order of at-least-once absolute writes ends in the budget that applying each move once gives. |
| BalanceWorkflow.CoordinatedBalance.constructor | src/ynab_agent/workflow/balance_workflow.py:104-108 | No replies, no clarifications. |
| BalanceWorkflow.CoordinatedBalance.SubmitResponse | src/ynab_agent/workflow/balance_workflow.py:109-113 | A reply joins the end of the queue. |
| BalanceWorkflow.CoordinatedBalance.Run | src/ynab_agent/workflow/balance_workflow.py:133-192 | Whatever the model reads in each reply, the same text twice included: the budget changes exactly when the first decisive reply says apply and every gate passes, and then it becomes the baseline with the targets over it; it could not cover exactly without moves, is declined exactly when the first decisive reply declines, and times out exactly when no reply is decisive; clarifications are counted. |
| BalanceWorkflow.FirstDecides | src/ynab_agent/workflow/balance_workflow.py:160-192 | The reply that counts is the first that decides, after exactly as many requests to clarify as are counted; there is none exactly when all of them ask. |
| BalanceWorkflow.CoordinatedBalance.Apply | src/ynab_agent/workflow/balance_workflow.py:205-292 | Stale period, daily cap, guard and missing baseline each refuse the whole plan with nothing written; otherwise all targets are written, and verified exactly when every write reads back. |
| BalanceWorkflow.CoordinatedBalance.Write | src/ynab_agent/workflow/balance_workflow.py:262-267 | An absolute write leaves the target however often it is retried. |
| BalanceWorkflow.CoordinatedBalance.WriteAll | src/ynab_agent/workflow/balance_workflow.py:260-268 | The loop sets every target, in any order, and reports whether all read back. |
| BalanceWorkflow.WrittenMovesPassFloor | src/ynab_agent/policy/floor.py:91-117 | The limits the workflow applies inline are the budget-move floor's: each move it writes passes that floor in turn, and one more would trip it. |
| Overspend.BlendBounds | src/ynab_agent/budget/overspend.py:162-165 | The floored blend never exceeds its exact rational value and falls short of it by less than two milliunits. |
| Overspend.BlendAtLeastSpent | src/ynab_agent/budget/overspend.py:162-169 | The blend is never below what is spent, so the final clamp never binds, and equals it on the last day. |
| Overspend.ProjectionBounds | src/ynab_agent/budget/overspend.py:140-169 | The projection within those bounds, scheduled outflow added at full size. |
| Overspend.ProjectionExact | src/ynab_agent/budget/overspend.py:116-169 | The exact projection on the raw figures: the two roundings down, the plan the larger of budget and spent, an inflow nothing spent, and what is scheduled on top. |
| Overspend.AssessedOn | src/ynab_agent/budget/overspend.py:172-209 | The assessment carries the raw figures and the verdict they give, and an inflow assesses as no activity. |
| Overspend.ProjectionNonExpansive | src/ynab_agent/budget/overspend.py:140-169 | Raising the budget raises the projection by between nothing and as much. |
| Overspend.QuietProjectionHardlyClimbs | src/ynab_agent/budget/overspend.py:140-169 | For fixed figures a later day of the month projects at most one milliunit more. |
| ProjectionClimb.ClimbIsSmall | src/ynab_agent/budget/overspend.py:162-165 | The blend climbs from one day to the next only for plans of at most fifteen milliunits. |
| ProjectionClimb.MonotoneFromIff | src/ynab_agent/budget/overspend.py:153-156 | The documented monotonicity holds of all figures with a plan of at least a bound, on all days of all months, if and only if that bound is at least sixteen milliunits. |
| Overspend.QuietProjectionCanClimb | src/ynab_agent/budget/overspend.py:153-156 | The climb is real: figures for which the documented day-to-day monotonicity fails. |
| Monitor.RecordOnePerCategory | src/ynab_agent/budget/ledger.py:64-82 | Recording keeps one entry per category. |
| Monitor.PriorAfterRecord | src/ynab_agent/budget/ledger.py:50-82 | After recording, the lookup finds that alert for that category and period, none for its other periods, and is unchanged for other categories. |
| Monitor.LastAlertStands | src/ynab_agent/workflow/monitor_workflow.py:59-98 | After any run of looks the ledger answers for a category what its last alert said, however many looks have passed since, or what it did at the start. |
| Monitor.QuietCategoryAlertsOnce | src/ynab_agent/budget/overspend.py:172-233 | Over any passes of a period with its figures fixed and others recorded in between, a category alerts at most once, and exactly when some look is off track if it had not alerted before. |
| Monitor.AlertsAgainIff | src/ynab_agent/budget/overspend.py:212-233 | After an alert, a category alerts again in the period exactly when it is off track and has become overspent since or projects more than the threshold higher; in another period, whenever it is off track. |
| Monitor.ChurnBelowOneMilliunit | src/ynab_agent/budget/overspend.py:212-233 | For every threshold below one milliunit some unchanged figures alert twice. |
| Monitor.MonitorPass | src/ynab_agent/workflow/monitor_workflow.py:59-98 | The pass loop leaves the ledger, the alerted names and the off-track assessments the run of looks prescribes. |
| Registry.MarkedOnce | src/ynab_agent/learn/registry.py:151-168 | Marking retires exactly that id from the pending offers, and marking again, at whatever time, changes nothing. |
| Registry.RevokeIds | src/ynab_agent/learn/registry.py:210-228 | Exactly the ids of blessed rules the payee matches. |
| Registry.RevokedOnce | src/ynab_agent/learn/registry.py:210-253 | After a revocation exactly the blessed rules it did not name are still blessed, and a repeated one changes nothing, not even the audit. |
| Registry.AuditBounded | src/ynab_agent/learn/registry.py:71-75 | On every run the audit tail holds at most 200 entries. |
| RuleOutcomes.AuditGrows | src/ynab_agent/learn/registry.py:71-253 | Every change of the table is audited at its time and only changes are: one entry for what is learned, commanded or accepted, one for each rule revoked in id order, none for an offer; the audit keeps its latest 200. |
| RuleOutcomes.ConfirmGoes | src/ynab_agent/learn/transitions.py:126-183 | A confirmation adds one hit to the rule it names if that still has the action, else to the first for this payee and action; that rule keeps its blessing or earns its trust by the count; without one a rule is made; no other rule changes. |
| RuleOutcomes.CorrectGoes | src/ynab_agent/learn/transitions.py:186-234 | A correction gives the rule it names the new action and takes its trust, hits, blessing and offer, or suggests a new rule; no other rule changes. |
| RuleOutcomes.CommandGoes | src/ynab_agent/learn/transitions.py:237-283 | A command blesses the first rule for this payee and action, keeping its hits and offer, or makes a blessed one; no other rule changes. |
| RuleOutcomes.AcceptGoes | src/ynab_agent/learn/registry.py:171-207 | An acceptance blesses the rule of that id while it is learned and trusted; a stale one changes nothing. |
| RuleOutcomes.RevokeGoes | src/ynab_agent/learn/registry.py:210-253 | A revocation takes blessing and trust from exactly the rules of an id that a blessed rule the payee contains bears, and touches nothing else. |
| RuleOutcomes.OffersDue | src/ynab_agent/learn/registry.py:122-148 | Due are exactly the rules learned, trusted and never offered. |
| Learning.EventIs | src/ynab_agent/learn/actions.py:22-38 | Exactly a whole category is learnable, for the payee seen, as a template that gives back its category, tag and memo; a confirmation names its rule and a correction the rule behind what it replaced. |
| Gate.LoadPathIsLossless | src/ynab_agent/learn/registry.py:256-267 | Gating on the payee's rules alone decides as the whole table would. |
| Gate.AutoIff | src/ynab_agent/policy/gate.py:84-129 | AUTO for a rule if and only if the floor allows the amount and the counts, it is no matched import, and that rule is the only blessed rule that matches. |
| Gate.OnlyBlessedActs | src/ynab_agent/policy/gate.py:84-129 | AUTO needs a rule of its id that matches, is trusted and was blessed by the owner; a further rule that is not all of that never changes the decision. |
| Gate.AskBecause | src/ynab_agent/policy/gate.py:100-129 | The reasons in order: the floor, a matched import, no blessed match; what is left is two or more blessed rules that match. |
| Gate.ConditionNarrows | src/ynab_agent/policy/gate.py:56-76 | A rule matches by payee alone when it says no more, and each further part narrows it to that account, to amounts between the bounds it has, both included, or to memos with that word. |
| Text.ContainsIff | src/ynab_agent/policy/gate.py:56-76 | One string is in another exactly when that is something, the first, and something. |
| Text.FoldsCase | src/ynab_agent/policy/gate.py:56-76 | Folding forgets exactly the case of ASCII letters. |
| Gate.BuildAutoDecision | src/ynab_agent/policy/gate.py:132-153 | The bound decision is the agent's, names the rule, and satisfies the post-write validator for every valid template and amount. |
| Autonomy.GrantedNeverTaken | src/ynab_agent/learn/registry.py:78-253 | On every run, each blessed rule has a step that blessed it, later than the last correction or revocation of it; a stale acceptance is no such step. |
| Autonomy.NoBlessAlwaysAsks | src/ynab_agent/policy/gate.py:84-129 | On every run that blesses no rule matching a transaction, whatever else it blesses, the gate asks about it, under any counters and policy. |
| Autonomy.BlessedOnlyShrinks | src/ynab_agent/learn/registry.py:78-253 | Without a bless step, every blessed rule was blessed before under the same id, match and action. |
| Autonomy.WithdrawalForcesAsk | src/ynab_agent/learn/transitions.py:186-234 | Correcting or revoking the rule that gated a transaction forces ASK for it until a rule that matches it is blessed, whatever other rules are blessed meanwhile. |
| Autonomy.RevocationHolds | src/ynab_agent/learn/registry.py:210-253 | After revoking payee p, no transaction whose case-folded payee is part of p's gates AUTO until a rule that matches it is blessed. |
| Autonomy.RulesConsistent | src/ynab_agent/learn/transitions.py:49-55 | On every run blessed rules are trusted, learned trusted rules have at least K hits, and suggested rules are learned with none. |
| Autonomy.HitsAreConfirmations | src/ynab_agent/learn/transitions.py:126-183 | A rule's hits never exceed the confirmations of exactly its current action. |
| Autonomy.EligibilityIsEarned | src/ynab_agent/learn/registry.py:122-135 | A rule offered for blessing was confirmed with its current action at least K times. |
| Reoffers.PendingIff | src/ynab_agent/learn/registry.py:138-168 | On any run with fresh ids and no correction of the rule, once eligible it is pending exactly when it had no stamp at the start and has not been offered since. |
| Reoffers.FreshOfferIff | src/ynab_agent/learn/registry.py:210-253 | After a revocation and until a correction, a rule eligible again is pending exactly when it had no stamp at the revocation and has not been offered since. |
| Reoffers.SpentOfferStaysSpent | src/ynab_agent/learn/registry.py:210-253 | Confirmed to trust, offered, accepted, revoked and confirmed once more: eligible and not pending, contrary to the remark there. |
| Reoffers.UnspentOfferIsMade | src/ynab_agent/learn/registry.py:210-253 | Blessed by command, revoked and confirmed to trust: pending. |
| Credits.HitsAreExact | src/ynab_agent/learn/transitions.py:126-234 | With fresh ids, hits equal the confirmations credited to the rule since it was made or last corrected. |
| Credits.LearnedMatchesItsPayee | src/ynab_agent/learn/handler.py:34-74 | A rule learned from a payee matches exactly the transactions whose case-folded payee contains it, its own payee's among them. |
| Credits.AuditTellsTheTruth | src/ynab_agent/learn/registry.py:78-253 | Every audit entry a step adds carries its time and tells the kind of change and the resulting trust of a rule in the table after it. |
| Trust.EligibleIff | src/ynab_agent/learn/transitions.py:126-183 | On every run of learning and offers with fresh ids, a rule is eligible exactly when at least K confirmations were credited to it since it was made or last corrected. |
| Trust.OscillatingPayeeIff | src/ynab_agent/learn/transitions.py:8-11 | Over any interleaving of payees and categories, a payee reaches a trusted rule for a category exactly when that category was confirmed for it at least K times, contrary to the remark there. |
| Trust.AnsweredPayeeIff | src/ynab_agent/learn/handler.py:34-74 | So it is for every run of confirmations of decisions that name no rule, as the owner's answers are. |
| Credits.OscillationReachesTrusted | src/ynab_agent/learn/transitions.py:8-11 | The run A, B, A, B, A, which reaches one. |
| RegistryWorkflow.RuleRegistry.constructor | src/ynab_agent/workflow/registry_workflow.py:56-63 | Carries on from the state an earlier incarnation's history left, and from the offer conversations already in existence. |
| RegistryWorkflow.RuleRegistry.Record | src/ynab_agent/workflow/registry_workflow.py:127-132 | The signal is a learning step: the state stays the outcome of the whole history, now one step longer. |
| RegistryWorkflow.RuleRegistry.BlessCommand | src/ynab_agent/workflow/registry_workflow.py:134-139 | The signal is a standing-command step: the state stays the outcome of the whole history, now one step longer. |
| RegistryWorkflow.RuleRegistry.BlessExisting | src/ynab_agent/workflow/registry_workflow.py:141-151 | The signal is an accepted-offer step: the state stays the outcome of the whole history, now one step longer. |
| RegistryWorkflow.RuleRegistry.RevokeAutonomy | src/ynab_agent/workflow/registry_workflow.py:153-161 | The signal is a revocation step: the state stays the outcome of the whole history, now one step longer. |
| RegistryWorkflow.RuleRegistry.OfferNext | src/ynab_agent/workflow/registry_workflow.py:87-121 | One turn of the loop: the first pending rule is offered, and a conversation starts exactly when the call goes through and there was none for its id; signals that arrived meanwhile take effect in order, then its mark, sent or not; its id is no longer pending. |
| RegistryWorkflow.RuleRegistry.DrainOffers | src/ynab_agent/workflow/registry_workflow.py:76-121 | With no signals arriving the loop ends with nothing pending; its history is a run of offer marks for exactly the ids pending at its start, each once, and only stamps change. |
| OfferStarts.StartedOnce | src/ynab_agent/workflow/offer_activities.py:46-72 | Over every run of attempts a conversation is started for an id at most once, exactly at the first attempt for it that goes through. |
| OfferStarts.ReearnedIsNotSent | src/ynab_agent/learn/transitions.py:205-226 | Confirmed to trust, offered, corrected and confirmed to trust again: pending and marked a second time, but nothing is sent, contrary to the remark there. |
| Floor.CheckFloor | src/ynab_agent/policy/floor.py:58-88 | Allows exactly a known amount within the ceiling on either side, with both counters below their caps; forces a human exactly on an unknown or too large amount, before any cap trips. |
| Floor.CheckBudgetMoveFloor | src/ynab_agent/policy/floor.py:91-117 | Allows exactly an amount within the move ceiling while the day's moves are below the cap; forces a human exactly on a too large amount, before the cap trips. |
| Floor.CautiousLimits | src/ynab_agent/policy/floor.py:20-55 | The limits in force: 75 currency units a transaction, 8 an hour and 20 a day; 500 a move, 10 moves a day. |
| AutoPath.AutomationIsBounded | src/ynab_agent/policy/gate.py:84-129 | With every automatic application judged on the ledger's counters, any trailing hour or day holds at most the caps of distinct transactions, none over the ceiling nor a matched import. |
| AutoPath.ApplyRule | src/ynab_agent/domain/state_machine.py:230-240 | The decision built from any valid blessed template is accepted by the state machine, committed, and counted under the transaction's id. |
| Attribution.CorrectionDemotesIff | src/ynab_agent/learn/transitions.py:186-234 | A correction forces ASK for what the rule gated, until a matching rule is blessed, when it is to a whole category and its prior names the gating rule; otherwise the gate decides as it did, under any counters. |
| Attribution.OverrideReachesTheRuleIff | src/ynab_agent/domain/state_machine.py:455-490 | Over every lifecycle run from an automatic application, with decisions built as the code builds them: an edit made in YNAB takes the rule's autonomy, until a matching rule is blessed, when it is to a whole category and no step since adopted a decision; otherwise the gate decides as before. |
| Attribution.RevisionReachesTheRuleIff | src/ynab_agent/domain/state_machine.py:591-628 | The same, exactly, for a reply that re-categorizes it. |
| Attribution.StandingNamesDriver | src/ynab_agent/domain/state_machine.py:223-628 | Over every run from an automatic application, whatever decisions it brings, the standing decision names the rule of the decision adopted last. |
| Attribution.StillDrivenIff | src/ynab_agent/policy/gate.py:132-153 | As only an automatic decision names a rule, the standing one still names it exactly when no step since adopted a decision; else it names none. |
| Attribution.ReceiptHidesTheRule | src/ynab_agent/workflow/activities.py:600-628 | Applied by a rule, verified, a receipt folded into the memo, then moved by the owner to any other category: the gate still answers AUTO by that rule, contrary to the remark on overrides. |
| AutoActionLedger.TailDistinct | src/ynab_agent/policy/auto_action_ledger.py:50-71 | The carried tail never holds an id twice. |
| AutoActionLedger.CountersCountDistinct | src/ynab_agent/policy/auto_action_ledger.py:50-89 | The counters over the tail are the numbers of distinct ids recorded within each window of the whole history. |
| AutoActionLedger.BreakerBinds | src/ynab_agent/policy/auto_action_ledger.py:50-89 | If every record was gated, no trailing hour or day, ending at any instant, holds more distinct ids than its cap. |
| AlertLedger.PrunedTailAgrees | src/ynab_agent/alert/ledger.py:55-90 | The pruned tail answers as the whole log would. |
| AlertLedger.HeldBackIff | src/ynab_agent/alert/ledger.py:55-74 | Over the whole log, an alert is held back exactly when its own key alerted within the cooldown, or the rate window holds as many alerts as the cap. |
| AlertLedger.DefaultHeldBackIff | src/ynab_agent/alert/ledger.py:26-74 | With the defaults, a key that has not alerted for a day is held back exactly when the last hour holds five alerts or more. |
| AlertLedger.RateCapHolds | src/ynab_agent/alert/ledger.py:55-90 | If every record was gated, no trailing window holds more alerts than the cap. |
| AlertLedger.CooldownHolds | src/ynab_agent/alert/ledger.py:55-74 | Two alerts of one key are a full cooldown apart. |
| AlertLedger.DefaultPolicyBounds | src/ynab_agent/alert/ledger.py:26-35 | With the defaults: five an hour, one per key a day. |
| Converge.HashEqualIff | src/ynab_agent/policy/converge.py:51-84 | Two splits hash equal exactly when memo and approval agree and, key by key, their lines come in the same order. |
| Converge.HashEqualIffSameMultiset | src/ynab_agent/policy/converge.py:51-84 | When lines that share a key are identical, that is exactly: the same multiset of lines. |
| Converge.OrderInsensitiveIff | src/ynab_agent/policy/converge.py:56-71 | The canonical form ignores order exactly when lines that share a key are identical. |
| Converge.VerifyIgnoresOrder | src/ynab_agent/policy/converge.py:96-120 | The verdict does not depend on the order a faithful split reads back in. |
| Converge.VerdictIff | src/ynab_agent/policy/converge.py:96-120 | Unconfirmed exactly when nothing could be read; a match exactly when approval, the memo the target has, and the canonical allocations agree. |
| Converge.DecisionVerifiesIff | src/ynab_agent/policy/converge.py:41-120 | A decision counts as written exactly when it reads back approved as decided, with the memo decided if there was one, and with its allocation up to the order of lines with different keys. |
| Converge.LandedWriteMatches | src/ynab_agent/policy/converge.py:96-120 | A write that landed, in any line order, verifies as a match. |
| Converge.VerifiedTargetIsNotRewrittenIff | src/ynab_agent/policy/converge.py:96-193 | A verified target is not written again exactly when it carries a memo or the read-back has none. |
| Converge.PrecommitIff | src/ynab_agent/policy/converge.py:142-193 | All four answers in full, on the end-states: written exactly when current does not show the target and is unknown, without a prior, or of the prior's raw allocation; diverged exactly when it does not and its raw allocation is another than a known prior's; no change exactly when it does and agrees with the prior; adopted otherwise. |
| Converge.PrecommitNeverClobbers | src/ynab_agent/policy/converge.py:142-193 | NO_CHANGE exactly when current, target and prior are one end-state; no write over an allocation the agent did not apply last. |
| Converge.UneditedReadsAsDivergedIff | src/ynab_agent/policy/converge.py:142-193 | An end-state that still hashes as the agent applied it is taken for an edit exactly when it is a split that reads back in another order. |
| Converge.ReorderedPriorReadsAsDiverged | src/ynab_agent/policy/converge.py:142-193 | The failing input: every reordering of a prior split whose equal-keyed lines are identical. |
| WriteBack.WriteVerifiesIff | src/ynab_agent/ynab/client.py:195-262 | A decision written and read back verifies exactly when it has no person tag and no empty category, a split has two lines at least, and a whole category meets no split already in place; memo and approval always come back. |
| WriteBack.ReorderedWriteVerifies | src/ynab_agent/ynab/client.py:195-262 | So it does when the lines of a split, identical when their keys are, are stored in another order. |
| Allocations.SplitTotal | src/ynab_agent/domain/allocations.py:135-146 | The loop returns the exact sum of the lines. |
| Resolve.ResolveSplit | src/ynab_agent/policy/resolve.py:55-93 | Lines sum to the total for every valid template and either sign; fixed lines follow its sign, each percent line but the last is its floored share, and the last is short of or over its share by less than a milliunit per other percent line. |
| Resolve.ResolveAllocation | src/ynab_agent/policy/resolve.py:36-52 | A category resolves to itself, a split to its apportionment. |
| Resolve.ApportionmentUnique | src/ynab_agent/policy/resolve.py:55-93 | Lines so apportioned with the same sum are the same lines. |
| ReceiptJoin.ActsOnceAsksOnce | src/ynab_agent/join/match.py:122-186 | For any verdicts at any times: at most one question, then at most one terminal action, and the status says exactly which happened. |
| ReceiptJoin.TerminalAbsorbs | src/ynab_agent/join/match.py:145-149 | A closed receipt stays closed and silent. |
| ReceiptJoin.TwoLateChecksClose | src/ynab_agent/join/match.py:150-169 | Two looks past the TTL close any receipt, whatever comes before, between and after. |
| ReceiptJoin.LateCheckCloses | src/ynab_agent/join/match.py:150-169 | One look past the TTL closes an open receipt, unless it is parked and the verdict ambiguous. |
| ReceiptJoin.ActsOnTheVerdict | src/ynab_agent/join/match.py:122-169 | A signal exactly for an open receipt and the transaction matched; a question exactly for a parked one, with the candidates named; a closing note exactly past the TTL for want of a match. |
| ReceiptStore.BoundedKeepsOpen | src/ynab_agent/join/store.py:43-56 | The bounded table keeps min(size, cap) rows; an open row goes only when no closed row is left; closed rows go oldest first. |
| ReceiptStore.LostOpenIsFirst | src/ynab_agent/join/store.py:43-56 | When open rows must go they go from the front: a lost open row comes before every row that stays. |
| ReceiptStore.BoundedInOrder | src/ynab_agent/join/store.py:43-56 | The rows that stay keep their order. |
| ReceiptStore.TableInvariant | src/ynab_agent/join/store.py:59-83 | On every run ids are unique and there are at most 100 rows. |
| ReceiptStore.OncePerAdmission | src/ynab_agent/join/store.py:59-93 | Over the shared, evicting table, with joins that act on whatever copy they are handed: the closures of an id, and its row's still unspent one, never exceed its admissions and its stale copies together; likewise its questions. |
| ReceiptRuns.ActsOnceIff | src/ynab_agent/join/store.py:43-93 | For every n and time to live: all runs that park at most n distinct ids, each join handed the row as it stands, close each at most once and ask about it at most once, if and only if n is at most the 100 rows of the table. |
| ReceiptRuns.ActsTwice | src/ynab_agent/join/store.py:43-93 | A run over 101 ids that closes one twice: matched, evicted by a hundred more, parked and matched again. |
| ReceiptRuns.StaleJoinsIff | src/ynab_agent/workflow/receipt_workflow.py:41-70 | For every s and m: all runs that fit the table and hand each receipt's joins at most s stale copies close each at most m times, if and only if m is more than s. |
| Lifecycle.RaisesIff | src/ynab_agent/domain/transaction.py:107-247 | A step raises exactly when the decision it would adopt is unapproved, unbalanced, or automatic but not the agent's; archiving never raises. |
| Lifecycle.OnlyAdvancedActs | src/ynab_agent/domain/state_machine.py:119-129 | An ignored or rejected event changes nothing and has no effects. |
| Outcomes.ActedOnIff | src/ynab_agent/domain/state_machine.py:132-161 | An event is acted on exactly when its state answers it and the decision it would adopt is accepted, and ignored exactly where waiting goes on; anything else is rejected. |
| Outcomes.MaterializedGoes | src/ynab_agent/domain/state_machine.py:164-198 | A snapshot takes a discovered transaction to the hold exactly when it is to be held, and else to enrichment, under that snapshot and its thread. |
| Outcomes.SignalGoes | src/ynab_agent/domain/state_machine.py:164-588 | A signal waits for the snapshot, ends a hold, stays with what is under way, or reopens what rests with the decision it rested on. |
| Outcomes.HoldEnds | src/ynab_agent/domain/state_machine.py:201-220 | A hold ends in enrichment, on the fresh snapshot if there is one. |
| Outcomes.DecisionGoes | src/ynab_agent/domain/state_machine.py:223-439 | An accepted automatic application or answer is written and held until verified; only the former is counted. |
| Outcomes.AskedGoes | src/ynab_agent/domain/state_machine.py:223-439 | A proposal opens the conversation or continues it, a question goes on with it, and patience starts anew. |
| Outcomes.PatienceGoes | src/ynab_agent/domain/state_machine.py:391-439 | Patience running out hands over exactly an unflagged transaction. |
| Outcomes.VerifiedGoes | src/ynab_agent/domain/state_machine.py:275-388 | A verified write rests, is told of, and, if an answer, is learned; one that diverged or could not be confirmed waits under its own flag and mail. |
| Outcomes.ConvergedGoes | src/ynab_agent/domain/state_machine.py:528-652 | Each converge outcome to its own state: carried out it rests; unconfirmed it waits as inconsistent; contested as diverged with both sides told; in need of the owner it asks why; unchanged it goes back where it came from. |
| Outcomes.ArchiveGoes | src/ynab_agent/domain/state_machine.py:442-525 | Past the window an applied transaction is archived exactly when reconciled, and a lapsed one exactly when reconciled and categorized. |
| Outcomes.OverrideGoes | src/ynab_agent/domain/state_machine.py:442-490 | The edit is adopted whether that archives the transaction or not, taught as a correction of the decision it replaces, and answered. |
| LifecycleRuns.AlwaysSound | src/ynab_agent/domain/state_machine.py:442-652 | Over every run, raising steps included. |
| LifecycleRuns.WritesAlternate | src/ynab_agent/domain/state_machine.py:223-369 | Over every run commits and accepted verifications strictly alternate, each commit is approved, and one is outstanding exactly in the post-write states, of the decision they hold. |
| LifecycleRuns.CommitsAreDecisions | src/ynab_agent/domain/state_machine.py:223-408 | The decisions committed over a run are the accepted automatic applications and answers, each once, in order. |
| LifecycleRuns.RestsOnlyOnTheEstablished | src/ynab_agent/domain/state_machine.py:319-525 | Over every run from where nothing rests, the decision a transaction rests on, or is revised from, was established in YNAB by some step of that run: a verified write of it, a revision its converge step verified, or an edit read back. |
| LifecycleRuns.FailedWriteIsFlagged | src/ynab_agent/domain/state_machine.py:319-388 | A write opens exactly on a match; otherwise it waits under the flag of its verdict. |
| LifecycleRuns.FlaggedWaits | src/ynab_agent/domain/state_machine.py:391-439 | On every run without an answer a flagged wait stays one, with its flag and its transaction. |
| LifecycleRuns.SnapshotStands | src/ynab_agent/domain/state_machine.py:201-439 | Over every run from past the hold, the snapshot and the thread stay those the transaction got there with. |
| LifecycleRuns.LearningNamesWhatChanged | src/ynab_agent/domain/state_machine.py:455-628 | What a step teaches names the payee and the new decision, as a correction of the standing one exactly when the allocation changed or was overridden. |
| LifecycleRuns.OwnerHears | src/ynab_agent/domain/state_machine.py:223-652 | The owner is written to at every hand-over, rest and close, exactly unless a revision changed nothing or the archive window passed on an unedited transaction. |
| LifecycleRuns.WrittenIsNamed | src/ynab_agent/domain/state_machine.py:319-347 | A transaction comes to rest on a new decision only with the mail for its kind naming that decision. |
| LifecycleRuns.SilenceNeverDecides | src/ynab_agent/domain/state_machine.py:391-525 | Without an automatic application, an answer or a rewritten revision, no step commits, counts or teaches, and the transaction is never applied or archived as decided. |
| LifecycleRuns.AutomationNeverTeaches | src/ynab_agent/domain/state_machine.py:275-347 | Without an answer, a rewritten revision or an override, no step feeds rule learning, however many rules apply themselves. |
| LifecycleRuns.DeadlinesAreWindows | src/ynab_agent/domain/config.py:20-28 | Over every run, an armed timer falls due its full window after some step of that run. |
| LifecycleRuns.DefaultWindows | src/ynab_agent/domain/config.py:20-28 | With the defaults: 36 hours of hold, 7 days of patience, 30 days until archiving, each from some step of the run. |
| LifecycleRuns.NoStaleTimers | src/ynab_agent/domain/state_machine.py:164-525 | Over every run: the hold timer exactly in the hold, the patience timer only while awaiting and always when unflagged, each for the recorded deadline; the archive timer only in OPEN and LAPSED; none elsewhere. |
| LifecycleRuns.ReplayedOnceInOrder | src/ynab_agent/domain/state_machine.py:164-195 | Every signal taken in is replayed once, in order of arrival, but for those still buffered, which are the latest. |
| LifecycleRuns.ReopensWith | src/ynab_agent/domain/state_machine.py:442-508 | A signal to a resting transaction becomes the instruction of a revision and is not replayed. |
| LifecycleWorkflow.TransactionWorkflow.constructor | src/ynab_agent/workflow/txn_workflow.py:131-175 | Starts as born, with nothing queued. |
| LifecycleWorkflow.TransactionWorkflow.SubmitInbound | src/ynab_agent/workflow/txn_workflow.py:145-147 | A signal joins the end of the queue. |
| LifecycleWorkflow.TransactionWorkflow.NotifySnapshot | src/ynab_agent/workflow/txn_workflow.py:150-152 | The latest snapshot is kept; the queue is untouched. |
| LifecycleWorkflow.TransactionWorkflow.OpenWith | src/ynab_agent/workflow/txn_workflow.py:343-365 | Opening binds the transaction; at most one thread is ever opened for it. |
| LifecycleWorkflow.TransactionWorkflow.CarryOut | src/ynab_agent/workflow/txn_workflow.py:272-341 | Each effect other than a commit does to queue, deadlines and thread what its fold says, and to the state nothing but the thread. |
| LifecycleWorkflow.TransactionWorkflow.Dispatch | src/ynab_agent/workflow/txn_workflow.py:244-271 | The state follows the state machine up to the thread; a write it starts is verified before it returns; an invalid decision leaves everything unchanged; buffer and queue together gain exactly the signal taken in. |
| LifecycleWorkflow.TransactionWorkflow.OnDiscovered | src/ynab_agent/workflow/txn_workflow.py:386-417 | Goes where the event of highest precedence takes it (fetched, then notified, then the first signal): held for the full window exactly when that snapshot is to be held, else enriched, under that snapshot; without one, one signal longer in the buffer. No signal is lost, repeated or reordered. |
| LifecycleWorkflow.TransactionWorkflow.OnHold | src/ynab_agent/workflow/txn_workflow.py:428-442 | Goes to enrichment by the fresh snapshot, else the first signal, else the deadline, under the fresh snapshot if there is one; no signal is lost, repeated or reordered. |
| LifecycleWorkflow.TransactionWorkflow.OnAwaiting | src/ynab_agent/workflow/txn_workflow.py:444-475 | Unanswered and unflagged it lapses; otherwise exactly one signal is acted on, the first queued or, for a flagged wait that ran out, the one that ends it: an answer that can rest is written and rests exactly when it reads back as written, one that cannot changes nothing, and a question goes on under the same flag and proposal. |
| LifecycleWorkflow.TransactionWorkflow.OnOpen | src/ynab_agent/workflow/txn_workflow.py:477-528 | Signals come before archiving. Past the window, an edit that cannot rest leaves an unreconciled transaction as it was; otherwise it is archived exactly when reconciled, else reopened under exactly the signal that ends a blocked archive, and the decision left standing is the allocation, memo and approval read, by the owner and no rule, exactly when another allocation was read. |
| LifecycleWorkflow.TransactionWorkflow.OnLapsed | src/ynab_agent/workflow/txn_workflow.py:530-559 | Signals come before archiving; past the window it is archived, as never decided, exactly when reconciled and categorized, else reopened without a prior decision under exactly the signal that ends a blocked archive. |
| LifecycleWorkflow.TransactionWorkflow.OnEnriching | src/ynab_agent/workflow/txn_workflow.py:419-426 | A proposal waits for the owner unflagged; an automatic decision that can rest is written, and rests exactly when it reads back as written, else waits under the verdict's flag; one that cannot changes nothing. Acts on no signal and loses none. |
| LifecycleWorkflow.TransactionWorkflow.OnRevising | src/ynab_agent/workflow/txn_workflow.py:565-572 | Carried out it rests on the new decision; unchanged it goes back to the decision it came from, or to waiting; unconfirmed it waits as inconsistent, contested as diverged, in need of the owner unflagged; a decision that cannot rest changes nothing. Acts on no signal and loses none. |
| LifecycleWorkflow.FailedAnswerDropsPatience | src/ynab_agent/workflow/txn_workflow.py:244-271 | When an answer's write fails to verify, the patience timer just armed is cancelled by the answer's own effect; that wait rests on the deadline its state records. |
| LifecycleWorkflow.OverrideWithoutEditIff | src/ynab_agent/workflow/txn_workflow.py:505-528 | What still verifies is taken at archive time for the owner's edit exactly when it is a split that reads back in another order. |
| LifecycleWorkflow.ReorderedReadIsTakenForEdit | src/ynab_agent/workflow/txn_workflow.py:505-528 | It happens to every reordering of a split whose equal-keyed lines are identical: verified as a match, then taken for an override. |
| FrozenClasses.Collect | agents/frozen_mutability.py:135-141 | The first pass unites the bases of each name over its definitions and finds exactly the seeds. |
| FrozenClasses.Sweep | agents/frozen_mutability.py:145-148 | One sweep, in any order, adds only names that reach a seed, and reports a change exactly when it made one. |
| FrozenClasses.FrozenClassNames | agents/frozen_mutability.py:129-149 | The fixpoint loop ends and returns exactly the names from which a seed is reachable along base names, repeated and cyclic names included. |

## Left out

- Model agents and prompts: their outputs are arbitrary inputs.
- YNAB, mail, notification, HTTP and Temporal calls, retries' timing, continue-as-new, queries, search attributes, settings, telemetry: plumbing around the decisions.
- Races between reading a ledger and signalling it, swallowed failures of a record, and the fallbacks on unreachable services: each lookup and its record are one step.
- Time zones and calendars: a day of the month and a month length are constrained integers.
- Actual hashing, Unicode case folding and decimal parsing: abstracted as stated above.
- The dashboard, email templates, rendering and the human-readable reasons of ignored and rejected events: presentation.
- Inbound classification, ingest planning and scope: single-branch filters.
- The other lint loops, the annotation walk of the frozen-mutability scan and `scripts/check_determinism.py`: sweeps over a foreign parser.
- Fields no modelled decision reads: proposal framing, snapshot dates and flags, receipt contents, audit references.
- TransactionWorkflow: signals that arrive between two effects of one dispatch join the queue before or after the whole dispatch; the enrichment that carries a proposal into later mails, and the failure alert, are not modelled.
- Joins of one receipt run one at a time, and a join plans and saves its status in one step; what a stale join does to the transaction it signals, and the mail labels that suppress a repeated note, are not modelled.
- WriteVerifiesIff: the server is taken to overwrite exactly the fields it is sent and to be readable afterwards.
