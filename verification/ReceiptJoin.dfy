/** The spine of the receipt join: what to do with the model's verdict on one receipt. */
module ReceiptJoin {
  import opened Prelude

  datatype ReceiptStatus = Parked | Matched | Asked | Expired {
    predicate Open() { Parked? || Asked? }
  }

  datatype Receipt = Receipt(id: string, parkedAt: Instant, status: ReceiptStatus)

  datatype MatchOutcome =
    | ConfidentMatch(txn: string)
    | Ambiguous(candidates: seq<string>)
    | NoMatch

  datatype JoinAction =
    | SignalTransaction(txn: string, receipt: string)
    | AskDisambiguation(receipt: string, candidates: seq<string>)
    | AskNoMatch(receipt: string)
    | Park
    | DoNothing
  {
    /** The actions that end the join for a receipt. */
    predicate Terminal() { SignalTransaction? || AskNoMatch? }
  }

  /** Thirty days. */
  const DEFAULT_RECEIPT_TTL := 30 * DAY

  function PlanJoin(receipt: Receipt, outcome: MatchOutcome, now: Instant, ttl: int): JoinAction {
    if receipt.status.Matched? || receipt.status.Expired? then DoNothing
    else
      var expired := now - receipt.parkedAt > ttl;
      match outcome
      case ConfidentMatch(txn) => SignalTransaction(txn, receipt.id)
      case Ambiguous(candidates) =>
        if receipt.status.Asked? then if expired then AskNoMatch(receipt.id) else DoNothing
        else AskDisambiguation(receipt.id, candidates)
      case NoMatch => if expired then AskNoMatch(receipt.id) else Park
  }

  function ResultingStatus(action: JoinAction): Option<ReceiptStatus> {
    match action
    case SignalTransaction(_, _) => Some(Matched)
    case AskDisambiguation(_, _) => Some(Asked)
    case AskNoMatch(_) => Some(Expired)
    case Park => None
    case DoNothing => None
  }

  /** One re-check: a verdict at a time. */
  datatype Check = Check(outcome: MatchOutcome, now: Instant)

  function AfterCheck(receipt: Receipt, check: Check, ttl: int): Receipt {
    var status := ResultingStatus(PlanJoin(receipt, check.outcome, check.now, ttl));
    receipt.(status := status.GetOr(receipt.status))
  }

  function AfterChecks(receipt: Receipt, checks: seq<Check>, ttl: int): Receipt {
    if checks == [] then receipt
    else AfterCheck(AfterChecks(receipt, checks[..|checks| - 1], ttl), checks[|checks| - 1], ttl)
  }

  /** The actions of a run that send anything, in order. */
  ghost function Acts(receipt: Receipt, checks: seq<Check>, ttl: int): seq<JoinAction> {
    if checks == [] then []
    else
      var n := |checks| - 1;
      var action := PlanJoin(AfterChecks(receipt, checks[..n], ttl), checks[n].outcome, checks[n].now, ttl);
      Acts(receipt, checks[..n], ttl) + if action.Park? || action.DoNothing? then [] else [action]
  }

  /** At most one question, then at most one terminal action, and the status says
      exactly which of them happened. */
  ghost predicate Lawful(start: ReceiptStatus, acts: seq<JoinAction>, now: ReceiptStatus) {
    || (acts == [] && now == start)
    || (|acts| == 1 && start == Parked && acts[0].AskDisambiguation? && now == Asked)
    || (|acts| == 1 && start.Open() && acts[0].SignalTransaction? && now == Matched)
    || (|acts| == 1 && start.Open() && acts[0].AskNoMatch? && now == Expired)
    || (|acts| == 2 && start == Parked && acts[0].AskDisambiguation? && acts[1].SignalTransaction? && now == Matched)
    || (|acts| == 2 && start == Parked && acts[0].AskDisambiguation? && acts[1].AskNoMatch? && now == Expired)
  }

  /** Act once, ask once: over any sequence of verdicts, at any times. */
  lemma {:induction false} ActsOnceAsksOnce(receipt: Receipt, checks: seq<Check>, ttl: int)
    ensures Lawful(receipt.status, Acts(receipt, checks, ttl), AfterChecks(receipt, checks, ttl).status)
    ensures AfterChecks(receipt, checks, ttl).(status := receipt.status) == receipt
  {
    if checks != [] {
      ActsOnceAsksOnce(receipt, checks[..|checks| - 1], ttl);
    }
  }

  /** A closed receipt stays closed and silent. */
  lemma {:induction false} TerminalAbsorbs(receipt: Receipt, checks: seq<Check>, ttl: int)
    requires !receipt.status.Open()
    ensures AfterChecks(receipt, checks, ttl) == receipt && Acts(receipt, checks, ttl) == []
  {
    if checks != [] {
      TerminalAbsorbs(receipt, checks[..|checks| - 1], ttl);
    }
  }

  lemma {:induction false} ChecksCompose(receipt: Receipt, a: seq<Check>, b: seq<Check>, ttl: int)
    ensures AfterChecks(receipt, a + b, ttl) == AfterChecks(AfterChecks(receipt, a, ttl), b, ttl)
  {
    if b == [] {
      assert a + b == a;
    } else {
      assert (a + b)[..|a + b| - 1] == a + b[..|b| - 1];
      ChecksCompose(receipt, a, b[..|b| - 1], ttl);
    }
  }

  /** One check past the TTL closes an open receipt, unless it is a parked one whose
      verdict is ambiguous: that one is asked about first. */
  lemma LateCheckCloses(receipt: Receipt, check: Check, ttl: int)
    requires receipt.status.Open() && check.now - receipt.parkedAt > ttl
    ensures !AfterCheck(receipt, check, ttl).status.Open() <==>
            !(receipt.status.Parked? && check.outcome.Ambiguous?)
  {
  }

  /** Two checks past the TTL close any receipt, whatever the verdicts and whatever
      checks come before, between and after. */
  lemma {:induction false} TwoLateChecksClose(receipt: Receipt, checks: seq<Check>, ttl: int, i: nat, j: nat)
    requires i < j < |checks|
    requires checks[i].now - receipt.parkedAt > ttl && checks[j].now - receipt.parkedAt > ttl
    ensures !AfterChecks(receipt, checks, ttl).status.Open()
  {
    var head, tail := checks[..j + 1], checks[j + 1..];
    assert checks == head + tail;
    ChecksCompose(receipt, head, tail, ttl);
    LateCheckLeavesAskedAtMost(receipt, checks, ttl, i, j);
    assert head[..j] == checks[..j] && head[j] == checks[j];
    ActsOnceAsksOnce(receipt, checks[..j], ttl);
    TerminalAbsorbs(AfterChecks(receipt, head, ttl), tail, ttl);
  }

  /** After a check past the TTL, and any more checks, a receipt is no longer parked. */
  lemma {:induction false} LateCheckLeavesAskedAtMost(
      receipt: Receipt, checks: seq<Check>, ttl: int, i: nat, j: nat)
    requires i < j <= |checks| && checks[i].now - receipt.parkedAt > ttl
    ensures !AfterChecks(receipt, checks[..j], ttl).status.Parked?
  {
    assert checks[..j][..j - 1] == checks[..j - 1];
    ActsOnceAsksOnce(receipt, checks[..j - 1], ttl);
    if i < j - 1 {
      LateCheckLeavesAskedAtMost(receipt, checks, ttl, i, j - 1);
    }
  }

  /** What is done answers the verdict: a confident match signals the transaction it names
      whenever the receipt is open, even after a question; only a parked receipt is asked
      about, with the candidates named; and a receipt is aged out only past the TTL, and
      then only for want of a match. */
  lemma ActsOnTheVerdict(receipt: Receipt, outcome: MatchOutcome, now: Instant, ttl: int, txn: string)
    ensures var action, late := PlanJoin(receipt, outcome, now, ttl), now - receipt.parkedAt > ttl;
            && (action == SignalTransaction(txn, receipt.id) <==>
                  receipt.status.Open() && outcome == ConfidentMatch(txn))
            && (action.AskDisambiguation? <==> receipt.status.Parked? && outcome.Ambiguous?)
            && (action.AskDisambiguation? ==> action == AskDisambiguation(receipt.id, outcome.candidates))
            && (action == AskNoMatch(receipt.id) <==>
                  late && receipt.status.Open()
                  && (outcome.NoMatch? || (outcome.Ambiguous? && receipt.status.Asked?)))
            && (action.AskNoMatch? ==> action.receipt == receipt.id)
    ensures PlanJoin(receipt, NoMatch, now, DEFAULT_RECEIPT_TTL).AskNoMatch? <==>
            receipt.status.Open() && now - receipt.parkedAt > 30 * 24 * HOUR
  {
  }
}
