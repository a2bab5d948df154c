/** Whole runs of the lifecycle: write discipline, silence, timers and signals. */
module LifecycleRuns {
  import opened Prelude
  import opened Domain
  import opened Converge
  import opened Lifecycle

  datatype Step = Step(event: Event, now: Instant)

  /** A step of a run. When a validator raises, the new state is never assigned and no
      effect is carried out. */
  function Take(txn: Transaction, step: Step, policy: Policy): Transition {
    var outcome := Advance(txn, step.event, step.now, policy);
    if outcome.Some? then outcome.value else Rejecting(txn)
  }

  ghost function After(start: Transaction, steps: seq<Step>, policy: Policy): Transaction {
    if steps == [] then start
    else Take(After(start, steps[..|steps| - 1], policy), steps[|steps| - 1], policy).next
  }

  /** The last transition of a nonempty run. */
  ghost function LastOf(start: Transaction, steps: seq<Step>, policy: Policy): Transition
    requires steps != []
  {
    Take(After(start, steps[..|steps| - 1], policy), steps[|steps| - 1], policy)
  }

  /** Every reachable state satisfies its validator, and a revision holds a prior decision
      exactly when it reopened an applied transaction. */
  lemma {:induction false} AlwaysSound(start: Transaction, steps: seq<Step>, policy: Policy)
    requires Sound(start)
    ensures Sound(After(start, steps, policy))
  {
    hide Handle, Sound;
    if steps != [] {
      var front, step := steps[..|steps| - 1], steps[|steps| - 1];
      AlwaysSound(start, front, policy);
      var txn := After(start, front, policy);
      if Advance(txn, step.event, step.now, policy).Some? {
        SoundStep(txn, step.event, step.now, policy);
      }
    }
  }

  // ---------- commit and verify ----------

  datatype Mark = Wrote(decision: Decision) | Checked

  predicate InFlight(txn: Transaction) {
    txn.AutoApplied? || txn.Applied?
  }

  function Commits(effects: seq<Effect>): seq<Decision> {
    if effects == [] then []
    else Commits(effects[..|effects| - 1])
         + if effects[|effects| - 1].CommitToYnab? then [effects[|effects| - 1].decision] else []
  }

  lemma {:induction false} NoCommits(effects: seq<Effect>)
    requires forall k :: 0 <= k < |effects| ==> !effects[k].CommitToYnab?
    ensures Commits(effects) == []
  {
    if effects != [] {
      NoCommits(effects[..|effects| - 1]);
    }
  }

  lemma {:induction false} FirstCommits(effects: seq<Effect>)
    requires |effects| > 0 && effects[0].CommitToYnab?
    requires forall k :: 1 <= k < |effects| ==> !effects[k].CommitToYnab?
    ensures Commits(effects) == [effects[0].decision]
  {
    if |effects| > 1 {
      FirstCommits(effects[..|effects| - 1]);
    } else {
      assert effects[..0] == [];
    }
  }

  /** The decision an accepted event orders written: an automatic one while enriching, or
      the owner's answer while awaiting it. */
  function Decides(txn: Transaction, event: Event): Option<Decision> {
    if txn.Enriching? || txn.AwaitingHuman? then Adopts(txn, event) else None
  }

  /** A step commits exactly the decision the event carries, and then holds it. */
  lemma {:induction false} CommitStep(txn: Transaction, step: Step, policy: Policy)
    requires Sound(txn)
    ensures var t, decides := Take(txn, step, policy), Decides(txn, step.event);
            if t.kind.Advanced? && decides.Some? then
              && Commits(t.effects) == [decides.value] && decides.value.approved
              && InFlight(t.next) && t.next.decision == decides.value && !InFlight(txn)
            else
              Commits(t.effects) == []
  {
    hide Commits;
    var t, decides := Take(txn, step, policy), Decides(txn, step.event);
    if t.kind.Advanced? && decides.Some? {
      FirstCommits(t.effects);
    } else {
      NoCommits(t.effects);
    }
  }

  /** A write in flight leaves it only by its verification, and only a commit starts one. */
  lemma VerifyStep(txn: Transaction, step: Step, policy: Policy)
    ensures var t := Take(txn, step, policy);
            && (InFlight(txn) && t.kind.Advanced? ==> step.event.WriteVerified? && !InFlight(t.next))
            && (InFlight(txn) && !t.kind.Advanced? ==> t.next == txn)
            && (step.event.WriteVerified? && t.kind.Advanced? ==> InFlight(txn))
            && (InFlight(t.next) && !InFlight(txn) ==> t.kind.Advanced? && Decides(txn, step.event).Some?)
  {
  }

  /** The commits and the accepted verifications of a run, in order. */
  ghost function Marks(start: Transaction, steps: seq<Step>, policy: Policy): seq<Mark> {
    if steps == [] then []
    else
      var t := LastOf(start, steps, policy);
      var commits := Commits(t.effects);
      Marks(start, steps[..|steps| - 1], policy)
      + (if steps[|steps| - 1].event.WriteVerified? && t.kind.Advanced? then [Checked] else [])
      + seq(|commits|, i requires 0 <= i < |commits| => Wrote(commits[i]))
  }

  ghost predicate Alternating(marks: seq<Mark>) {
    forall i :: 0 <= i < |marks| ==>
      if i % 2 == 0 then marks[i].Wrote? && marks[i].decision.approved else marks[i].Checked?
  }

  /** Writes and verifications strictly alternate, starting with a write; every write is of
      an approved decision; and a write is outstanding exactly in the two post-write
      states, where it is of the decision the state holds. */
  lemma {:induction false} WritesAlternate(start: Transaction, steps: seq<Step>, policy: Policy)
    requires Sound(start) && !InFlight(start)
    ensures var marks, txn := Marks(start, steps, policy), After(start, steps, policy);
            && Alternating(marks)
            && (|marks| % 2 == 1 <==> InFlight(txn))
            && (InFlight(txn) ==> marks[|marks| - 1] == Wrote(txn.decision))
  {
    hide Take, Sound, Decides, Commits;
    if steps != [] {
      var front, step := steps[..|steps| - 1], steps[|steps| - 1];
      WritesAlternate(start, front, policy);
      AlwaysSound(start, front, policy);
      CommitStep(After(start, front, policy), step, policy);
      VerifyStep(After(start, front, policy), step, policy);
    }
  }

  /** The decisions the run committed, in order. */
  ghost function Committing(start: Transaction, steps: seq<Step>, policy: Policy): seq<Decision> {
    if steps == [] then []
    else Committing(start, steps[..|steps| - 1], policy) + Commits(LastOf(start, steps, policy).effects)
  }

  /** The decisions of the accepted automatic applications and answers, in order. */
  ghost function Deciding(start: Transaction, steps: seq<Step>, policy: Policy): seq<Decision> {
    if steps == [] then []
    else
      var front, step := steps[..|steps| - 1], steps[|steps| - 1];
      var decides := Decides(After(start, front, policy), step.event);
      Deciding(start, front, policy)
      + if LastOf(start, steps, policy).kind.Advanced? && decides.Some? then [decides.value] else []
  }

  /** What is written is what was decided: each accepted decision exactly once, in order,
      and nothing else. */
  lemma {:induction false} CommitsAreDecisions(start: Transaction, steps: seq<Step>, policy: Policy)
    requires Sound(start)
    ensures Committing(start, steps, policy) == Deciding(start, steps, policy)
  {
    hide Take, Sound, Decides, Commits;
    if steps != [] {
      var front, step := steps[..|steps| - 1], steps[|steps| - 1];
      CommitsAreDecisions(start, front, policy);
      AlwaysSound(start, front, policy);
      CommitStep(After(start, front, policy), step, policy);
    }
  }

  // ---------- silence and learning ----------

  /** The owner decided nothing, no rule applied itself, and no revision was written. */
  predicate IsSilent(event: Event) {
    && !(event.Enriched? && event.enriched.AutoApply?)
    && !event.AnswerReceived?
    && !(event.Converged? && event.converged.Reapplied?)
  }

  ghost predicate Silent(steps: seq<Step>) {
    forall i :: 0 <= i < |steps| ==> IsSilent(steps[i].event)
  }

  /** Nothing was ever decided about the transaction. */
  predicate Undecided(txn: Transaction) {
    && !txn.AutoApplied? && !txn.Applied? && !txn.Open?
    && (txn.Revising? ==> txn.prior.None?)
    && (txn.Archived? ==> txn.final.None?)
  }

  predicate Writes(effect: Effect) {
    effect.CommitToYnab? || effect.RecordAutoAction? || effect.Feed?
  }

  lemma SilentStep(txn: Transaction, step: Step, policy: Policy)
    requires Undecided(txn) && IsSilent(step.event)
    ensures var t := Take(txn, step, policy);
            Undecided(t.next) && forall k :: 0 <= k < |t.effects| ==> !Writes(t.effects[k])
  {
  }

  /** Silence never decides: without an automatic application, an answer or a rewritten
      revision, the transaction is never applied, rests in no applied state, is archived
      only as never decided, and no step of the run commits, counts an automatic action
      or teaches a rule. */
  lemma {:induction false} SilenceNeverDecides(start: Transaction, steps: seq<Step>, policy: Policy, n: nat)
    requires Undecided(start) && Silent(steps) && n <= |steps|
    ensures Undecided(After(start, steps[..n], policy))
    ensures n > 0 ==>
              var effects := LastOf(start, steps[..n], policy).effects;
              forall k :: 0 <= k < |effects| ==> !Writes(effects[k])
  {
    hide Take, Undecided, IsSilent, Writes;
    if n > 0 {
      SilenceNeverDecides(start, steps, policy, n - 1);
      assert steps[..n][..n - 1] == steps[..n - 1];
      SilentStep(After(start, steps[..n - 1], policy), steps[n - 1], policy);
    } else {
      assert steps[..0] == [];
    }
  }

  /** The owner said nothing: no answer, no rewritten revision, no edit made in YNAB. */
  predicate IsUnspoken(event: Event) {
    && !event.AnswerReceived? && !event.OverrideDetected?
    && !(event.Converged? && event.converged.Reapplied?)
  }

  lemma UnspokenStep(txn: Transaction, step: Step, policy: Policy)
    requires !txn.Applied? && IsUnspoken(step.event)
    ensures var t := Take(txn, step, policy);
            !t.next.Applied? && forall k :: 0 <= k < |t.effects| ==> !t.effects[k].Feed?
  {
  }

  /** Automatic application never teaches: however many rules apply themselves, without
      the owner's word no step feeds rule learning. */
  lemma {:induction false} AutomationNeverTeaches(start: Transaction, steps: seq<Step>, policy: Policy, n: nat)
    requires !start.Applied? && n <= |steps|
    requires forall i :: 0 <= i < |steps| ==> IsUnspoken(steps[i].event)
    ensures !After(start, steps[..n], policy).Applied?
    ensures n > 0 ==>
              var effects := LastOf(start, steps[..n], policy).effects;
              forall k :: 0 <= k < |effects| ==> !effects[k].Feed?
  {
    hide Take, IsUnspoken;
    if n > 0 {
      AutomationNeverTeaches(start, steps, policy, n - 1);
      assert steps[..n][..n - 1] == steps[..n - 1];
      UnspokenStep(After(start, steps[..n - 1], policy), steps[n - 1], policy);
    } else {
      assert steps[..0] == [];
    }
  }

  /** The decision a transaction stands on: written, archived, or about to be revised. */
  function Standing(txn: Transaction): Option<Decision> {
    match txn
    case AutoApplied(_, decision) => Some(decision)
    case Applied(_, decision) => Some(decision)
    case Open(_, decision) => Some(decision)
    case Archived(_, final) => final
    case Revising(_, _, _, prior) => prior
    case _ => None
  }

  /** What a step teaches is what it changed: the new decision for the transaction's own
      payee, as a correction of the decision it stood on exactly when the allocation
      changed or the owner overrode it, and otherwise as a confirmation. */
  lemma LearningNamesWhatChanged(txn: Transaction, step: Step, policy: Policy, k: nat)
    requires k < |Take(txn, step, policy).effects| && Take(txn, step, policy).effects[k].Feed?
    ensures var t := Take(txn, step, policy);
            var feed, was := t.effects[k].feed, Standing(txn);
            && k == 0 && feed.payee == txn.core.snapshot.payee
            && feed.decision == Standing(t.next) && feed.decision.Some?
            && (feed.event.CorrectKind? <==>
                  step.event.OverrideDetected?
                  || (was.Some? && was.value.allocation != feed.decision.value.allocation))
            && feed.prior == if feed.event.CorrectKind? then was else None
  {
  }

  /** The decision the transaction rests on, or is being revised from. */
  function RestsOn(txn: Transaction): Option<Decision> {
    match txn
    case Open(_, decision) => Some(decision)
    case Revising(_, _, _, prior) => prior
    case _ => None
  }

  /** The step establishes that YNAB holds the decision: a write that read back as written,
      a converge that wrote and verified it, or the owner's own edit read back. */
  predicate Establishes(txn: Transaction, step: Step, decision: Decision) {
    || (InFlight(txn) && step.event == WriteVerified(Match) && txn.decision == decision)
    || (txn.Revising? && step.event == Converged(Reapplied(decision)))
    || (txn.Open? && step.event == OverrideDetected(decision))
  }

  lemma RestsStep(txn: Transaction, step: Step, policy: Policy)
    ensures var rests := RestsOn(Take(txn, step, policy).next);
            rests.Some? ==> rests == RestsOn(txn) || Establishes(txn, step, rests.value)
  {
  }

  ghost predicate EstablishedAt(
      start: Transaction, steps: seq<Step>, policy: Policy, decision: Decision, i: int)
  {
    0 <= i < |steps| && Establishes(After(start, steps[..i], policy), steps[i], decision)
  }

  /** Over every run from where nothing rests, what a transaction comes to rest on, or is
      revised from, some step of the run established in YNAB. */
  lemma {:induction false} RestsOnlyOnTheEstablished(
      start: Transaction, steps: seq<Step>, policy: Policy, decision: Decision)
    requires RestsOn(start).None? && RestsOn(After(start, steps, policy)) == Some(decision)
    ensures exists i :: EstablishedAt(start, steps, policy, decision, i)
  {
    hide Take, Establishes, RestsOn;
    assert steps != [];
    var n := |steps| - 1;
    var txn := After(start, steps[..n], policy);
    RestsStep(txn, steps[n], policy);
    if Establishes(txn, steps[n], decision) {
      assert EstablishedAt(start, steps, policy, decision, n);
    } else {
      RestsOnlyOnTheEstablished(start, steps[..n], policy, decision);
      var i :| EstablishedAt(start, steps[..n], policy, decision, i);
      assert steps[..n][..i] == steps[..i];
      assert EstablishedAt(start, steps, policy, decision, i);
    }
  }

  /** A write that does not verify waits for the owner under the flag of its verdict. */
  lemma FailedWriteIsFlagged(txn: Transaction, verdict: VerifyOutcome, now: Instant, policy: Policy)
    requires Sound(txn) && InFlight(txn)
    ensures var next := Take(txn, Step(WriteVerified(verdict), now), policy).next;
            && (next.Open? <==> verdict.Match?)
            && (!verdict.Match? ==>
                  next.AwaitingHuman? && next.flag == if verdict.Diverged? then FlagDiverged else FlagInconsistent)
  {
  }

  lemma FlagKept(txn: Transaction, step: Step, policy: Policy)
    requires txn.AwaitingHuman? && !txn.flag.Unflagged? && !step.event.AnswerReceived?
    ensures var next := Take(txn, step, policy).next;
            next.AwaitingHuman? && next.flag == txn.flag && next.core == txn.core && next.proposal == txn.proposal
  {
  }

  /** A flagged wait never lapses: however long, only an answer ends it. */
  lemma {:induction false} FlaggedWaits(start: Transaction, steps: seq<Step>, policy: Policy)
    requires start.AwaitingHuman? && !start.flag.Unflagged?
    requires forall i :: 0 <= i < |steps| ==> !steps[i].event.AnswerReceived?
    ensures var txn := After(start, steps, policy);
            txn.AwaitingHuman? && txn.flag == start.flag && txn.core == start.core
  {
    hide Take;
    if steps != [] {
      FlaggedWaits(start, steps[..|steps| - 1], policy);
      FlagKept(After(start, steps[..|steps| - 1], policy), steps[|steps| - 1], policy);
    }
  }

  /** A step keeps the snapshot and the thread, but for a hold resolved by a fresh one; and
      what was proposed stays with the transaction until it is answered or revised. */
  lemma CoreKept(txn: Transaction, step: Step, policy: Policy)
    requires !txn.Discovered?
    ensures var next := Take(txn, step, policy).next;
            && !next.Discovered?
            && next.core == (if txn.HoldAmazon? && step.event.HoldResolved?
                             then txn.core.(snapshot := step.event.snapshot) else txn.core)
            && (txn.AwaitingHuman? && next.AwaitingHuman? ==> next.proposal == txn.proposal)
            && (txn.AwaitingHuman? && next.Lapsed? ==> next.proposal == txn.proposal)
            && (txn.Enriching? && next.AwaitingHuman? ==>
                  next.proposal.Some? && next.flag.Unflagged?
                  && step.event == Enriched(AskHuman(next.proposal.value)))
  {
  }

  /** Past the hold, the snapshot and the thread are those the transaction got there with. */
  lemma {:induction false} SnapshotStands(start: Transaction, steps: seq<Step>, policy: Policy)
    requires !start.Discovered? && !start.HoldAmazon?
    ensures var txn := After(start, steps, policy);
            !txn.Discovered? && !txn.HoldAmazon? && txn.core == start.core
  {
    hide Take;
    if steps != [] {
      SnapshotStands(start, steps[..|steps| - 1], policy);
      CoreKept(After(start, steps[..|steps| - 1], policy), steps[|steps| - 1], policy);
      NoReturnToHold(After(start, steps[..|steps| - 1], policy), steps[|steps| - 1], policy);
    }
  }

  lemma NoReturnToHold(txn: Transaction, step: Step, policy: Policy)
    requires !txn.Discovered? && !txn.HoldAmazon?
    ensures !Take(txn, step, policy).next.HoldAmazon?
  {
  }

  /** The effect writes to the owner; closing the thread only files it away. */
  predicate Speaks(effect: Effect) {
    effect.OpenThread? || effect.SendThreadMessage?
  }

  ghost predicate Spoken(effects: seq<Effect>) {
    exists k :: 0 <= k < |effects| && Speaks(effects[k])
  }

  /** The owner is written to at every step that hands the transaction over, rests it or
      closes it, exactly unless a revision changed nothing or an archive window passed on a
      transaction the owner had not edited. */
  lemma OwnerHears(txn: Transaction, step: Step, policy: Policy)
    requires Take(txn, step, policy).kind.Advanced? && !step.event.InboundReceived?
    requires var next := Take(txn, step, policy).next;
             next.AwaitingHuman? || next.Open? || next.Lapsed? || next.Archived?
    ensures Spoken(Take(txn, step, policy).effects)
            <==> step.event != Converged(Unchanged)
                 && !(step.event.ArchiveWindowReached? && Take(txn, step, policy).next.Archived?)
  {
    var effects := Take(txn, step, policy).effects;
    if step.event != Converged(Unchanged)
       && !(step.event.ArchiveWindowReached? && Take(txn, step, policy).next.Archived?) {
      assert Speaks(effects[0]) || Speaks(effects[1]);
    }
  }

  /** The mail about a write: a notice for an automatic one, a confirmation for an answer,
      a summary for a revision, a note for an override. */
  function MailFor(txn: Transaction): Purpose {
    if txn.AutoApplied? then FyiMail
    else if txn.Applied? then ConfirmMail
    else if txn.Revising? then ReviseMail
    else OverrideMail
  }

  /** Whatever decision a transaction comes to rest on is named to the owner, unless it is
      the one it rested on before. */
  lemma WrittenIsNamed(txn: Transaction, step: Step, policy: Policy)
    requires Sound(txn) && Take(txn, step, policy).next.Open?
    requires !txn.Open? || Take(txn, step, policy).next.decision != txn.decision
    ensures var t := Take(txn, step, policy);
            || SendThreadMessage(MailFor(txn), NoDetail, Some(t.next.decision)) in t.effects
            || (step.event == Converged(Unchanged) && Standing(txn) == Some(t.next.decision))
  {
    var effects := Take(txn, step, policy).effects;
    if !(step.event == Converged(Unchanged)) {
      assert effects[0] in effects && effects[1] in effects;
    }
  }

  // ---------- timers ----------

  type Timers = map<TimerKind, Instant>

  /** The timer whose firing, or whose moment, the event is. */
  function Fires(event: Event): set<TimerKind> {
    match event
    case HoldDeadlineReached => {HoldTimer}
    case PatienceExpired => {PatienceTimer}
    case ArchiveWindowReached => {ArchiveTimer}
    case OverrideDetected(_) => {ArchiveTimer}
    case _ => {}
  }

  function ArmBy(armed: Timers, effect: Effect): Timers {
    match effect
    case SetTimer(timer, deadline) => armed[timer := deadline]
    case CancelTimer(timer) => armed - {timer}
    case _ => armed
  }

  function Arm(armed: Timers, effects: seq<Effect>): Timers {
    if effects == [] then armed
    else ArmBy(Arm(armed, effects[..|effects| - 1]), effects[|effects| - 1])
  }

  /** The timers armed after a run that starts with none. */
  ghost function Armed(start: Transaction, steps: seq<Step>, policy: Policy): Timers {
    if steps == [] then map[]
    else
      Arm(Armed(start, steps[..|steps| - 1], policy) - Fires(steps[|steps| - 1].event),
          LastOf(start, steps, policy).effects)
  }

  /** The timers a state may have armed. */
  ghost predicate Fits(txn: Transaction, armed: Timers) {
    match txn
    case HoldAmazon(_, deadline) => armed == map[HoldTimer := deadline]
    case AwaitingHuman(_, deadline, _, flag) =>
      armed == map[PatienceTimer := deadline] || (!flag.Unflagged? && armed == map[])
    case Open(_, _) => armed.Keys <= {ArchiveTimer}
    case Lapsed(_, _) => armed.Keys <= {ArchiveTimer}
    case _ => armed == map[]
  }

  predicate IsTimed(effect: Effect) {
    effect.SetTimer? || effect.CancelTimer?
  }

  lemma {:induction false} ArmNone(armed: Timers, effects: seq<Effect>)
    requires forall k :: 0 <= k < |effects| ==> !IsTimed(effects[k])
    ensures Arm(armed, effects) == armed
  {
    if effects != [] {
      ArmNone(armed, effects[..|effects| - 1]);
    }
  }

  lemma {:induction false} ArmOne(armed: Timers, effects: seq<Effect>, k: nat)
    requires k < |effects| && IsTimed(effects[k])
    requires forall j :: 0 <= j < |effects| && j != k ==> !IsTimed(effects[j])
    ensures Arm(armed, effects) == ArmBy(armed, effects[k])
  {
    var front := effects[..|effects| - 1];
    if k == |effects| - 1 {
      ArmNone(armed, front);
    } else {
      ArmOne(armed, front, k);
    }
  }

  function Window(timer: TimerKind, policy: Policy): Instant {
    match timer
    case HoldTimer => policy.amazonHold
    case PatienceTimer => policy.patienceWindow
    case ArchiveTimer => policy.archiveWindow
  }

  /** A step sets or cancels at most one timer. */
  lemma TimedOnce(txn: Transaction, step: Step, policy: Policy, j: nat, k: nat)
    requires var effects := Take(txn, step, policy).effects;
             j < k < |effects| && IsTimed(effects[k])
    ensures !IsTimed(Take(txn, step, policy).effects[j])
  {
  }

  /** Whatever a step arms, it arms for a full window from now. */
  lemma ArmedForAWindow(txn: Transaction, step: Step, policy: Policy, k: nat)
    requires var effects := Take(txn, step, policy).effects; k < |effects| && effects[k].SetTimer?
    ensures var effect := Take(txn, step, policy).effects[k];
            effect.deadline == step.now + Window(effect.timer, policy)
  {
  }

  lemma NotTimedToo(txn: Transaction, step: Step, policy: Policy, j: nat, k: nat)
    requires var effects := Take(txn, step, policy).effects;
             j < |effects| && k < |effects| && j != k && IsTimed(effects[k])
    ensures !IsTimed(Take(txn, step, policy).effects[j])
  {
    hide Take;
    if j < k {
      TimedOnce(txn, step, policy, j, k);
    } else if IsTimed(Take(txn, step, policy).effects[j]) {
      TimedOnce(txn, step, policy, k, j);
    }
  }

  lemma {:induction false} ArmNow(txn: Transaction, step: Step, policy: Policy, armed: Timers, k: nat)
    requires var effects := Take(txn, step, policy).effects; k < |effects| && IsTimed(effects[k])
    ensures var effects := Take(txn, step, policy).effects; Arm(armed, effects) == ArmBy(armed, effects[k])
  {
    hide Take;
    var effects := Take(txn, step, policy).effects;
    forall j | 0 <= j < |effects| && j != k ensures !IsTimed(effects[j]) {
      NotTimedToo(txn, step, policy, j, k);
    }
    ArmOne(armed, effects, k);
  }

  /** The first timer effect of at most three. */
  function TimerOf(effects: seq<Effect>): Option<Effect> {
    if |effects| > 0 && IsTimed(effects[0]) then Some(effects[0])
    else if |effects| > 1 && IsTimed(effects[1]) then Some(effects[1])
    else if |effects| > 2 && IsTimed(effects[2]) then Some(effects[2])
    else None
  }

  function Rearmed(before: Timers, effects: seq<Effect>): Timers {
    match TimerOf(effects)
    case Some(effect) => ArmBy(before, effect)
    case None => before
  }

  lemma AtMostThree(txn: Transaction, step: Step, policy: Policy)
    ensures |Take(txn, step, policy).effects| <= 3
  {
  }

  lemma {:induction false} ArmStep(txn: Transaction, step: Step, policy: Policy, armed: Timers)
    ensures var effects := Take(txn, step, policy).effects; Arm(armed, effects) == Rearmed(armed, effects)
  {
    hide Take;
    var effects := Take(txn, step, policy).effects;
    AtMostThree(txn, step, policy);
    if k :| 0 <= k < |effects| && IsTimed(effects[k]) {
      forall j | 0 <= j < |effects| && j != k ensures !IsTimed(effects[j]) {
        NotTimedToo(txn, step, policy, j, k);
      }
      ArmNow(txn, step, policy, armed, k);
    } else {
      ArmNone(armed, effects);
    }
  }

  lemma FitsArriving(txn: Transaction, step: Step, policy: Policy, armed: Timers)
    requires txn.Discovered? || txn.HoldAmazon? || txn.Enriching?
    requires Fits(txn, armed)
    ensures var t := Take(txn, step, policy); Fits(t.next, Rearmed(armed - Fires(step.event), t.effects))
  {
  }

  lemma FitsAwaiting(txn: Transaction, step: Step, policy: Policy, armed: Timers)
    requires txn.AwaitingHuman?
    requires Fits(txn, armed)
    ensures var t := Take(txn, step, policy); Fits(t.next, Rearmed(armed - Fires(step.event), t.effects))
  {
  }

  lemma FitsWritten(txn: Transaction, step: Step, policy: Policy, armed: Timers)
    requires InFlight(txn) || txn.Archived?
    requires Fits(txn, armed)
    ensures var t := Take(txn, step, policy); Fits(t.next, Rearmed(armed - Fires(step.event), t.effects))
  {
  }

  lemma FitsResting(txn: Transaction, step: Step, policy: Policy, armed: Timers)
    requires txn.Open? || txn.Lapsed?
    requires Fits(txn, armed)
    ensures var t := Take(txn, step, policy); Fits(t.next, Rearmed(armed - Fires(step.event), t.effects))
  {
  }

  lemma FitsRevising(txn: Transaction, step: Step, policy: Policy, armed: Timers)
    requires txn.Revising?
    requires Fits(txn, armed)
    ensures var t := Take(txn, step, policy); Fits(t.next, Rearmed(armed - Fires(step.event), t.effects))
  {
  }

  lemma {:induction false} FitsStep(txn: Transaction, step: Step, policy: Policy, armed: Timers)
    requires Fits(txn, armed)
    ensures var t := Take(txn, step, policy);
            Fits(t.next, Arm(armed - Fires(step.event), t.effects))
  {
    hide Take, Fits, Rearmed, Arm, Fires;
    var before := armed - Fires(step.event);
    ArmStep(txn, step, policy, before);
    match txn
    case AwaitingHuman(_, _, _, _) => FitsAwaiting(txn, step, policy, armed);
    case Open(_, _) => FitsResting(txn, step, policy, armed);
    case Lapsed(_, _) => FitsResting(txn, step, policy, armed);
    case Revising(_, _, _, _) => FitsRevising(txn, step, policy, armed);
    case AutoApplied(_, _) => FitsWritten(txn, step, policy, armed);
    case Applied(_, _) => FitsWritten(txn, step, policy, armed);
    case Archived(_, _) => FitsWritten(txn, step, policy, armed);
    case _ => FitsArriving(txn, step, policy, armed);
  }

  /** No stale timers: on every run the hold timer is armed exactly in the hold, for the
      deadline the hold records; the patience timer only while awaiting the owner, for the
      deadline recorded there, and always so when unflagged; the archive timer only in the
      two resting states; and no timer anywhere else. */
  lemma {:induction false} NoStaleTimers(start: Transaction, steps: seq<Step>, policy: Policy)
    requires Fits(start, map[])
    ensures Fits(After(start, steps, policy), Armed(start, steps, policy))
  {
    hide Take, Fits, Arm, Fires;
    if steps != [] {
      NoStaleTimers(start, steps[..|steps| - 1], policy);
      FitsStep(After(start, steps[..|steps| - 1], policy), steps[|steps| - 1], policy,
               Armed(start, steps[..|steps| - 1], policy));
    }
  }

  ghost predicate ArmedAt(steps: seq<Step>, timer: TimerKind, deadline: Instant, policy: Policy, i: int) {
    0 <= i < |steps| && deadline == steps[i].now + Window(timer, policy)
  }

  lemma {:induction false} ArmedByStep(
      txn: Transaction, step: Step, policy: Policy, armed: Timers, timer: TimerKind)
    requires timer in Arm(armed, Take(txn, step, policy).effects)
    ensures var deadline := Arm(armed, Take(txn, step, policy).effects)[timer];
            (timer in armed && armed[timer] == deadline) || deadline == step.now + Window(timer, policy)
  {
    hide Take, Arm;
    var effects := Take(txn, step, policy).effects;
    ArmStep(txn, step, policy, armed);
    if k :| 0 <= k < |effects| && effects[k] == SetTimer(timer, Arm(armed, effects)[timer]) {
      ArmedForAWindow(txn, step, policy, k);
    }
  }

  /** Over every run, an armed timer falls due a full window after some step of the run. */
  lemma {:induction false} DeadlinesAreWindows(start: Transaction, steps: seq<Step>, policy: Policy, timer: TimerKind)
    requires timer in Armed(start, steps, policy)
    ensures exists i :: ArmedAt(steps, timer, Armed(start, steps, policy)[timer], policy, i)
  {
    hide Take, Arm;
    var n, deadline := |steps| - 1, Armed(start, steps, policy)[timer];
    var before := Armed(start, steps[..n], policy);
    ArmedByStep(After(start, steps[..n], policy), steps[n], policy, before - Fires(steps[n].event), timer);
    if deadline == steps[n].now + Window(timer, policy) {
      assert ArmedAt(steps, timer, deadline, policy, n);
    } else {
      DeadlinesAreWindows(start, steps[..n], policy, timer);
      var i :| ArmedAt(steps[..n], timer, before[timer], policy, i);
      assert ArmedAt(steps, timer, deadline, policy, i);
    }
  }

  /** The windows in force: thirty-six hours of hold, a week of patience, thirty days until
      a transaction at rest is archived. */
  lemma {:induction false} DefaultWindows(start: Transaction, steps: seq<Step>, timer: TimerKind)
    requires timer in Armed(start, steps, DEFAULT_POLICY)
    ensures exists i :: 0 <= i < |steps| && Armed(start, steps, DEFAULT_POLICY)[timer] - steps[i].now ==
              match timer
              case HoldTimer => 36 * HOUR
              case PatienceTimer => 7 * 24 * HOUR
              case ArchiveTimer => 30 * 24 * HOUR
  {
    hide Armed;
    DeadlinesAreWindows(start, steps, DEFAULT_POLICY, timer);
    var i :| ArmedAt(steps, timer, Armed(start, steps, DEFAULT_POLICY)[timer], DEFAULT_POLICY, i);
  }

  // ---------- signals ----------

  function Replays(effects: seq<Effect>): seq<Signal> {
    if effects == [] then []
    else Replays(effects[..|effects| - 1])
         + if effects[|effects| - 1].ReplayBuffered? then effects[|effects| - 1].signals else []
  }

  lemma {:induction false} NoReplay(effects: seq<Effect>)
    requires forall k :: 0 <= k < |effects| ==> !effects[k].ReplayBuffered?
    ensures Replays(effects) == []
  {
    if effects != [] {
      NoReplay(effects[..|effects| - 1]);
    }
  }

  lemma {:induction false} LastReplays(effects: seq<Effect>)
    requires |effects| > 0 && effects[|effects| - 1].ReplayBuffered?
    requires forall k :: 0 <= k < |effects| - 1 ==> !effects[k].ReplayBuffered?
    ensures Replays(effects) == effects[|effects| - 1].signals
  {
    NoReplay(effects[..|effects| - 1]);
  }

  function Buffered(txn: Transaction): seq<Signal> {
    if txn.Discovered? then txn.pending else []
  }

  /** The inbound signal a step takes in, unless it reopens a resting transaction, whose
      new instruction it becomes. */
  function TakenIn(txn: Transaction, step: Step, policy: Policy): seq<Signal> {
    if step.event.InboundReceived? && Take(txn, step, policy).kind.Advanced? && !txn.Open? && !txn.Lapsed?
    then [step.event.signal] else []
  }

  lemma ReplayIsLast(txn: Transaction, step: Step, policy: Policy)
    ensures var effects := Take(txn, step, policy).effects;
            forall k :: 0 <= k < |effects| - 1 ==> !effects[k].ReplayBuffered?
  {
  }

  function LastSignals(effects: seq<Effect>): seq<Signal> {
    if effects != [] && effects[|effects| - 1].ReplayBuffered? then effects[|effects| - 1].signals else []
  }

  lemma {:induction false} ReplaysNow(txn: Transaction, step: Step, policy: Policy)
    ensures var effects := Take(txn, step, policy).effects; Replays(effects) == LastSignals(effects)
  {
    hide Take;
    var effects := Take(txn, step, policy).effects;
    ReplayIsLast(txn, step, policy);
    if effects != [] && effects[|effects| - 1].ReplayBuffered? {
      LastReplays(effects);
    } else {
      NoReplay(effects);
    }
  }

  lemma SignalBuffered(txn: Transaction, step: Step, policy: Policy)
    requires txn.Discovered?
    ensures var t := Take(txn, step, policy);
            LastSignals(t.effects) + Buffered(t.next) == txn.pending + TakenIn(txn, step, policy)
  {
  }

  lemma SignalReplayed(txn: Transaction, step: Step, policy: Policy)
    requires !txn.Discovered?
    ensures var t := Take(txn, step, policy);
            !t.next.Discovered? && LastSignals(t.effects) == TakenIn(txn, step, policy)
  {
  }

  /** A step replays what was buffered and what it takes in, or buffers it. */
  lemma SignalStep(txn: Transaction, step: Step, policy: Policy)
    ensures var t := Take(txn, step, policy);
            Replays(t.effects) + Buffered(t.next) == Buffered(txn) + TakenIn(txn, step, policy)
  {
    hide Take, Replays, LastSignals, TakenIn;
    ReplaysNow(txn, step, policy);
    if txn.Discovered? {
      SignalBuffered(txn, step, policy);
    } else {
      SignalReplayed(txn, step, policy);
    }
  }

  /** A signal to a resting transaction becomes the instruction of a revision. */
  lemma ReopensWith(txn: Transaction, step: Step, policy: Policy)
    requires (txn.Open? || txn.Lapsed?) && step.event.InboundReceived?
    ensures var t := Take(txn, step, policy);
            t.kind.Advanced? && t.next.Revising? && t.next.instruction == step.event.signal && Replays(t.effects) == []
  {
    assert Take(txn, step, policy).effects == [CancelTimer(ArchiveTimer)];
    NoReplay([CancelTimer(ArchiveTimer)]);
  }

  ghost function Replaying(start: Transaction, steps: seq<Step>, policy: Policy): seq<Signal> {
    if steps == [] then []
    else Replaying(start, steps[..|steps| - 1], policy) + Replays(LastOf(start, steps, policy).effects)
  }

  ghost function TakingIn(start: Transaction, steps: seq<Step>, policy: Policy): seq<Signal> {
    if steps == [] then []
    else TakingIn(start, steps[..|steps| - 1], policy)
         + TakenIn(After(start, steps[..|steps| - 1], policy), steps[|steps| - 1], policy)
  }

  /** Every signal taken in is replayed exactly once, in order of arrival, except those
      still buffered for want of a snapshot, which are the latest. */
  lemma {:induction false} ReplayedOnceInOrder(start: Transaction, steps: seq<Step>, policy: Policy)
    requires Buffered(start) == []
    ensures Replaying(start, steps, policy) + Buffered(After(start, steps, policy)) == TakingIn(start, steps, policy)
  {
    hide Take, TakenIn, Replays;
    if steps != [] {
      var front, step := steps[..|steps| - 1], steps[|steps| - 1];
      ReplayedOnceInOrder(start, front, policy);
      var txn := After(start, front, policy);
      SignalStep(txn, step, policy);
      var earlier, t := Replaying(start, front, policy), Take(txn, step, policy);
      assert earlier + Replays(t.effects) + Buffered(t.next)
          == earlier + (Buffered(txn) + TakenIn(txn, step, policy))
          == TakingIn(start, front, policy) + TakenIn(txn, step, policy);
    }
  }
}
