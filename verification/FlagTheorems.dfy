/** The flag for manual review. An uncertain transition always carries it; these
    theorems say exactly when a settled one does. */
module FlagTheorems {
  import opened Wrappers
  import opened Stages
  import opened Transactions
  import opened Protocol
  import opened ProtocolInvariant
  import opened LedgerTheorems
  import opened ExecutionTheorems
  import L = Ledger

  predicate Flagged(l: L.Ledger, t: Id) {
    t in l.transitions && l.transitions[t].needsReview
  }

  predicate Settled(l: L.Ledger, t: Id) {
    t in l.transitions && l.transitions[t].stage in {Succeeded, Failed}
  }

  predicate SettledAndFlagged(l: L.Ledger, t: Id) {
    Settled(l, t) && Flagged(l, t)
  }

  // ------------------------------------------------------------ a commit

  lemma SucceedKeepsFlagExactlyWhen(l: L.Ledger, t: Id, node: Id, summary: string, m: L.Ledger)
    requires Outcomes(l) && L.Succeed(l, t, node, summary) == Some(m)
    ensures StageOf(m, t) == Some(Succeeded) && (Flagged(m, t) <==> StageOf(l, t) == Some(Uncertain))
  {
    assert OutcomeFits(l.transitions[t]);
  }

  lemma CommitSucceeds(c: Config, db: Db, k: Commit, node: Id, edge: Id, s: Stamp, after: Db)
    requires Attempt(c, db, CommitTx(c, db, k, node, edge, s).value) == Some(after)
    ensures L.Succeed(db.ledger, k.t, node, k.description) == Some(after.ledger)
  {
  }

  /** In every reachable state a commit that goes through leaves the flag up
      exactly when the transition was uncertain before it. */
  lemma CommitLeavesFlagUpExactlyWhen(c: Config, steps: seq<Step>, k: Commit, node: Id, edge: Id, s: Stamp)
    requires Proper(c)
    ensures var db := Run(c, START, steps).db;
            forall after :: Attempt(c, db, CommitTx(c, db, k, node, edge, s).value) == Some(after) ==>
              && StageOf(after.ledger, k.t) == Some(Succeeded)
              && (Flagged(after.ledger, k.t) <==> StageOf(db.ledger, k.t) == Some(Uncertain))
  {
    ReachableIsSound(c, steps);
    CommitsKeepFlagExactlyWhen(c, Run(c, START, steps).db, k, node, edge, s);
  }

  lemma CommitsKeepFlagExactlyWhen(c: Config, db: Db, k: Commit, node: Id, edge: Id, s: Stamp)
    requires Outcomes(db.ledger)
    ensures forall after :: Attempt(c, db, CommitTx(c, db, k, node, edge, s).value) == Some(after) ==>
              && StageOf(after.ledger, k.t) == Some(Succeeded)
              && (Flagged(after.ledger, k.t) <==> StageOf(db.ledger, k.t) == Some(Uncertain))
  {
    forall after | Attempt(c, db, CommitTx(c, db, k, node, edge, s).value) == Some(after)
      ensures StageOf(after.ledger, k.t) == Some(Succeeded)
      ensures Flagged(after.ledger, k.t) <==> StageOf(db.ledger, k.t) == Some(Uncertain)
    {
      CommitSucceeds(c, db, k, node, edge, s, after);
      SucceedKeepsFlagExactlyWhen(db.ledger, k.t, node, k.description, after.ledger);
    }
  }

  // ------------------------------------------------------------ any operation

  lemma OperationLeavesFlagged(l: L.Ledger, op: L.Op, t: Id)
    requires Outcomes(l) && L.Disciplined(l, op) && L.Attempt(l, op).Some?
    ensures SettledAndFlagged(L.Perform(l, op), t) <==>
              || (op.Succeeding? && op.t == t && StageOf(l, t) == Some(Uncertain))
              || (op == L.Flagging(t, true) && Settled(l, t))
              || (SettledAndFlagged(l, t) && op != L.Flagging(t, false))
  {
    assert t in l.transitions ==> OutcomeFits(l.transitions[t]);
  }

  lemma OperationLowersFlag(l: L.Ledger, op: L.Op, t: Id)
    requires Outcomes(l) && Flagged(l, t) && L.Attempt(l, op).Some?
    ensures !Flagged(L.Perform(l, op), t) <==> op == L.Flagging(t, false) || op == L.FailingReviewed(t)
  {
    assert OutcomeFits(l.transitions[t]);
  }

  // ------------------------------------------------------------ any step

  /** A proxy or a reconciler commits the transition. */
  ghost predicate CommitsTo(c: Config, w: World, step: Step, t: Id) {
    && step.Go? && step.proc in w.procs && Commits(c, w.db, Plan(c, w, step))
    && var proc := w.procs[step.proc];
       || (step.move.CommitRun? && proc.Ready? && proc.commit.t == t)
       || (step.move.CommitReview? && proc.ReviewReady? && proc.commit.t == t)
  }

  /** A reconciler records that its commit failed. */
  ghost predicate GivesUp(c: Config, w: World, step: Step, t: Id) {
    && step.Go? && step.proc in w.procs && Commits(c, w.db, Plan(c, w, step))
    && step.move.GiveUpReview? && w.procs[step.proc].ReviewLost? && w.procs[step.proc].commit.t == t
  }

  /** A reconciler whose commit went through concludes. */
  ghost predicate Finishes(c: Config, w: World, step: Step, t: Id) {
    && step.Go? && step.proc in w.procs && Commits(c, w.db, Plan(c, w, step))
    && step.move.FinishReview? && w.procs[step.proc].ReviewDone? && w.procs[step.proc].commit.t == t
  }

  /** A reconciler settles the transition as failed. */
  ghost predicate FindsFailed(c: Config, w: World, step: Step, t: Id) {
    && step.Go? && step.proc in w.procs && Commits(c, w.db, Plan(c, w, step))
    && step.move.FailReview? && w.procs[step.proc].Reviewing? && w.procs[step.proc].t == t
  }

  /** Which steps carry the operations that matter to the flag. */
  ghost predicate OpFits(proc: Proc, move: Move, op: L.Op) {
    && (op.Succeeding? <==> (move.CommitRun? && proc.Ready?) || (move.CommitReview? && proc.ReviewReady?))
    && (op.Succeeding? ==> op.t == proc.commit.t)
    && (op.Flagging? && op.flag <==> move.GiveUpReview? && proc.ReviewLost?)
    && (op.Flagging? && !op.flag <==> move.FinishReview? && proc.ReviewDone?)
    && (op.Flagging? ==> op.t == proc.commit.t)
    && (op.FailingReviewed? <==> move.FailReview? && proc.Reviewing?)
    && (op.FailingReviewed? ==> op.t == proc.t)
  }

  lemma MoveOpFits(c: Config, db: Db, proc: Proc, move: Move, tx: Tx)
    requires MoveTx(c, db, proc, move) == Some(tx)
    ensures OpFits(proc, move, tx.ledger)
  {
  }

  lemma CallOpsDoNotFlag(c: Config, db: Db, call: Call, tx: Tx)
    requires CallTx(c, db, call) == Some(tx)
    ensures !tx.ledger.Succeeding? && !tx.ledger.Flagging? && !tx.ledger.FailingReviewed?
  {
  }

  /** The operation of a step's committed transaction, named by the step. */
  lemma StepOps(c: Config, w: World, step: Step, op: L.Op, t: Id)
    requires Commits(c, w.db, Plan(c, w, step)) && op == Plan(c, w, step).value.ledger
    ensures op.Succeeding? && op.t == t <==> CommitsTo(c, w, step, t)
    ensures op == L.Flagging(t, true) <==> GivesUp(c, w, step, t)
    ensures op == L.Flagging(t, false) <==> Finishes(c, w, step, t)
    ensures op == L.FailingReviewed(t) <==> FindsFailed(c, w, step, t)
  {
    var tx := Plan(c, w, step).value;
    match step
    case Ask(call) => CallOpsDoNotFlag(c, w.db, call, tx);
    case Execute(_, _) =>
    case Go(p, move) => MoveOpFits(c, w.db, w.procs[p], move, tx);
  }

  /** Exactly after which steps a settled transition carries the flag: a commit
      of an uncertain one, a reconciler giving up after somebody else settled it,
      and any step but a conclusion of its reconciliation if it carried the flag
      before. */
  lemma SettledIsFlaggedExactlyAfter(c: Config, w: World, step: Step, t: Id)
    requires Proper(c) && Inv(c, w)
    ensures SettledAndFlagged(Apply(c, w, step).db.ledger, t) <==>
              || (CommitsTo(c, w, step, t) && StageOf(w.db.ledger, t) == Some(Uncertain))
              || (GivesUp(c, w, step, t) && Settled(w.db.ledger, t))
              || (SettledAndFlagged(w.db.ledger, t) && !Finishes(c, w, step, t))
  {
    var tx := Plan(c, w, step);
    if Commits(c, w.db, tx) {
      PlanIsSafe(c, w, step);
      StepOps(c, w, step, tx.value.ledger, t);
      OperationLeavesFlagged(w.db.ledger, tx.value.ledger, t);
    }
  }

  /** Only the end of a reconciliation of that transition lowers its flag, and
      each such end does. */
  lemma FlagIsLoweredExactlyBy(c: Config, w: World, step: Step, t: Id)
    requires Proper(c) && Inv(c, w) && Flagged(w.db.ledger, t)
    ensures !Flagged(Apply(c, w, step).db.ledger, t) <==> Finishes(c, w, step, t) || FindsFailed(c, w, step, t)
  {
    var tx := Plan(c, w, step);
    if Commits(c, w.db, tx) {
      StepOps(c, w, step, tx.value.ledger, t);
      OperationLowersFlag(w.db.ledger, tx.value.ledger, t);
    }
  }

  /** The transition that a reconciler still works on. */
  function UnderReview(p: Proc): Option<Id> {
    match p
    case Reviewing(t, _, _, _, _) => Some(t)
    case ReviewReady(k, _) => Some(k.t)
    case ReviewLost(k) => Some(k.t)
    case _ => None
  }

  ghost predicate InReviewableStage(l: L.Ledger, t: Id) {
    t in l.transitions && Reviewable(l.transitions[t].stage)
  }

  lemma ProcReviewsReviewable(l: L.Ledger, p: Proc)
    requires ProcFits(l, p) && UnderReview(p).Some?
    ensures InReviewableStage(l, UnderReview(p).value)
  {
  }

  /** In every reachable state a flagged transition is uncertain, succeeded or
      failed, and so is every transition that a reconciler still works on. */
  lemma FlagMeansReviewable(c: Config, steps: seq<Step>, t: Id, p: Id)
    requires Proper(c)
    ensures var w := Run(c, START, steps);
            && (Flagged(w.db.ledger, t) ==> InReviewableStage(w.db.ledger, t))
            && (p in w.procs && UnderReview(w.procs[p]).Some? ==>
                  InReviewableStage(w.db.ledger, UnderReview(w.procs[p]).value))
  {
    ReachableIsSound(c, steps);
    var w := Run(c, START, steps);
    assert t in w.db.ledger.transitions ==> OutcomeFits(w.db.ledger.transitions[t]);
    if p in w.procs && UnderReview(w.procs[p]).Some? {
      ProcReviewsReviewable(w.db.ledger, w.procs[p]);
    }
  }
}
