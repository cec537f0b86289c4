/** Exactly when each call goes through, and the one change it then makes. */
module CallTheorems {
  import opened Wrappers
  import opened JsonText
  import opened Stages
  import opened Tokens
  import opened Audit
  import opened Canonical
  import opened Transactions
  import opened Protocol
  import opened LedgerTheorems
  import G = Graph
  import L = Ledger

  // ------------------------------------------------------------ events

  /** One event was appended to the log of the branch's lattice, stamped, in the
      name of the actor, with exactly these fields in its stored payload. */
  ghost predicate Wrote(before: Db, after: Db, branch: Id, kind: string, fields: map<string, Json>, actor: Id, s: Stamp)
    requires branch in before.graph.branches
  {
    var l := before.graph.branches[branch].lattice;
    exists row ::
      && after.audit.events == before.audit.events[l := EventsOf(before.audit, l) + [row]]
      && row.id == s.id && row.eventType == kind && row.dataText == Dump(Obj(fields))
      && row.actor == actor && row.caller == actor && row.createdAt == s.at
  }

  lemma Written(c: Config, before: Db, after: Db, branch: Id, kind: string, fields: map<string, Json>, actor: Id, s: Stamp)
    requires branch in before.graph.branches
    requires Record(c, before.audit, BranchEvent(before.graph, branch, kind, actor, fields, s)) == Some(after.audit)
    ensures Wrote(before, after, branch, kind, fields, actor, s)
  {
    var w := BranchEvent(before.graph, branch, kind, actor, fields, s).write;
    var row := NewRow(c.hash, c.writer, w.lattice, before.audit.heads[w.lattice], w.draft);
    assert after.audit.events == before.audit.events[w.lattice := EventsOf(before.audit, w.lattice) + [row]];
  }

  lemma Parts(c: Config, db: Db, op: L.Op, entry: LogEntry)
    ensures var tx := Some(Tx(G.Keep, op, entry));
            Commits(c, db, tx) ==> Record(c, db.audit, entry) == Some(Perform(c, db, tx).audit)
  {
  }

  /** What the event of an approval says. */
  lemma ApprovalIsWritten(c: Config, db: Db, t: Id, approver: Id, approverType: string, reason: string, s: Stamp)
    requires t in db.ledger.transitions && db.ledger.transitions[t].branch in db.graph.branches
    requires Commits(c, db, ApproveTx(db, t, approver, approverType, reason, s))
    ensures Wrote(db, Perform(c, db, ApproveTx(db, t, approver, approverType, reason, s)), db.ledger.transitions[t].branch,
              "transition.approved",
              map["transition_id" := Str(t), "approver_id" := Str(approver), "approver_type" := Str(approverType),
                  "reason" := Str(reason)], approver, s)
  {
    var tx := ApproveTx(db, t, approver, approverType, reason, s);
    Parts(c, db, tx.value.ledger, tx.value.entry);
    Written(c, db, Perform(c, db, tx), db.ledger.transitions[t].branch, "transition.approved",
      map["transition_id" := Str(t), "approver_id" := Str(approver), "approver_type" := Str(approverType),
          "reason" := Str(reason)], approver, s);
  }

  /** What the event of a denial says. */
  lemma DenialIsWritten(c: Config, db: Db, t: Id, approver: Id, reason: string, s: Stamp)
    requires t in db.ledger.transitions && db.ledger.transitions[t].branch in db.graph.branches
    requires Commits(c, db, DenyTx(db, t, approver, reason, s))
    ensures Wrote(db, Perform(c, db, DenyTx(db, t, approver, reason, s)), db.ledger.transitions[t].branch,
              "transition.denied_approval",
              map["transition_id" := Str(t), "approver_id" := Str(approver), "reason" := Str(reason)], approver, s)
  {
    var tx := DenyTx(db, t, approver, reason, s);
    Parts(c, db, tx.value.ledger, tx.value.entry);
    Written(c, db, Perform(c, db, tx), db.ledger.transitions[t].branch, "transition.denied_approval",
      map["transition_id" := Str(t), "approver_id" := Str(approver), "reason" := Str(reason)], approver, s);
  }

  /** What the event of a cancellation says. */
  lemma CancellationIsWritten(c: Config, db: Db, t: Id, agent: Id, administrator: bool, s: Stamp)
    requires t in db.ledger.transitions && db.ledger.transitions[t].branch in db.graph.branches
    requires Commits(c, db, CancelTx(db, t, agent, administrator, s))
    ensures Wrote(db, Perform(c, db, CancelTx(db, t, agent, administrator, s)), db.ledger.transitions[t].branch,
              "transition.cancelled", map["transition_id" := Str(t), "agent_id" := Str(agent)], agent, s)
  {
    var tx := CancelTx(db, t, agent, administrator, s);
    Parts(c, db, tx.value.ledger, tx.value.entry);
    Written(c, db, Perform(c, db, tx), db.ledger.transitions[t].branch, "transition.cancelled",
      map["transition_id" := Str(t), "agent_id" := Str(agent)], agent, s);
  }

  /** What the event of a proposal says. */
  lemma ProposalIsWritten(c: Config, db: Db, p: Propose, s: Stamp)
    requires Commits(c, db, ProposeTx(c, db, p, s))
    ensures p.proposal.branch in db.graph.branches
    ensures p.proposal.id in Perform(c, db, ProposeTx(c, db, p, s)).ledger.transitions
    ensures var after := Perform(c, db, ProposeTx(c, db, p, s));
            var (result, reason) := match after.ledger.transitions[p.proposal.id].stage
              case Denied => ("denied", "policy_deny")
              case PendingApproval => ("pending_approval", "requires_approval")
              case _ => ("admissible", "policy_allow");
            exists kind :: Wrote(db, after, p.proposal.branch, kind, map["transition_id" := Str(p.proposal.id),
              "tool" := Str(p.tool), "action" := Str(p.action.kind), "verification_result" := Str(result),
              "reason" := Str(reason)], p.proposal.agent, s)
  {
    var tx := ProposeTx(c, db, p, s);
    var (kind, result, reason) := VerdictText(VerdictFor(db.graph, p));
    Parts(c, db, tx.value.ledger, tx.value.entry);
    Written(c, db, Perform(c, db, tx), p.proposal.branch, kind, map["transition_id" := Str(p.proposal.id),
      "tool" := Str(p.tool), "action" := Str(p.action.kind), "verification_result" := Str(result),
      "reason" := Str(reason)], p.proposal.agent, s);
  }

  /** What the event of an outcome says, in the name of the transition's agent. */
  lemma OutcomeIsWritten(c: Config, db: Db, t: Id, failed: bool, summary: string, s: Stamp)
    requires t in db.ledger.transitions && db.ledger.transitions[t].branch in db.graph.branches
    requires Commits(c, db, OutcomeTx(db, t, failed, summary, s))
    ensures var row, after := db.ledger.transitions[t], Perform(c, db, OutcomeTx(db, t, failed, summary, s));
            if failed then
              Wrote(db, after, row.branch, "transition.failed",
                map["transition_id" := Str(t), "exit_status" := Str("failure"), "result_summary" := Str(summary)],
                row.agent, s)
            else
              Wrote(db, after, row.branch, "transition.execution_uncertain",
                map["transition_id" := Str(t), "exit_status" := Str("timeout"), "result_summary" := Str(summary),
                    "requires_manual_reconciliation" := Bool(true)], row.agent, s)
  {
    var row, tx := db.ledger.transitions[t], OutcomeTx(db, t, failed, summary, s);
    Parts(c, db, tx.value.ledger, tx.value.entry);
    var fields := tx.value.entry.write.draft.data.fields;
    Written(c, db, Perform(c, db, tx), row.branch,
      if failed then "transition.failed" else "transition.execution_uncertain", fields, row.agent, s);
  }

  /** One event of a commit was appended to the log that it names, called in by the
      service. */
  ghost predicate CommitWritten(c: Config, before: AuditLog, after: AuditLog, k: Commit, fields: map<string, Json>, s: Stamp) {
    exists row ::
      && after.events == before.events[k.lattice := EventsOf(before, k.lattice) + [row]]
      && row.id == s.id && row.eventType == "branch_committed" && row.dataText == Dump(Obj(fields))
      && row.actor == k.agent && row.caller == c.writer && row.writer == c.writer && row.createdAt == s.at
  }

  /** The text to be stored of a commit's event. */
  function CommitFields(k: Commit, head: Option<Id>, node: Id): map<string, Json> {
    map["transition_id" := Str(k.t), "branch_id" := Str(k.branch), "new_node_id" := Str(node),
        "old_head_id" := if head.Some? then Str(head.value) else Null, "new_version" := Int(k.expectedVersion + 1)]
  }

  lemma CommitDraft(c: Config, k: Commit, head: Option<Id>, node: Id, s: Stamp)
    ensures CommitWrite(c, k, head, node, s)
         == Write(k.lattice, Draft(s.id, "branch_committed", Obj(CommitFields(k, head, node)), k.agent, c.writer, s.at))
  {
  }

  lemma CommitWrites(c: Config, before: AuditLog, after: AuditLog, k: Commit, fields: map<string, Json>, w: Write, s: Stamp)
    requires w == Write(k.lattice, Draft(s.id, "branch_committed", Obj(fields), k.agent, c.writer, s.at))
    requires WriteEvent(c, before, w) == Some(after)
    ensures CommitWritten(c, before, after, k, fields, s)
  {
    var row := NewRow(c.hash, c.writer, w.lattice, before.heads[w.lattice], w.draft);
    assert after.events == before.events[k.lattice := EventsOf(before, k.lattice) + [row]];
  }

  lemma CommitRecords(c: Config, db: Db, k: Commit, node: Id, edge: Id, s: Stamp, after: Db)
    requires k.branch in db.graph.branches
    requires Attempt(c, db, CommitTx(c, db, k, node, edge, s).value) == Some(after)
    ensures WriteEvent(c, db.audit, CommitWrite(c, k, db.graph.branches[k.branch].head, node, s)) == Some(after.audit)
  {
  }

  /** What the event of a commit says, in the name of the transition's agent. */
  lemma CommitIsWritten(c: Config, db: Db, k: Commit, node: Id, edge: Id, s: Stamp)
    requires k.branch in db.graph.branches && Commits(c, db, CommitTx(c, db, k, node, edge, s))
    ensures var after, head := Perform(c, db, CommitTx(c, db, k, node, edge, s)), db.graph.branches[k.branch].head;
            CommitWritten(c, db.audit, after.audit, k, CommitFields(k, head, node), s)
  {
    var after, head := Perform(c, db, CommitTx(c, db, k, node, edge, s)), db.graph.branches[k.branch].head;
    CommitRecords(c, db, k, node, edge, s, after);
    CommitDraft(c, k, head, node, s);
    CommitWrites(c, db.audit, after.audit, k, CommitFields(k, head, node), CommitWrite(c, k, head, node, s), s);
  }

  /** What the events of a review say. */
  lemma ReviewIsWritten(c: Config, db: Db, k: Commit, t: Id, branch: Id, agent: Id, summary: string, s: Stamp)
    requires k.branch in db.graph.branches && branch in db.graph.branches
    ensures var done, lost := ReviewDoneTx(db, k, summary, s), ReviewLostTx(db, k, s);
            && (Commits(c, db, done) ==> Wrote(db, Perform(c, db, done), k.branch, "transition.reconciled",
                  map["transition_id" := Str(k.t), "final_status" := Str("succeeded"), "result_summary" := Str(summary),
                      "requires_manual_reconciliation" := Bool(false)], k.agent, s))
            && (Commits(c, db, lost) ==> Wrote(db, Perform(c, db, lost), k.branch, "transition.reconcile_commit_failed",
                  map["transition_id" := Str(k.t), "final_status" := Str("succeeded"),
                      "requires_manual_reconciliation" := Bool(true)], k.agent, s))
    ensures var failed := ReviewFailedTx(db, t, branch, agent, summary, s);
            Commits(c, db, failed) ==> Wrote(db, Perform(c, db, failed), branch, "transition.reconciled",
              map["transition_id" := Str(t), "final_status" := Str("failed"), "result_summary" := Str(summary),
                  "requires_manual_reconciliation" := Bool(false)], agent, s)
  {
    var done, lost := ReviewDoneTx(db, k, summary, s), ReviewLostTx(db, k, s);
    var failed := ReviewFailedTx(db, t, branch, agent, summary, s);
    Parts(c, db, done.value.ledger, done.value.entry);
    Parts(c, db, lost.value.ledger, lost.value.entry);
    Parts(c, db, failed.value.ledger, failed.value.entry);
    if Commits(c, db, done) {
      Written(c, db, Perform(c, db, done), k.branch, "transition.reconciled", done.value.entry.write.draft.data.fields, k.agent, s);
    }
    if Commits(c, db, lost) {
      Written(c, db, Perform(c, db, lost), k.branch, "transition.reconcile_commit_failed",
        lost.value.entry.write.draft.data.fields, k.agent, s);
    }
    if Commits(c, db, failed) {
      Written(c, db, Perform(c, db, failed), branch, "transition.reconciled", failed.value.entry.write.draft.data.fields, agent, s);
    }
  }

  // ------------------------------------------------------------ decisions

  /** The transition is in a branch of a lattice that has a log. */
  ghost predicate Recordable(db: Db, t: Id) {
    && t in db.ledger.transitions && db.ledger.transitions[t].branch in db.graph.branches
    && db.graph.branches[db.ledger.transitions[t].branch].lattice in db.audit.heads
  }

  ghost predicate BranchesKnown(db: Db) {
    forall t :: t in db.ledger.transitions ==> db.ledger.transitions[t].branch in db.graph.branches
  }

  /** The pending request of the transition is decided, and its stage is changed;
      nothing else is. */
  ghost predicate Decided(l: L.Ledger, m: L.Ledger, t: Id, decider: Id, status: L.RequestStatus, stage: Stage)
    requires t in l.transitions
  {
    && m.transitions == l.transitions[t := l.transitions[t].(stage := stage)]
    && m.order == l.order && m.authorizations == l.authorizations
    && exists i :: 0 <= i < |l.requests| && l.requests[i].transition == t && l.requests[i].status == L.Pending
         && m.requests == l.requests[i := L.Request(t, l.requests[i].requestedBy, status, Some(decider))]
  }

  lemma DecideExactly(l: L.Ledger, t: Id, decider: Id, approve: bool)
    requires Approvals(l)
    ensures L.Decide(l, t, decider, approve).Some? <==>
              StageOf(l, t) == Some(PendingApproval) && decider != l.transitions[t].agent
    ensures L.Decide(l, t, decider, approve).Some? ==>
              Decided(l, L.Decide(l, t, decider, approve).value, t, decider, if approve then L.Approved else L.Refused,
                      if approve then Authorized else Denied)
  {
    if t in l.transitions {
      ApprovalsMean(l, t);
    }
    L.PendingRequestIsPending(l.requests, t);
  }

  /** An approval goes through exactly if the transition waits, is not the
      approver's own, and the approver is no agent. */
  lemma ApprovalGoesThroughExactlyWhen(c: Config, db: Db, t: Id, approver: Id, approverType: string, reason: string, s: Stamp)
    requires Approvals(db.ledger) && BranchesKnown(db)
    ensures var tx := ApproveTx(db, t, approver, approverType, reason, s);
            && (Commits(c, db, tx) <==>
                  && StageOf(db.ledger, t) == Some(PendingApproval) && approver != db.ledger.transitions[t].agent
                  && approverType != "agent" && Recordable(db, t))
            && (Commits(c, db, tx) ==> Decided(db.ledger, Perform(c, db, tx).ledger, t, approver, L.Approved, Authorized))
  {
    DecideExactly(db.ledger, t, approver, true);
  }

  /** A denial goes through exactly if the transition waits and is not the
      decider's own. */
  lemma DenialGoesThroughExactlyWhen(c: Config, db: Db, t: Id, approver: Id, reason: string, s: Stamp)
    requires Approvals(db.ledger) && BranchesKnown(db)
    ensures var tx := DenyTx(db, t, approver, reason, s);
            && (Commits(c, db, tx) <==>
                  && StageOf(db.ledger, t) == Some(PendingApproval) && approver != db.ledger.transitions[t].agent
                  && Recordable(db, t))
            && (Commits(c, db, tx) ==> Decided(db.ledger, Perform(c, db, tx).ledger, t, approver, L.Refused, Denied))
  {
    DecideExactly(db.ledger, t, approver, false);
  }

  /** A change to the ledger that writes an event. */
  lemma RecordedChange(c: Config, db: Db, op: L.Op, entry: LogEntry)
    requires entry.Event?
    ensures var tx := Some(Tx(G.Keep, op, entry));
            && (Commits(c, db, tx) <==> L.Attempt(db.ledger, op).Some? && entry.write.lattice in db.audit.heads)
            && (Commits(c, db, tx) ==> L.Attempt(db.ledger, op) == Some(Perform(c, db, tx).ledger))
  {
  }

  // ------------------------------------------------------------ withdrawal

  /** One row is changed and nothing else. */
  ghost predicate RowSet(l: L.Ledger, m: L.Ledger, t: Id, row: L.Transition) {
    m == L.Ledger(l.transitions[t := row], l.order, l.requests, l.authorizations)
  }

  lemma WithdrawalIsMade(l: L.Ledger, t: Id, to: Stage)
    requires to in {Stage.Cancelled, Expired}
    ensures var m := L.Attempt(l, L.Withdrawing(t, to));
            && (m.Some? <==>
                  || StageOf(l, t) in {Some(PendingApproval), Some(Authorized)}
                  || (StageOf(l, t) == Some(Proposed) && to == Stage.Cancelled))
            && (m.Some? ==> RowSet(l, m.value, t, l.transitions[t].(stage := to)))
  {
  }

  /** A cancellation goes through exactly before the transition starts, and for its
      agent or an administrator. */
  lemma CancellationGoesThroughExactlyWhen(c: Config, db: Db, t: Id, agent: Id, administrator: bool, s: Stamp)
    requires BranchesKnown(db)
    ensures var tx := CancelTx(db, t, agent, administrator, s);
            && (Commits(c, db, tx) <==>
                  && StageOf(db.ledger, t) in {Some(Proposed), Some(PendingApproval), Some(Authorized)}
                  && (agent == db.ledger.transitions[t].agent || administrator) && Recordable(db, t))
            && (Commits(c, db, tx) ==>
                  RowSet(db.ledger, Perform(c, db, tx).ledger, t, db.ledger.transitions[t].(stage := Stage.Cancelled)))
  {
    WithdrawalIsMade(db.ledger, t, Stage.Cancelled);
    var tx := CancelTx(db, t, agent, administrator, s);
    if tx.Some? {
      RecordedChange(c, db, L.Withdrawing(t, Stage.Cancelled), tx.value.entry);
    }
  }

  /** An expiry goes through exactly while the transition waits or is authorized. */
  lemma ExpiryGoesThroughExactlyWhen(c: Config, db: Db, t: Id)
    ensures Commits(c, db, ExpireTx(t)) <==> StageOf(db.ledger, t) in {Some(PendingApproval), Some(Authorized)}
    ensures Commits(c, db, ExpireTx(t)) ==>
              RowSet(db.ledger, Perform(c, db, ExpireTx(t)).ledger, t, db.ledger.transitions[t].(stage := Expired))
  {
  }

  // ------------------------------------------------------------ outcomes

  /** The row after a failure or an unknown outcome. */
  function Outcome(row: L.Transition, failed: bool, summary: string): L.Transition {
    L.Transition(row.branch, row.agent, row.key, row.expectedHead, row.expectedVersion,
      if failed then Failed else Uncertain, Some(if failed then L.Failure else L.Timeout), Some(summary), None,
      if failed then row.needsReview else true)
  }

  lemma OutcomeIsRecorded(l: L.Ledger, t: Id, failed: bool, summary: string)
    ensures var m := L.Attempt(l, L.Recording(t, failed, summary));
            && (m.Some? <==> StageOf(l, t) == Some(Executing))
            && (m.Some? ==> RowSet(l, m.value, t, Outcome(l.transitions[t], failed, summary)))
  {
  }

  /** A failure or an unknown outcome is recorded exactly while the transition is
      executing. */
  lemma OutcomeGoesThroughExactlyWhen(c: Config, db: Db, t: Id, failed: bool, summary: string, s: Stamp)
    requires BranchesKnown(db)
    ensures var tx := OutcomeTx(db, t, failed, summary, s);
            && (Commits(c, db, tx) <==> StageOf(db.ledger, t) == Some(Executing) && Recordable(db, t))
            && (Commits(c, db, tx) ==>
                  RowSet(db.ledger, Perform(c, db, tx).ledger, t, Outcome(db.ledger.transitions[t], failed, summary)))
  {
    OutcomeIsRecorded(db.ledger, t, failed, summary);
    if t in db.ledger.transitions {
      RecordedChange(c, db, L.Recording(t, failed, summary), OutcomeTx(db, t, failed, summary, s).value.entry);
    }
  }

  lemma FailureIsRecorded(l: L.Ledger, t: Id)
    ensures var m := L.Attempt(l, L.FailingReviewed(t));
            && (m.Some? <==> StageOf(l, t) in {Some(Executing), Some(Uncertain)})
            && (m.Some? ==> RowSet(l, m.value, t, l.transitions[t].(stage := Failed, needsReview := false)))
  {
    if t in l.transitions {
      var row := l.transitions[t];
      assert l.transitions[t := row.(stage := Failed)][t := row.(stage := Failed, needsReview := false)]
          == l.transitions[t := row.(stage := Failed, needsReview := false)];
    }
  }

  /** A reconciler settles a transition as failed exactly while it is executing or
      uncertain. */
  lemma FailingReviewGoesThroughExactlyWhen(c: Config, db: Db, t: Id, branch: Id, agent: Id, summary: string, s: Stamp)
    requires branch in db.graph.branches
    ensures var tx := ReviewFailedTx(db, t, branch, agent, summary, s);
            && (Commits(c, db, tx) <==>
                  && StageOf(db.ledger, t) in {Some(Executing), Some(Uncertain)}
                  && db.graph.branches[branch].lattice in db.audit.heads)
            && (Commits(c, db, tx) ==>
                  RowSet(db.ledger, Perform(c, db, tx).ledger, t,
                    db.ledger.transitions[t].(stage := Failed, needsReview := false)))
  {
    FailureIsRecorded(db.ledger, t);
    RecordedChange(c, db, L.FailingReviewed(t), ReviewFailedTx(db, t, branch, agent, summary, s).value.entry);
  }

  /** The end of a review by a commit changes the flag of its transition and
      nothing else in the ledger. */
  lemma ConcludingReviewFlags(c: Config, db: Db, k: Commit, summary: string, s: Stamp)
    requires k.t in db.ledger.transitions && k.branch in db.graph.branches
    ensures var done, lost := ReviewDoneTx(db, k, summary, s), ReviewLostTx(db, k, s);
            && (Commits(c, db, done) <==> db.graph.branches[k.branch].lattice in db.audit.heads)
            && (Commits(c, db, lost) <==> db.graph.branches[k.branch].lattice in db.audit.heads)
            && (Commits(c, db, done) ==>
                  RowSet(db.ledger, Perform(c, db, done).ledger, k.t, db.ledger.transitions[k.t].(needsReview := false)))
            && (Commits(c, db, lost) ==>
                  RowSet(db.ledger, Perform(c, db, lost).ledger, k.t, db.ledger.transitions[k.t].(needsReview := true)))
  {
    RecordedChange(c, db, L.Flagging(k.t, false), ReviewDoneTx(db, k, summary, s).value.entry);
    RecordedChange(c, db, L.Flagging(k.t, true), ReviewLostTx(db, k, s).value.entry);
  }

  // ------------------------------------------------------------ tokens

  /** A token is issued exactly if its branch and transition are there and its id
      is new; what is stored is the token with the hash of its policy versions,
      unused, under the hash of its text. */
  lemma IssueGoesThroughExactlyWhen(c: Config, db: Db, t: Token)
    ensures Commits(c, db, IssueTx(c, db, t)) <==>
              && t.branch in db.graph.branches && t.transition in db.ledger.transitions
              && t.authorization !in db.ledger.authorizations
    ensures Commits(c, db, IssueTx(c, db, t)) ==>
              var l, token := db.ledger, t.(policySetHash := c.seal(t.versions));
              Perform(c, db, IssueTx(c, db, t)).ledger == L.Ledger(l.transitions, l.order, l.requests,
                l.authorizations[t.authorization := L.Authorization(token, c.hash(c.codec.write(token)), false)])
  {
  }

  /** A claim spends one authorization and starts one transition. */
  lemma ClaimChanges(c: Config, db: Db, p: Presented)
    requires Commits(c, db, ClaimTx(c, db, p))
    ensures VerifyToken(c.codec, p.text, p.now).Some?
    ensures var auth := VerifyToken(c.codec, p.text, p.now).value.authorization;
            && auth in db.ledger.authorizations && !db.ledger.authorizations[auth].used
            && var l, row := db.ledger, db.ledger.authorizations[auth];
               var t := row.token.transition;
               && StageOf(l, t) == Some(Authorized)
               && Perform(c, db, ClaimTx(c, db, p)).ledger == L.Ledger(
                    l.transitions[t := l.transitions[t].(stage := Executing)], l.order, l.requests,
                    l.authorizations[auth := L.Authorization(row.token, row.tokenHash, true)])
  {
  }

  // ------------------------------------------------------------ projects

  /** A project is created exactly if it has no lattice yet and the ids are new: a
      lattice with one branch without a head, at version 1, and no log. */
  lemma ProjectIsCreatedExactlyWhen(c: Config, db: Db, project: Id, lattice: Id, branch: Id, s: Stamp)
    ensures var tx, g := CallTx(c, db, CreateProject(project, lattice, branch)), db.graph;
            && (Commits(c, db, tx) <==>
                  && (forall l :: l in g.lattices ==> l != lattice && g.lattices[l] != project) && branch !in g.branches)
            && (Commits(c, db, tx) ==>
                  Perform(c, db, tx) == db.(graph := G.Graph(g.lattices[lattice := project],
                    g.branches[branch := G.Branch(lattice, None, 1)], g.nodes, g.order, g.edges)))
  {
  }

  /** A branch is created exactly if its lattice is there and its id is new. It
      starts at the head of the branch it is made from, if that is one of the same
      lattice, and otherwise at nothing. */
  lemma BranchIsCreatedExactlyWhen(c: Config, db: Db, branch: Id, lattice: Id, from: Option<Id>)
    ensures var tx, g := CallTx(c, db, CreateBranch(branch, lattice, from)), db.graph;
            && (Commits(c, db, tx) <==> lattice in g.lattices && branch !in g.branches)
            && (Commits(c, db, tx) ==>
                  var sibling := from.Some? && from.value in g.branches && g.branches[from.value].lattice == lattice;
                  Perform(c, db, tx) == db.(graph := g.(branches := g.branches[branch :=
                    G.Branch(lattice, if sibling then g.branches[from.value].head else None, 1)])))
  {
  }

  /** A log starts at number zero and sixty-four zeros, and is never started anew. */
  lemma LogIsOpenedOnce(c: Config, db: Db, lattice: Id)
    ensures var after := Perform(c, db, CallTx(c, db, InitAudit(lattice)));
            if lattice !in db.graph.lattices || lattice in db.audit.heads then after == db
            else
              && after.audit == AuditLog(db.audit.heads[lattice := Head(0, GENESIS)], db.audit.events[lattice := []])
              && |GENESIS| == 64 && (forall i :: 0 <= i < 64 ==> GENESIS[i] == '0')
              && after.graph == db.graph && after.ledger == db.ledger
  {
  }
}
