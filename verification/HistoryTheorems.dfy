/** What holds in every run about what was realised: the node graph, the
    append-only history it stands for, and the audit logs. */
module HistoryTheorems {
  import opened Wrappers
  import opened JsonText
  import opened Audit
  import opened Stages
  import opened Lineage
  import opened Transactions
  import opened Protocol
  import opened ProtocolInvariant
  import opened LedgerTheorems
  import opened ExecutionTheorems
  import opened CallTheorems
  import G = Graph
  import L = Ledger

  // ------------------------------------------------------------ refinement

  /** What a step does to the graph, if its transaction commits. */
  function GraphOp(c: Config, w: World, step: Step): G.Op {
    var tx := Plan(c, w, step);
    if Commits(c, w.db, tx) then tx.value.graph else G.Keep
  }

  lemma StepIsGraphStep(c: Config, w: World, step: Step)
    ensures Apply(c, w, step).db.graph == G.Perform(w.db.graph, GraphOp(c, w, step))
  {
  }

  ghost function Past(w: World): History {
    HistoryOf(w.db.graph)
  }

  /** Refinement: every step of the protocol is, seen as a history, nothing, the
      birth of one branch at the tip of another or at nothing, or the growth of
      one branch by one new node. */
  lemma StepRefinesHistory(c: Config, w: World, step: Step)
    requires Inv(c, w)
    ensures var e := EventOf(w.db.graph, GraphOp(c, w, step));
            Possible(Past(w), e) && Past(Apply(c, w, step)) == Evolve(Past(w), e)
  {
    StepIsGraphStep(c, w, step);
    PerformRefines(w.db.graph, GraphOp(c, w, step));
  }

  lemma StepExtendsHistory(c: Config, earlier: History, w: World, step: Step)
    requires Inv(c, w) && Extends(earlier, Past(w))
    ensures Extends(earlier, Past(Apply(c, w, step)))
  {
    StepRefinesHistory(c, w, step);
    EvolvingExtends(Past(w), EventOf(w.db.graph, GraphOp(c, w, step)));
    ExtendsIsTransitive(earlier, Past(w), Past(Apply(c, w, step)));
  }

  /** A history is only ever appended to, whatever steps are taken. */
  lemma {:induction false} HistoryOnlyGrows(c: Config, w: World, steps: seq<Step>)
    requires Proper(c) && Inv(c, w)
    ensures Extends(Past(w), Past(Run(c, w, steps)))
  {
    if steps != [] {
      var m := |steps| - 1;
      HistoryOnlyGrows(c, w, steps[..m]);
      RunKeepsInv(c, w, steps[..m]);
      StepExtendsHistory(c, Past(w), Run(c, w, steps[..m]), steps[m]);
    }
  }

  /** The tables describe that history: a branch's version counts its nodes, its
      head is the last of them or the fork point, and walking dependency edges
      back from the head visits exactly its nodes, last commit first, and stops
      at the fork point. */
  lemma BranchTellsItsHistory(c: Config, steps: seq<Step>, b: Id)
    requires Proper(c) && b in Run(c, START, steps).db.graph.branches
    ensures G.Sound(Run(c, START, steps).db.graph)
    ensures var g := Run(c, START, steps).db.graph;
            var l := LineageOf(g, b);
            && g.branches[b].version - 1 == |l.nodes|
            && g.branches[b].head == Tip(l)
            && (g.branches[b].head.Some? ==> g.branches[b].head.value in g.nodes)
            && WalkBack(g, b, g.branches[b].head) == Walk(Reversed(l.nodes), l.root)
  {
    ReachableIsSound(c, steps);
    HeadIsTip(Run(c, START, steps).db.graph, b);
    WalkFromHeadVisitsTheLineage(Run(c, START, steps).db.graph, b);
  }

  /** The graph is a forest whose edges stay inside one lattice; no path returns
      to where it began; and a node is superseded exactly when it has a
      successor, even where branches share a fork point. */
  lemma GraphIsAForest(c: Config, steps: seq<Step>, p: seq<Id>)
    requires Proper(c)
    ensures var g := Run(c, START, steps).db.graph;
            G.Forest(g) && G.EdgesForward(g) && G.SupersededExactly(g) && (Path(g, p) ==> p[0] != p[|p| - 1])
  {
    ReachableIsSound(c, steps);
    var g := Run(c, START, steps).db.graph;
    if Path(g, p) {
      NoCycles(g, p);
    }
  }

  /** A commit that goes through builds on exactly the branch as it was whenever
      it had the version the commit expects: nothing was committed to the branch
      since then, and nothing is lost. */
  lemma NoUpdateIsLost(c: Config, first: seq<Step>, more: seq<Step>, k: Commit, node: Id, edge: Id, s: Stamp)
    requires Proper(c)
    ensures var w := Run(c, START, first);
            var db := Run(c, w, more).db;
            k.branch in w.db.graph.branches && w.db.graph.branches[k.branch].version == k.expectedVersion
            && Commits(c, db, CommitTx(c, db, k, node, edge, s)) ==>
              k.branch in db.graph.branches && LineageOf(db.graph, k.branch) == LineageOf(w.db.graph, k.branch)
  {
    var w := Run(c, START, first);
    var db := Run(c, w, more).db;
    ReachableIsSound(c, first);
    RunKeepsInv(c, w, more);
    HistoryOnlyGrows(c, w, more);
    if k.branch in w.db.graph.branches && w.db.graph.branches[k.branch].version == k.expectedVersion
       && Commits(c, db, CommitTx(c, db, k, node, edge, s)) {
      CommitNeedsVersion(c, db, k, node, edge, s);
      SameVersionSameLineage(w.db.graph, db.graph, k.branch);
    }
  }

  /** Exactly when a commit goes through: the transition is executing or
      uncertain, the branch is at the expected version and, where a head is
      expected, at that head; the new ids are unused; and the event's lattice has
      an audit head. */
  lemma CommitGoesThroughExactlyWhen(c: Config, db: Db, k: Commit, node: Id, edge: Id, s: Stamp)
    requires G.Sound(db.graph)
    ensures Commits(c, db, CommitTx(c, db, k, node, edge, s)) <==>
              && StageOf(db.ledger, k.t) in {Some(Executing), Some(Uncertain)}
              && k.branch in db.graph.branches && db.graph.branches[k.branch].version == k.expectedVersion
              && (k.expectedHead.Some? ==> db.graph.branches[k.branch].head == k.expectedHead)
              && node !in db.graph.nodes && (db.graph.branches[k.branch].head.Some? ==> edge !in db.graph.edges)
              && k.lattice in db.audit.heads
  {
    AdvancesExactlyWhen(db.graph, AdvanceOf(k, node, edge));
    CommitHasThreeParts(c, db, k, node, edge, s);
  }

  lemma AdvancesExactlyWhen(g: G.Graph, a: G.Advance)
    requires G.Sound(g)
    ensures G.AdvanceBranch(g, a).Some? <==>
              && a.branch in g.branches && g.branches[a.branch].version == a.expectedVersion
              && (a.expectedHead.Some? ==> g.branches[a.branch].head == a.expectedHead)
              && a.node !in g.nodes && (g.branches[a.branch].head.Some? ==> a.edge !in g.edges)
  {
    if a.branch in g.branches {
      assert G.Counted(g, a.branch);
    }
  }

  lemma CommitHasThreeParts(c: Config, db: Db, k: Commit, node: Id, edge: Id, s: Stamp)
    ensures Commits(c, db, CommitTx(c, db, k, node, edge, s)) <==>
              && G.AdvanceBranch(db.graph, AdvanceOf(k, node, edge)).Some?
              && L.Committable(db.ledger, k.t) && k.lattice in db.audit.heads
  {
  }

  lemma CommitNeedsVersion(c: Config, db: Db, k: Commit, node: Id, edge: Id, s: Stamp)
    requires Commits(c, db, CommitTx(c, db, k, node, edge, s))
    ensures k.branch in db.graph.branches && db.graph.branches[k.branch].version == k.expectedVersion
  {
  }

  lemma SameVersionSameLineage(g: G.Graph, h: G.Graph, b: Id)
    requires G.Sound(g) && G.Sound(h) && Extends(HistoryOf(g), HistoryOf(h))
    requires b in g.branches && b in h.branches && g.branches[b].version == h.branches[b].version
    ensures LineageOf(h, b) == LineageOf(g, b)
  {
    HeadIsTip(g, b);
    HeadIsTip(h, b);
    assert b in HistoryOf(g);
  }

  // ------------------------------------------------------------ conservation

  /** Nodes and succeeded transitions are in bijection: each succeeded transition
      names a node made for it, no two name the same one, and every node is
      named. */
  lemma NodesMatchSuccesses(c: Config, steps: seq<Step>)
    requires Proper(c)
    ensures Conserved(Run(c, START, steps).db)
    ensures var rows := Run(c, START, steps).db.ledger.transitions;
            forall t :: t in rows ==> (rows[t].stage.Succeeded? <==> rows[t].toNode.Some?)
  {
    ReachableIsSound(c, steps);
    var l := Run(c, START, steps).db.ledger;
    forall t | t in l.transitions ensures l.transitions[t].stage.Succeeded? <==> l.transitions[t].toNode.Some? {
      assert OutcomeFits(l.transitions[t]);
    }
  }

  function Successes(l: L.Ledger): set<Id> {
    set t | t in l.transitions && l.transitions[t].stage.Succeeded?
  }

  lemma {:induction false} SameSize(f: map<Id, Id>, ts: set<Id>, ns: set<Id>)
    requires f.Keys == ts && forall t :: t in ts ==> f[t] in ns
    requires forall t, u :: t in ts && u in ts && f[t] == f[u] ==> t == u
    requires forall n :: n in ns ==> exists t :: t in ts && f[t] == n
    ensures |ts| == |ns|
    decreases |ts|
  {
    if ts == {} {
      assert ns == {};
    } else {
      var t :| t in ts;
      var rest := f - {t};
      forall n | n in ns - {f[t]} ensures exists u :: u in ts - {t} && rest[u] == n {
        var u :| u in ts && f[u] == n;
        assert u in ts - {t} && rest[u] == n;
      }
      SameSize(rest, ts - {t}, ns - {f[t]});
    }
  }

  lemma ConservedIsCounted(db: Db)
    requires Conserved(db) && Outcomes(db.ledger)
    ensures |db.graph.nodes.Keys| == |Successes(db.ledger)|
  {
    var rows, ts := db.ledger.transitions, Successes(db.ledger);
    var f := map t | t in ts :: rows[t].toNode.GetOr("");
    assert forall t :: t in rows ==> OutcomeFits(rows[t]);
    forall t | t in ts ensures f[t] in db.graph.nodes.Keys {
      assert ResultFits(db, rows[t]);
    }
    forall n | n in db.graph.nodes.Keys ensures exists t :: t in ts && f[t] == n {
      assert Produced(db.ledger, n);
      var t :| t in rows && rows[t].toNode == Some(n);
      assert t in ts && f[t] == n;
    }
    SameSize(f, ts, db.graph.nodes.Keys);
  }

  /** As many nodes as succeeded transitions. */
  lemma NodesAreCounted(c: Config, steps: seq<Step>)
    requires Proper(c)
    ensures var db := Run(c, START, steps).db;
            |db.graph.nodes.Keys| == |Successes(db.ledger)|
  {
    ReachableIsSound(c, steps);
    ConservedIsCounted(Run(c, START, steps).db);
  }

  // ------------------------------------------------------------ audit

  /** In every reachable state each lattice's log is numbered 1 to n without a
      gap, its head holds n and the last hash, and the log verifies. */
  lemma LogsAreAlwaysWellKept(c: Config, steps: seq<Step>, lattice: Id)
    requires Proper(c) && lattice in Run(c, START, steps).db.audit.heads
    ensures var log := Run(c, START, steps).db.audit;
            lattice in log.events && WellKept(c.hash, lattice, log.heads[lattice], log.events[lattice])
  {
    ReachableIsSound(c, steps);
  }

  /** In every reachable state the head of a lattice's log fixes the log: a list
      of events that verifies and ends in the hash the head holds is that log,
      event by event. */
  lemma HeadFixesTheLog(c: Config, steps: seq<Step>, lattice: Id, shown: seq<EventRow>)
    requires Proper(c) && lattice in Run(c, START, steps).db.audit.heads
    requires Verified(c.hash, lattice, shown)
    ensures var log := Run(c, START, steps).db.audit;
            lattice in log.events
              && (LastHash(shown) == log.heads[lattice].lastHash <==> SameLog(shown, log.events[lattice]))
  {
    LogsAreAlwaysWellKept(c, steps, lattice);
    var log := Run(c, START, steps).db.audit;
    AcceptedLogIsTheKeptOneIffHeadMatches(c.hash, lattice, log.heads[lattice], log.events[lattice], shown);
  }

  ghost predicate LogsGrow(before: AuditLog, after: AuditLog) {
    forall l :: l in before.events ==> l in after.events && before.events[l] <= after.events[l]
  }

  lemma RecordGrows(c: Config, log: AuditLog, e: LogEntry)
    requires Record(c, log, e).Some? && log.events.Keys == log.heads.Keys
    ensures LogsGrow(log, Record(c, log, e).value)
  {
  }

  lemma GrowingIsTransitive(x: AuditLog, y: AuditLog, z: AuditLog)
    requires LogsGrow(x, y) && LogsGrow(y, z)
    ensures LogsGrow(x, z)
  {
    forall l | l in x.events ensures l in z.events && x.events[l] <= z.events[l] {
      assert l in y.events;
    }
  }

  lemma StepGrowsLogs(c: Config, earlier: AuditLog, w: World, step: Step)
    requires Inv(c, w) && LogsGrow(earlier, w.db.audit)
    ensures LogsGrow(earlier, Apply(c, w, step).db.audit)
  {
    var tx := Plan(c, w, step);
    if Commits(c, w.db, tx) {
      RecordGrows(c, w.db.audit, tx.value.entry);
      GrowingIsTransitive(earlier, w.db.audit, Record(c, w.db.audit, tx.value.entry).value);
    }
  }

  /** Every earlier log is a prefix of the later one, whatever steps are taken. */
  lemma {:induction false} LogsOnlyGrow(c: Config, w: World, steps: seq<Step>)
    requires Proper(c) && Inv(c, w)
    ensures LogsGrow(w.db.audit, Run(c, w, steps).db.audit)
  {
    if steps != [] {
      var m := |steps| - 1;
      LogsOnlyGrow(c, w, steps[..m]);
      RunKeepsInv(c, w, steps[..m]);
      StepGrowsLogs(c, w.db.audit, Run(c, w, steps[..m]), steps[m]);
    }
  }

  predicate TransitionIn(fields: map<string, Json>, t: Id) {
    Says(fields, "transition_id", t)
  }

  predicate Says(fields: map<string, Json>, name: string, text: string) {
    name in fields && fields[name] == Str(text)
  }

  predicate NeedsReconciliation(fields: map<string, Json>, flag: bool) {
    "requires_manual_reconciliation" in fields && fields["requires_manual_reconciliation"] == Bool(flag)
  }

  /** The kind of event that a change to a stage leaves, what its payload says, and
      in whose name it stands: the agent's, or that of somebody else who decided. */
  predicate EventFits(now: Stage, agent: Id, kind: string, fields: map<string, Json>, actor: Id) {
    match now
    case PendingApproval =>
      kind == "transition.pending_approval" && Says(fields, "verification_result", "pending_approval") && actor == agent
    case Denied =>
      || (kind == "transition.denied" && Says(fields, "verification_result", "denied") && actor == agent)
      || (kind == "transition.denied_approval" && Says(fields, "approver_id", actor) && actor != agent)
    case Authorized =>
      || (kind == "transition.authorized" && Says(fields, "verification_result", "admissible") && actor == agent)
      || (kind == "transition.approved" && Says(fields, "approver_id", actor) && actor != agent)
    case Cancelled => kind == "transition.cancelled" && Says(fields, "agent_id", actor)
    case Uncertain =>
      && kind == "transition.execution_uncertain" && Says(fields, "exit_status", "timeout")
      && NeedsReconciliation(fields, true) && actor == agent
    case Succeeded => kind == "branch_committed" && actor == agent
    case Failed =>
      && actor == agent
      && (|| (kind == "transition.failed" && Says(fields, "exit_status", "failure"))
          || (kind == "transition.reconciled" && Says(fields, "final_status", "failed") && NeedsReconciliation(fields, false)))
    case _ => false
  }

  /** The event that goes with a change of t to a stage. Only a commit may be told
      to use another lattice's log. */
  ghost predicate Reports(e: LogEntry, g: G.Graph, t: Id, now: Stage, branch: Id, agent: Id) {
    && e.Event? && e.write.draft.data.Obj? && TransitionIn(e.write.draft.data.fields, t)
    && EventFits(now, agent, e.write.draft.eventType, e.write.draft.data.fields, e.write.draft.actor)
    && (!now.Succeeded? ==> branch in g.branches && e.write.lattice == g.branches[branch].lattice)
  }

  /** What is recorded when a reconciler raises or lowers the flag by itself. */
  predicate FlagReport(kind: string, fields: map<string, Json>, t: Id, flag: bool) {
    && kind == (if flag then "transition.reconcile_commit_failed" else "transition.reconciled")
    && TransitionIn(fields, t) && Says(fields, "final_status", "succeeded") && NeedsReconciliation(fields, flag)
  }

  /** Which event an operation on the ledger comes with. */
  ghost predicate Traced(db: Db, op: L.Op, e: LogEntry) {
    var rows := db.ledger.transitions;
    match op
    case Opening(_, p, v) => Reports(e, db.graph, p.id, L.FirstStage(v), p.branch, p.agent)
    case Deciding(t, decider, approve) =>
      t in rows && (decider != rows[t].agent ==>
        Reports(e, db.graph, t, if approve then Authorized else Denied, rows[t].branch, rows[t].agent))
    case Claiming(_) => e.Silent?
    case Withdrawing(t, to) =>
      if to.Expired? then e.Silent?
      else to.Cancelled? && t in rows && Reports(e, db.graph, t, Cancelled, rows[t].branch, rows[t].agent)
    case Recording(t, failed, _) =>
      t in rows && Reports(e, db.graph, t, if failed then Failed else Uncertain, rows[t].branch, rows[t].agent)
    case Succeeding(t, _, _) => t in rows && Reports(e, db.graph, t, Succeeded, rows[t].branch, rows[t].agent)
    case FailingReviewed(t) => t in rows && Reports(e, db.graph, t, Failed, rows[t].branch, rows[t].agent)
    case Flagging(t, flag) => e.Event? && e.write.draft.data.Obj? && FlagReport(e.write.draft.eventType, e.write.draft.data.fields, t, flag)
    case _ => true
  }

  lemma ProposalIsTraced(c: Config, db: Db, p: Propose, s: Stamp, tx: Tx)
    requires ProposeTx(c, db, p, s) == Some(tx)
    ensures Traced(db, tx.ledger, tx.entry)
  {
  }

  lemma OutcomeIsTraced(db: Db, t: Id, failed: bool, summary: string, s: Stamp, tx: Tx)
    requires OutcomeTx(db, t, failed, summary, s) == Some(tx) && BranchesKnown(db)
    ensures Traced(db, tx.ledger, tx.entry)
  {
  }

  lemma DecisionIsTraced(db: Db, t: Id, actor: Id, actorType: string, reason: string, s: Stamp)
    requires BranchesKnown(db)
    ensures forall tx :: tx in {ApproveTx(db, t, actor, actorType, reason, s), DenyTx(db, t, actor, reason, s)} && tx.Some? ==>
              Traced(db, tx.value.ledger, tx.value.entry)
  {
  }

  lemma CallsAreTraced(c: Config, db: Db, call: Call, tx: Tx)
    requires CallTx(c, db, call) == Some(tx) && BranchesKnown(db)
    ensures Traced(db, tx.ledger, tx.entry)
  {
    match call
    case ProposeAction(p, s) => ProposalIsTraced(c, db, p, s, tx);
    case Approve(t, actor, actorType, reason, s) => DecisionIsTraced(db, t, actor, actorType, reason, s);
    case DenyApproval(t, actor, reason, s) => DecisionIsTraced(db, t, actor, "", reason, s);
    case MarkUncertain(t, reason, s) => OutcomeIsTraced(db, t, false, reason, s, tx);
    case _ =>
  }

  lemma ReviewIsTraced(db: Db, k: Commit, summary: string, s: Stamp)
    ensures var lost, done := ReviewLostTx(db, k, s).value, ReviewDoneTx(db, k, summary, s).value;
            Traced(db, lost.ledger, lost.entry) && Traced(db, done.ledger, done.entry)
  {
  }

  lemma CommitIsTraced(c: Config, db: Db, k: Commit, node: Id, edge: Id, s: Stamp)
    requires CommitFits(db.ledger, k)
    ensures var tx := CommitTx(c, db, k, node, edge, s).value; Traced(db, tx.ledger, tx.entry)
  {
  }

  lemma MovesAreTraced(c: Config, db: Db, proc: Proc, move: Move, tx: Tx)
    requires MoveTx(c, db, proc, move) == Some(tx) && BranchesKnown(db) && ProcFits(db.ledger, proc)
    ensures Traced(db, tx.ledger, tx.entry)
  {
    match move
    case RecordRun(s) => OutcomeIsTraced(db, proc.token.transition, proc.outcome.Broke?, proc.summary, s, tx);
    case RecordLost(reason, s) => OutcomeIsTraced(db, proc.t, false, reason, s, tx);
    case CommitRun(node, edge, s, _) => CommitIsTraced(c, db, proc.commit, node, edge, s);
    case CommitReview(node, edge, s, _) => CommitIsTraced(c, db, proc.commit, node, edge, s);
    case FinishReview(s) => ReviewIsTraced(db, proc.commit, proc.summary, s);
    case GiveUpReview(s) => ReviewIsTraced(db, proc.commit, "", s);
    case _ =>
  }

  lemma PlansAreTraced(c: Config, w: World, step: Step, tx: Tx)
    requires BranchesKnown(w.db) && ProcsFit(w.db.ledger, w.procs) && Plan(c, w, step) == Some(tx)
    ensures Traced(w.db, tx.ledger, tx.entry)
  {
    match step
    case Ask(call) => CallsAreTraced(c, w.db, call, tx);
    case Execute(_, _) =>
    case Go(p, move) => MovesAreTraced(c, w.db, w.procs[p], move, tx);
  }

  lemma TracedTells(db: Db, tx: Tx, t: Id, m: L.Ledger)
    requires L.Attempt(db.ledger, tx.ledger) == Some(m) && Traced(db, tx.ledger, tx.entry)
    requires StageOf(m, t) != StageOf(db.ledger, t)
    ensures t in m.transitions
    ensures var row := m.transitions[t];
            if row.stage in {Executing, Expired} then tx.entry.Silent?
            else Reports(tx.entry, db.graph, t, row.stage, row.branch, row.agent)
  {
    OperationBrings(db.ledger, tx.ledger, t);
  }

  /** One event was appended to one log. It says what the change to the row was, in
      its stored payload too. */
  ghost predicate OneEventAdded(before: Db, after: Db, t: Id, row: L.Transition) {
    exists l, event, fields ::
      && l in before.audit.events && after.audit.events == before.audit.events[l := before.audit.events[l] + [event]]
      && event.dataText == Dump(Obj(fields)) && TransitionIn(fields, t)
      && EventFits(row.stage, row.agent, event.eventType, fields, event.actor)
      && (!row.stage.Succeeded? ==> row.branch in before.graph.branches && l == before.graph.branches[row.branch].lattice)
  }

  lemma ReportAppends(c: Config, before: Db, after: Db, e: LogEntry, t: Id, row: L.Transition)
    requires Reports(e, before.graph, t, row.stage, row.branch, row.agent)
    requires Record(c, before.audit, e) == Some(after.audit)
    requires before.audit.events.Keys == before.audit.heads.Keys
    ensures OneEventAdded(before, after, t, row)
  {
    var w, log := e.write, before.audit;
    var event := NewRow(c.hash, c.writer, w.lattice, log.heads[w.lattice], w.draft);
    assert after.audit.events == log.events[w.lattice := log.events[w.lattice] + [event]];
    assert event.dataText == Dump(Obj(w.draft.data.fields));
  }

  /** A stage change appends one event to the log of its branch's lattice, of the
      kind that belongs to the stage, naming the transition, with what was decided
      in its payload and in the name of who decided; unless it is a claim or an
      expiry, which append none. */
  lemma StageChangesAreAuditedExceptTwo(c: Config, w: World, step: Step, t: Id)
    requires Inv(c, w)
    ensures var after := Apply(c, w, step).db;
            StageOf(after.ledger, t) != StageOf(w.db.ledger, t) ==>
              && t in after.ledger.transitions
              && var row := after.ledger.transitions[t];
                 if row.stage in {Executing, Expired} then after.audit == w.db.audit
                 else OneEventAdded(w.db, after, t, row)
  {
    var after := Apply(c, w, step).db;
    if StageOf(after.ledger, t) != StageOf(w.db.ledger, t) {
      var tx := Plan(c, w, step);
      AttemptParts(c, w.db, tx, after);
      PlansAreTraced(c, w, step, tx.value);
      TracedTells(w.db, tx.value, t, after.ledger);
      var row := after.ledger.transitions[t];
      if row.stage !in {Executing, Expired} {
        ReportAppends(c, w.db, after, tx.value.entry, t, row);
      }
    }
  }

  lemma AttemptParts(c: Config, db: Db, tx: Option<Tx>, after: Db)
    requires after == Perform(c, db, tx) && after != db
    ensures tx.Some? && L.Attempt(db.ledger, tx.value.ledger) == Some(after.ledger)
    ensures Record(c, db.audit, tx.value.entry) == Some(after.audit)
  {
  }

  ghost predicate FlagEventAdded(before: Db, after: Db, t: Id, flag: bool) {
    exists l, event, fields ::
      && l in before.audit.events && after.audit.events == before.audit.events[l := before.audit.events[l] + [event]]
      && event.dataText == Dump(Obj(fields)) && FlagReport(event.eventType, fields, t, flag)
  }

  /** And so does a change of the review flag that no change of stage comes with. */
  lemma FlagChangesAreAudited(c: Config, w: World, step: Step, t: Id)
    requires Inv(c, w) && t in w.db.ledger.transitions && t in Apply(c, w, step).db.ledger.transitions
    ensures var after := Apply(c, w, step).db;
            var row, now := w.db.ledger.transitions[t], after.ledger.transitions[t];
            now.stage == row.stage && now.needsReview != row.needsReview ==> FlagEventAdded(w.db, after, t, now.needsReview)
  {
    var after := Apply(c, w, step).db;
    var row, now := w.db.ledger.transitions[t], after.ledger.transitions[t];
    if now.stage == row.stage && now.needsReview != row.needsReview {
      var tx := Plan(c, w, step);
      AttemptParts(c, w.db, tx, after);
      PlansAreTraced(c, w, step, tx.value);
      OnlyFlaggingFlags(w.db.ledger, tx.value.ledger, t, after.ledger);
      var e, log := tx.value.entry.write, w.db.audit;
      var event := NewRow(c.hash, c.writer, e.lattice, log.heads[e.lattice], e.draft);
      assert after.audit.events == log.events[e.lattice := log.events[e.lattice] + [event]];
      assert event.dataText == Dump(Obj(e.draft.data.fields));
    }
  }

  lemma OnlyFlaggingFlags(l: L.Ledger, op: L.Op, t: Id, m: L.Ledger)
    requires L.Attempt(l, op) == Some(m) && t in l.transitions && t in m.transitions
    requires m.transitions[t].stage == l.transitions[t].stage && m.transitions[t].needsReview != l.transitions[t].needsReview
    ensures op == L.Flagging(t, m.transitions[t].needsReview)
  {
  }
}
