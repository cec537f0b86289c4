/** The audit logs and the node graph tell the same story: the commit events in
    the logs are exactly the commits, and each says where in its branch's history
    its node stands. */
module Receipts {
  import opened Wrappers
  import opened JsonText
  import opened JsonReader
  import opened Audit
  import opened Lineage
  import opened Transactions
  import opened Protocol
  import opened ProtocolInvariant
  import opened LedgerTheorems
  import opened ExecutionTheorems
  import G = Graph
  import L = Ledger

  /** What a commit event says. */
  datatype Receipt = Receipt(t: Id, branch: Id, node: Id, oldHead: Option<Id>, version: int)

  function TextAt(fields: map<string, Json>, name: string): Option<string> {
    if name in fields && fields[name].Str? then Some(fields[name].s) else None
  }

  /** The receipt in the stored payload of an event, if it is a commit event. */
  function ReceiptOf(row: EventRow): Option<Receipt> {
    var data := Load(row.dataText);
    if row.eventType != "branch_committed" || data.None? || !data.value.Obj? then None
    else
      var f := data.value.fields;
      if TextAt(f, "transition_id").None? || TextAt(f, "branch_id").None? || TextAt(f, "new_node_id").None?
         || "new_version" !in f || !f["new_version"].Int? then None
      else Some(Receipt(TextAt(f, "transition_id").value, TextAt(f, "branch_id").value, TextAt(f, "new_node_id").value,
                        TextAt(f, "old_head_id"), f["new_version"].i))
  }

  // ------------------------------------------------------------ agreement

  type Reader = EventRow -> Option<Receipt>

  /** Event i of a lattice's log is the receipt. */
  ghost predicate At(read: Reader, log: AuditLog, lattice: Id, i: nat, r: Receipt) {
    lattice in log.events && i < |log.events[lattice]| && read(log.events[lattice][i]) == Some(r)
  }

  /** The receipt names a node at its place in the history of its branch, after
      the node that was the head before. */
  ghost predicate Tells(h: History, r: Receipt) {
    && r.branch in h
    && exists k: nat :: Standing(h[r.branch], r, k)
  }

  ghost predicate Standing(l: Lineage, r: Receipt, k: nat) {
    && k < |l.nodes| && l.nodes[k] == r.node
    && r.version == k + 2 && r.oldHead == Tip(Lineage(l.root, l.nodes[..k]))
  }

  ghost predicate Credits(l: L.Ledger, r: Receipt) {
    r.t in l.transitions && l.transitions[r.t].toNode == Some(r.node)
  }

  /** Every receipt is true, every node has one, and no node has two. */
  ghost predicate Agrees(read: Reader, db: Db) {
    && (forall l, i: nat, r :: At(read, db.audit, l, i, r) ==> Tells(HistoryOf(db.graph), r) && Credits(db.ledger, r))
    && (forall n :: n in db.graph.nodes ==> Receipted(read, db.audit, n))
    && OneReceiptEach(read, db.audit)
  }

  ghost predicate OneReceiptEach(read: Reader, log: AuditLog) {
    forall l, i: nat, r, m, j: nat, s :: At(read, log, l, i, r) && At(read, log, m, j, s) && r.node == s.node ==>
      l == m && i == j
  }

  ghost predicate Receipted(read: Reader, log: AuditLog, n: Id) {
    exists l, i: nat, r :: At(read, log, l, i, r) && r.node == n
  }

  // ------------------------------------------------------------ what transactions write

  function ReceiptFor(g: G.Graph, tx: Tx): Option<Receipt> {
    if !tx.graph.Realise? || !tx.ledger.Succeeding? then None
    else
      var a := tx.graph.advance;
      var head := if a.branch in g.branches then g.branches[a.branch].head else None;
      Some(Receipt(tx.ledger.t, a.branch, a.node, head, a.expectedVersion + 1))
  }

  /** The event that a transaction writes is a receipt exactly when the
      transaction is a commit, and then it is the commit's receipt. */
  ghost predicate WritesReceipt(read: Reader, c: Config, db: Db, tx: Tx) {
    if tx.entry.Event? then
      tx.entry.write.lattice in db.audit.heads ==>
        read(NewRow(c.hash, c.writer, tx.entry.write.lattice, db.audit.heads[tx.entry.write.lattice], tx.entry.write.draft))
          == ReceiptFor(db.graph, tx)
    else !tx.graph.Realise?
  }

  lemma ReceiptKeepsTelling(h: History, k: History, r: Receipt)
    requires Tells(h, r) && Extends(h, k)
    ensures Tells(k, r)
  {
    var i: nat :| Standing(h[r.branch], r, i);
    assert k[r.branch].nodes[..i] == h[r.branch].nodes[..i];
    assert Standing(k[r.branch], r, i);
  }

  lemma NewReceiptTells(g: G.Graph, h: G.Graph, a: G.Advance, t: Id)
    requires G.Sound(g) && G.AdvanceBranch(g, a) == Some(h)
    ensures Tells(HistoryOf(h), Receipt(t, a.branch, a.node, g.branches[a.branch].head, a.expectedVersion + 1))
  {
    var r := Receipt(t, a.branch, a.node, g.branches[a.branch].head, a.expectedVersion + 1);
    var before := LineageOf(g, a.branch);
    AdvanceRefines(g, a, h);
    HeadIsTip(g, a.branch);
    var after := HistoryOf(h)[a.branch];
    var k := |before.nodes|;
    assert after == before.(nodes := before.nodes + [a.node]);
    assert after.nodes[..k] == before.nodes;
    assert Standing(after, r, k);
  }

  /** The events of a log after one more was written. */
  lemma AtAfterWrite(read: Reader, log: AuditLog, lattice: Id, row: EventRow, after: AuditLog, l: Id, i: nat, r: Receipt)
    requires lattice in log.events && after.events == log.events[lattice := log.events[lattice] + [row]]
    ensures At(read, after, l, i, r) <==>
              At(read, log, l, i, r) || (l == lattice && i == |log.events[lattice]| && read(row) == Some(r))
  {
  }

  lemma CreditsStay(l: L.Ledger, op: L.Op, r: Receipt)
    requires Outcomes(l) && Credits(l, r)
    ensures Credits(L.Perform(l, op), r)
  {
    EveryOperationMovesLegally(l, op);
    assert OutcomeFits(l.transitions[r.t]);
  }

  lemma NodesAfter(g: G.Graph, op: G.Op, n: Id)
    requires G.Attempt(g, op).Some? && n in G.Attempt(g, op).value.nodes
    ensures n in g.nodes || (op.Realise? && n == op.advance.node)
  {
    if op.Realise? {
      G.AdvanceShape(g, op.advance);
    }
  }

  lemma AttemptParts(c: Config, db: Db, tx: Tx, after: Db)
    requires Attempt(c, db, tx) == Some(after)
    ensures G.Attempt(db.graph, tx.graph) == Some(after.graph)
    ensures L.Attempt(db.ledger, tx.ledger) == Some(after.ledger)
  {
  }

  lemma OldReceiptsStayTrue(before: Db, after: Db, gop: G.Op, lop: L.Op, r: Receipt)
    requires G.Sound(before.graph) && Outcomes(before.ledger)
    requires after.graph == G.Perform(before.graph, gop) && after.ledger == L.Perform(before.ledger, lop)
    requires Tells(HistoryOf(before.graph), r) && Credits(before.ledger, r)
    ensures Tells(HistoryOf(after.graph), r) && Credits(after.ledger, r)
  {
    PerformRefines(before.graph, gop);
    EvolvingExtends(HistoryOf(before.graph), EventOf(before.graph, gop));
    ReceiptKeepsTelling(HistoryOf(before.graph), HistoryOf(after.graph), r);
    CreditsStay(before.ledger, lop, r);
  }

  lemma ReceiptsStayTrue(read: Reader, c: Config, db: Db, tx: Tx, after: Db)
    requires DbSound(c, db) && Agrees(read, db) && Attempt(c, db, tx) == Some(after)
    ensures forall l, i: nat, r :: At(read, db.audit, l, i, r) ==> Tells(HistoryOf(after.graph), r) && Credits(after.ledger, r)
  {
    AttemptParts(c, db, tx, after);
    forall l, i: nat, r | At(read, db.audit, l, i, r)
      ensures Tells(HistoryOf(after.graph), r) && Credits(after.ledger, r)
    {
      OldReceiptsStayTrue(db, after, tx.graph, tx.ledger, r);
    }
  }

  lemma NewReceiptIsTrue(before: Db, after: Db, a: G.Advance, t: Id, r: Receipt)
    requires G.Sound(before.graph) && G.AdvanceBranch(before.graph, a) == Some(after.graph)
    requires L.Succeed(before.ledger, t, a.node, a.description) == Some(after.ledger)
    requires r == Receipt(t, a.branch, a.node, before.graph.branches[a.branch].head, a.expectedVersion + 1)
    ensures Tells(HistoryOf(after.graph), r) && Credits(after.ledger, r)
    ensures r.node !in before.graph.nodes
  {
    G.AdvanceShape(before.graph, a);
    NewReceiptTells(before.graph, after.graph, a, t);
  }

  /** A receipt already in a log names a node that exists. */
  lemma ReceiptsNameNodes(db: Db, r: Receipt)
    requires G.Resolved(db.graph) && Tells(HistoryOf(db.graph), r)
    ensures r.node in db.graph.nodes
  {
    var k: nat :| Standing(HistoryOf(db.graph)[r.branch], r, k);
    G.RealisedMembers(db.graph.nodes, db.graph.order, r.branch);
    assert r.node in G.NodesOf(db.graph, r.branch);
  }

  ghost predicate SameReceipts(read: Reader, before: AuditLog, after: AuditLog) {
    forall l, i: nat, r :: At(read, after, l, i, r) <==> At(read, before, l, i, r)
  }

  lemma SameIsStillOneEach(read: Reader, before: AuditLog, after: AuditLog)
    requires OneReceiptEach(read, before) && SameReceipts(read, before, after)
    ensures OneReceiptEach(read, after)
  {
  }

  lemma SameStayTrue(read: Reader, before: AuditLog, after: Db)
    requires SameReceipts(read, before, after.audit)
    requires forall l, i: nat, r :: At(read, before, l, i, r) ==> Tells(HistoryOf(after.graph), r) && Credits(after.ledger, r)
    ensures forall l, i: nat, r :: At(read, after.audit, l, i, r) ==> Tells(HistoryOf(after.graph), r) && Credits(after.ledger, r)
  {
  }

  /** A transaction that writes no event, or one that is no receipt. */
  lemma QuietStepAgrees(read: Reader, c: Config, db: Db, tx: Tx, after: Db)
    requires DbSound(c, db) && Agrees(read, db) && Attempt(c, db, tx) == Some(after) && !tx.graph.Realise?
    requires SameReceipts(read, db.audit, after.audit)
    ensures Agrees(read, after)
  {
    ReceiptsStayTrue(read, c, db, tx, after);
    AttemptParts(c, db, tx, after);
    QuietNodesStayReceipted(read, db, tx.graph, after);
    SameStayTrue(read, db.audit, after);
    SameIsStillOneEach(read, db.audit, after.audit);
  }

  lemma QuietNodesStayReceipted(read: Reader, db: Db, op: G.Op, after: Db)
    requires Agrees(read, db) && G.Attempt(db.graph, op) == Some(after.graph) && !op.Realise?
    requires SameReceipts(read, db.audit, after.audit)
    ensures forall n :: n in after.graph.nodes ==> Receipted(read, after.audit, n)
  {
    forall n | n in after.graph.nodes ensures Receipted(read, after.audit, n) {
      NodesAfter(db.graph, op, n);
      assert Receipted(read, db.audit, n);
      var l, i: nat, r :| At(read, db.audit, l, i, r) && r.node == n;
      assert At(read, after.audit, l, i, r);
    }
  }

  /** The receipts after one more: those before, and the new one. */
  ghost predicate OneMore(read: Reader, before: AuditLog, after: AuditLog, lattice: Id, n0: nat, receipt: Receipt) {
    forall l, i: nat, r :: At(read, after, l, i, r) <==> At(read, before, l, i, r) || (l == lattice && i == n0 && r == receipt)
  }

  lemma CommitKeepsReceiptsTrue(read: Reader, c: Config, db: Db, tx: Tx, after: Db, lattice: Id, n0: nat, receipt: Receipt)
    requires DbSound(c, db) && Agrees(read, db) && Attempt(c, db, tx) == Some(after) && Safe(c, db, tx)
    requires ReceiptFor(db.graph, tx) == Some(receipt) && OneMore(read, db.audit, after.audit, lattice, n0, receipt)
    ensures forall l, i: nat, r :: At(read, after.audit, l, i, r) ==> Tells(HistoryOf(after.graph), r) && Credits(after.ledger, r)
    ensures forall l, i: nat, r :: At(read, db.audit, l, i, r) ==> r.node != receipt.node
  {
    AttemptParts(c, db, tx, after);
    NewReceiptIsTrue(db, after, tx.graph.advance, tx.ledger.t, receipt);
    ReceiptsStayTrue(read, c, db, tx, after);
    forall l, i: nat, r | At(read, db.audit, l, i, r) ensures r.node != receipt.node {
      ReceiptsNameNodes(db, r);
    }
  }

  lemma CommitKeepsNodesReceipted(read: Reader, c: Config, db: Db, tx: Tx, after: Db, lattice: Id, n0: nat, receipt: Receipt)
    requires Agrees(read, db) && Attempt(c, db, tx) == Some(after)
    requires ReceiptFor(db.graph, tx) == Some(receipt) && OneMore(read, db.audit, after.audit, lattice, n0, receipt)
    ensures forall n :: n in after.graph.nodes ==> Receipted(read, after.audit, n)
  {
    forall n | n in after.graph.nodes ensures Receipted(read, after.audit, n) {
      NodesAfter(db.graph, tx.graph, n);
      if n in db.graph.nodes {
        assert Receipted(read, db.audit, n);
        var l, i: nat, r :| At(read, db.audit, l, i, r) && r.node == n;
        assert At(read, after.audit, l, i, r);
      } else {
        assert At(read, after.audit, lattice, n0, receipt);
      }
    }
  }

  lemma WritingAddsOne(read: Reader, log: AuditLog, lattice: Id, row: EventRow, after: AuditLog, receipt: Receipt)
    requires lattice in log.events && after.events == log.events[lattice := log.events[lattice] + [row]]
    requires read(row) == Some(receipt)
    ensures OneMore(read, log, after, lattice, |log.events[lattice]|, receipt)
  {
    forall l, i: nat, r
      ensures At(read, after, l, i, r) <==>
                At(read, log, l, i, r) || (l == lattice && i == |log.events[lattice]| && r == receipt)
    {
      AtAfterWrite(read, log, lattice, row, after, l, i, r);
    }
  }

  lemma OneMoreIsStillOneEach(read: Reader, before: AuditLog, after: AuditLog, lattice: Id, n0: nat, receipt: Receipt)
    requires OneReceiptEach(read, before) && OneMore(read, before, after, lattice, n0, receipt)
    requires forall l, i: nat, r :: At(read, before, l, i, r) ==> r.node != receipt.node
    ensures OneReceiptEach(read, after)
  {
    forall l, i: nat, r, m, j: nat, s | At(read, after, l, i, r) && At(read, after, m, j, s) && r.node == s.node
      ensures l == m && i == j
    {
      if At(read, before, l, i, r) && At(read, before, m, j, s) {
      }
    }
  }

  /** A commit, whose event is its receipt. */
  lemma CommitAgrees(read: Reader, c: Config, db: Db, tx: Tx, after: Db, lattice: Id, row: EventRow, receipt: Receipt)
    requires DbSound(c, db) && Agrees(read, db) && Attempt(c, db, tx) == Some(after) && Safe(c, db, tx)
    requires ReceiptFor(db.graph, tx) == Some(receipt) && read(row) == Some(receipt)
    requires lattice in db.audit.events
    requires after.audit.events == db.audit.events[lattice := db.audit.events[lattice] + [row]]
    ensures Agrees(read, after)
  {
    var n0 := |db.audit.events[lattice]|;
    WritingAddsOne(read, db.audit, lattice, row, after.audit, receipt);
    CommitKeepsReceiptsTrue(read, c, db, tx, after, lattice, n0, receipt);
    CommitKeepsNodesReceipted(read, c, db, tx, after, lattice, n0, receipt);
    OneMoreIsStillOneEach(read, db.audit, after.audit, lattice, n0, receipt);
  }

  /** How a transaction leaves the logs. */
  lemma LogsAfter(c: Config, db: Db, tx: Tx, after: Db)
    requires AuditKept(c, db.audit) && Attempt(c, db, tx) == Some(after)
    ensures tx.entry.Silent? ==> after.audit == db.audit
    ensures tx.entry.NewLog? ==> after.audit == OpenLog(db.audit, tx.entry.lattice)
    ensures tx.entry.Event? ==>
              var w := tx.entry.write;
              && w.lattice in db.audit.heads && w.lattice in db.audit.events
              && after.audit.events == db.audit.events[w.lattice := db.audit.events[w.lattice]
                   + [NewRow(c.hash, c.writer, w.lattice, db.audit.heads[w.lattice], w.draft)]]
  {
  }

  lemma OpeningAddsNoReceipt(read: Reader, c: Config, log: AuditLog, lattice: Id)
    requires AuditKept(c, log)
    ensures SameReceipts(read, log, OpenLog(log, lattice))
  {
    assert lattice in log.heads <==> lattice in log.events;
  }

  lemma WritingAddsNone(read: Reader, log: AuditLog, lattice: Id, row: EventRow, after: AuditLog)
    requires lattice in log.events && after.events == log.events[lattice := log.events[lattice] + [row]]
    requires read(row) == None
    ensures SameReceipts(read, log, after)
  {
    forall l, i: nat, r ensures At(read, after, l, i, r) <==> At(read, log, l, i, r) {
      AtAfterWrite(read, log, lattice, row, after, l, i, r);
    }
  }

  lemma AttemptKeepsAgreement(read: Reader, c: Config, db: Db, tx: Tx, after: Db)
    requires DbSound(c, db) && Agrees(read, db) && Safe(c, db, tx) && WritesReceipt(read, c, db, tx)
    requires Attempt(c, db, tx) == Some(after)
    ensures Agrees(read, after)
  {
    LogsAfter(c, db, tx, after);
    if tx.entry.Event? {
      var w := tx.entry.write;
      var row := NewRow(c.hash, c.writer, w.lattice, db.audit.heads[w.lattice], w.draft);
      if tx.graph.Realise? {
        CommitAgrees(read, c, db, tx, after, w.lattice, row, ReceiptFor(db.graph, tx).value);
      } else {
        WritingAddsNone(read, db.audit, w.lattice, row, after.audit);
        QuietStepAgrees(read, c, db, tx, after);
      }
    } else {
      if tx.entry.NewLog? {
        OpeningAddsNoReceipt(read, c, db.audit, tx.entry.lattice);
      }
      QuietStepAgrees(read, c, db, tx, after);
    }
  }

  // ------------------------------------------------------------ reading receipts back

  /** What is needed of the reader: only commit events are receipts, and the
      event of a commit reads back as it was written. */
  ghost predicate ReadsReceipts(read: Reader, c: Config) {
    && (forall row: EventRow :: row.eventType != "branch_committed" ==> read(row) == None)
    && (forall k, oldHead, node, s, head: Head :: ReadsBack(read, c, k, oldHead, node, s, head))
  }

  ghost predicate ReadsBack(read: Reader, c: Config, k: Commit, oldHead: Option<Id>, node: Id, s: Stamp, head: Head) {
    read(NewRow(c.hash, c.writer, k.lattice, head, CommitWrite(c, k, oldHead, node, s).draft))
      == Some(Receipt(k.t, k.branch, node, oldHead, k.expectedVersion + 1))
  }

  function Reading(): Reader {
    row => ReceiptOf(row)
  }

  lemma CommitFieldsReadBack(c: Config, k: Commit, oldHead: Option<Id>, node: Id, s: Stamp)
    ensures var f := CommitWrite(c, k, oldHead, node, s).draft.data.fields;
            && TextAt(f, "transition_id") == Some(k.t) && TextAt(f, "branch_id") == Some(k.branch)
            && TextAt(f, "new_node_id") == Some(node) && TextAt(f, "old_head_id") == oldHead
            && "new_version" in f && f["new_version"] == Int(k.expectedVersion + 1)
  {
  }

  lemma CommitEventReadsBack(c: Config, k: Commit, oldHead: Option<Id>, node: Id, s: Stamp, row: EventRow)
    requires row.eventType == "branch_committed" && row.dataText == Dump(CommitWrite(c, k, oldHead, node, s).draft.data)
    ensures ReceiptOf(row) == Some(Receipt(k.t, k.branch, node, oldHead, k.expectedVersion + 1))
  {
    LoadReturnsWhatWasWritten(CommitWrite(c, k, oldHead, node, s).draft.data);
    CommitFieldsReadBack(c, k, oldHead, node, s);
  }

  lemma ReadingReadsReceipts(c: Config)
    ensures ReadsReceipts(Reading(), c)
  {
    forall k, oldHead, node, s, head: Head ensures ReadsBack(Reading(), c, k, oldHead, node, s, head) {
      var row := NewRow(c.hash, c.writer, k.lattice, head, CommitWrite(c, k, oldHead, node, s).draft);
      CommitEventReadsBack(c, k, oldHead, node, s, row);
    }
  }

  // ------------------------------------------------------------ every step

  ghost predicate OrdinaryEvent(e: LogEntry) {
    e.Event? ==> e.write.draft.eventType != "branch_committed"
  }

  lemma CallsWriteOrdinaryEvents(c: Config, db: Db, call: Call)
    requires CallTx(c, db, call).Some?
    ensures OrdinaryEvent(CallTx(c, db, call).value.entry) && !CallTx(c, db, call).value.graph.Realise?
  {
  }

  lemma CommitWritesReceipt(read: Reader, c: Config, db: Db, k: Commit, node: Id, edge: Id, s: Stamp)
    requires ReadsReceipts(read, c)
    ensures WritesReceipt(read, c, db, CommitTx(c, db, k, node, edge, s).value)
  {
    var oldHead := if k.branch in db.graph.branches then db.graph.branches[k.branch].head else None;
    if k.lattice in db.audit.heads {
      assert ReadsBack(read, c, k, oldHead, node, s, db.audit.heads[k.lattice]);
    }
  }

  lemma MovesWriteReceipts(read: Reader, c: Config, db: Db, proc: Proc, move: Move)
    requires ReadsReceipts(read, c) && MoveTx(c, db, proc, move).Some?
    ensures WritesReceipt(read, c, db, MoveTx(c, db, proc, move).value)
  {
    match move
    case CommitRun(node, edge, s, _) => CommitWritesReceipt(read, c, db, proc.commit, node, edge, s);
    case CommitReview(node, edge, s, _) => CommitWritesReceipt(read, c, db, proc.commit, node, edge, s);
    case _ =>
  }

  lemma PlansWriteReceipts(read: Reader, c: Config, w: World, step: Step)
    requires ReadsReceipts(read, c) && Plan(c, w, step).Some?
    ensures WritesReceipt(read, c, w.db, Plan(c, w, step).value)
  {
    match step
    case Ask(call) => CallsWriteOrdinaryEvents(c, w.db, call);
    case Execute(_, _) =>
    case Go(p, move) => MovesWriteReceipts(read, c, w.db, w.procs[p], move);
  }

  lemma StepKeepsAgreement(read: Reader, c: Config, w: World, step: Step)
    requires Inv(c, w) && ReadsReceipts(read, c) && Agrees(read, w.db)
    ensures Agrees(read, Apply(c, w, step).db)
  {
    var tx := Plan(c, w, step);
    if Commits(c, w.db, tx) {
      PlanIsSafe(c, w, step);
      PlansWriteReceipts(read, c, w, step);
      AttemptKeepsAgreement(read, c, w.db, tx.value, Attempt(c, w.db, tx.value).value);
    }
  }

  lemma {:induction false} RunKeepsAgreement(read: Reader, c: Config, w: World, steps: seq<Step>)
    requires Proper(c) && Inv(c, w) && ReadsReceipts(read, c) && Agrees(read, w.db)
    ensures Agrees(read, Run(c, w, steps).db)
  {
    if steps != [] {
      var n := |steps| - 1;
      RunKeepsAgreement(read, c, w, steps[..n]);
      RunKeepsInv(c, w, steps[..n]);
      StepKeepsAgreement(read, c, Run(c, w, steps[..n]), steps[n]);
    }
  }

  /** In every reachable state the audit logs and the graph agree: every commit
      event is true of the history, down to the place of its node, the head
      before it and the version after it; every node has exactly one. */
  lemma LogsTellTheHistory(c: Config, steps: seq<Step>)
    requires Proper(c)
    ensures Agrees(Reading(), Run(c, START, steps).db)
  {
    StartIsSound(c);
    ReadingReadsReceipts(c);
    assert Agrees(Reading(), START.db);
    RunKeepsAgreement(Reading(), c, START, steps);
  }
}
