/** The inductive invariant of the protocol: what every step keeps, whatever
    steps of other activities come in between. */
module ProtocolInvariant {
  import opened Wrappers
  import opened Canonical
  import opened Audit
  import opened Stages
  import opened Tokens
  import opened Transactions
  import opened Protocol
  import opened LedgerTheorems
  import G = Graph
  import L = Ledger

  // ------------------------------------------------------------ the database

  ghost predicate AuditKept(c: Config, log: AuditLog) {
    && log.events.Keys == log.heads.Keys
    && forall l :: l in log.heads ==> WellKept(c.hash, l, log.heads[l], log.events[l])
  }

  /** The node that a transition names as its result was made for it. */
  ghost predicate ResultFits(db: Db, row: L.Transition)
    requires row.toNode.Some?
  {
    && row.toNode.value in db.graph.nodes
    && var node := db.graph.nodes[row.toNode.value];
       node.branch == row.branch && node.agent == row.agent && row.summary == Some(node.description)
  }

  ghost predicate Produced(l: L.Ledger, n: Id) {
    exists t :: t in l.transitions && l.transitions[t].toNode == Some(n)
  }

  /** Nodes and results are in bijection. */
  ghost predicate Conserved(db: Db) {
    var rows := db.ledger.transitions;
    && (forall t :: t in rows ==> rows[t].branch in db.graph.branches)
    && (forall t :: t in rows && rows[t].toNode.Some? ==> ResultFits(db, rows[t]))
    && (forall t, u :: t in rows && u in rows && rows[t].toNode.Some? && rows[t].toNode == rows[u].toNode ==> t == u)
    && (forall n :: n in db.graph.nodes ==> Produced(db.ledger, n))
  }

  function Hasher(c: Config): Token -> string {
    t => TokenHash(c, t)
  }

  ghost predicate LedgerSound(c: Config, l: L.Ledger) {
    Listed(l) && Approvals(l) && Outcomes(l) && ClaimsFit(l) && HashesFit(l, Hasher(c), c.seal) && KeysFit(l, c.keyIndex)
  }

  ghost predicate DbSound(c: Config, db: Db) {
    G.Sound(db.graph) && LedgerSound(c, db.ledger) && AuditKept(c, db.audit) && Conserved(db)
  }

  // ------------------------------------------------------------ transactions

  /** How the graph part and the ledger part of one transaction belong together. */
  ghost predicate Coupled(db: Db, tx: Tx) {
    && (tx.graph.Realise? <==> tx.ledger.Succeeding?)
    && (tx.ledger.Opening? ==> tx.ledger.proposal.branch in db.graph.branches)
    && (tx.graph.Realise? ==>
          var a := tx.graph.advance;
          && tx.ledger.node == a.node && tx.ledger.summary == a.description
          && (tx.ledger.t in db.ledger.transitions ==>
                && db.ledger.transitions[tx.ledger.t].branch == a.branch
                && db.ledger.transitions[tx.ledger.t].agent == a.agent))
  }

  ghost predicate Safe(c: Config, db: Db, tx: Tx) {
    && L.Disciplined(db.ledger, tx.ledger)
    && (tx.ledger.Opening? ==> tx.ledger.keyIndex == c.keyIndex && MayInsert(db.ledger, tx.ledger.proposal.key))
    && (tx.ledger.Issuing? ==>
          && tx.ledger.tokenHash == TokenHash(c, tx.ledger.token)
          && tx.ledger.token.policySetHash == c.seal(tx.ledger.token.versions))
    && Coupled(db, tx)
  }

  lemma RecordKeepsAudit(c: Config, log: AuditLog, e: LogEntry)
    requires AuditKept(c, log) && Record(c, log, e).Some?
    ensures AuditKept(c, Record(c, log, e).value)
  {
    var after := Record(c, log, e).value;
    match e
    case Silent =>
    case Event(w) =>
      assert WellKept(c.hash, w.lattice, log.heads[w.lattice], log.events[w.lattice]);
      WritingKeepsLogWellKept(c.hash, c.writer, w.lattice, log.heads[w.lattice], log.events[w.lattice], w.draft);
    case NewLog(lattice) =>
      assert lattice !in log.heads ==> WellKept(c.hash, lattice, Head(0, GENESIS), []);
  }

  lemma LedgerStepIsSound(c: Config, l: L.Ledger, op: L.Op)
    requires LedgerSound(c, l) && L.Disciplined(l, op)
    requires op.Opening? ==> op.keyIndex == c.keyIndex && MayInsert(l, op.proposal.key)
    requires op.Issuing? ==>
               op.tokenHash == TokenHash(c, op.token) && op.token.policySetHash == c.seal(op.token.versions)
    ensures LedgerSound(c, L.Perform(l, op))
  {
    PerformKeepsListed(l, op);
    PerformKeepsApprovals(l, op);
    PerformKeepsOutcomes(l, op);
    PerformKeepsClaims(l, op);
    PerformKeepsHashes(l, op, Hasher(c), c.seal);
    PerformKeepsKeys(l, op, c.keyIndex);
  }

  /** An operation other than success leaves results as they are. */
  lemma ResultsStay(l: L.Ledger, op: L.Op, t: Id)
    requires Outcomes(l) && !op.Succeeding? && t in L.Perform(l, op).transitions
    ensures var m := L.Perform(l, op);
            && (t in l.transitions ==> m.transitions[t].toNode == l.transitions[t].toNode)
            && (t in l.transitions && m.transitions[t].toNode.Some? ==> m.transitions[t].summary == l.transitions[t].summary)
            && (t !in l.transitions ==> m.transitions[t].toNode.None?)
  {
    if t in l.transitions {
      assert OutcomeFits(l.transitions[t]);
    }
  }

  lemma OrdinaryStepConserves(before: Db, after: Db, lop: L.Op)
    requires Conserved(before) && Outcomes(before.ledger) && !lop.Succeeding?
    requires after.ledger == L.Perform(before.ledger, lop)
    requires after.graph.nodes == before.graph.nodes
    requires forall b :: b in before.graph.branches ==> b in after.graph.branches
    requires lop.Opening? ==> lop.proposal.branch in before.graph.branches
    ensures Conserved(after)
  {
    var l, m := before.ledger, after.ledger;
    EveryOperationMovesLegally(l, lop);
    forall t | t in m.transitions
      ensures t in l.transitions ==> m.transitions[t].toNode == l.transitions[t].toNode
      ensures m.transitions[t].toNode.Some? ==> t in l.transitions && ResultFits(after, m.transitions[t])
      ensures m.transitions[t].branch in after.graph.branches
    {
      ResultsStay(l, lop, t);
      if t in l.transitions {
        assert RowMoves(l.transitions[t], m.transitions[t]);
      }
    }
    forall n | n in after.graph.nodes ensures Produced(m, n) {
      assert Produced(l, n);
      var t :| t in l.transitions && l.transitions[t].toNode == Some(n);
      assert t in m.transitions && m.transitions[t].toNode == Some(n);
    }
  }

  lemma CommitConserves(before: Db, after: Db, a: G.Advance, t: Id)
    requires Conserved(before) && Outcomes(before.ledger)
    requires G.AdvanceBranch(before.graph, a) == Some(after.graph)
    requires L.Succeed(before.ledger, t, a.node, a.description) == Some(after.ledger)
    requires before.ledger.transitions[t].branch == a.branch && before.ledger.transitions[t].agent == a.agent
    ensures Conserved(after)
  {
    var l, m := before.ledger, after.ledger;
    G.AdvanceShape(before.graph, a);
    assert OutcomeFits(l.transitions[t]);
    forall u | u in m.transitions
      ensures m.transitions[u].branch in after.graph.branches
      ensures m.transitions[u].toNode.Some? ==> ResultFits(after, m.transitions[u])
      ensures m.transitions[u].toNode == Some(a.node) ==> u == t
    {
      if u != t && m.transitions[u].toNode.Some? {
        assert ResultFits(before, l.transitions[u]);
      }
    }
    forall n | n in after.graph.nodes ensures Produced(m, n) {
      if n == a.node {
        assert m.transitions[t].toNode == Some(n);
      } else {
        assert Produced(l, n);
        var u :| u in l.transitions && l.transitions[u].toNode == Some(n);
        assert u in m.transitions && m.transitions[u].toNode == Some(n);
      }
    }
  }

  lemma GraphStepKeepsNodes(g: G.Graph, op: G.Op)
    requires !op.Realise? && G.Attempt(g, op).Some?
    ensures G.Attempt(g, op).value.nodes == g.nodes
    ensures forall b :: b in g.branches ==> b in G.Attempt(g, op).value.branches
  {
  }

  /** A safe transaction that commits keeps the database sound. */
  lemma AttemptKeepsSound(c: Config, db: Db, tx: Tx)
    requires DbSound(c, db) && Safe(c, db, tx) && Attempt(c, db, tx).Some?
    ensures DbSound(c, Attempt(c, db, tx).value)
  {
    var after := Attempt(c, db, tx).value;
    G.PerformKeepsSound(db.graph, tx.graph);
    LedgerStepIsSound(c, db.ledger, tx.ledger);
    RecordKeepsAudit(c, db.audit, tx.entry);
    if tx.graph.Realise? {
      CommitConserves(db, after, tx.graph.advance, tx.ledger.t);
    } else {
      GraphStepKeepsNodes(db.graph, tx.graph);
      OrdinaryStepConserves(db, after, tx.ledger);
    }
  }

  // ------------------------------------------------------------ activities

  /** The transition that an activity is executing. */
  function Executes(p: Proc): Option<Id> {
    match p
    case Claimed(token) => Some(token.transition)
    case Ran(token, _, _) => Some(token.transition)
    case Ready(k) => Some(k.t)
    case CommitLost(t) => Some(t)
    case _ => None
  }

  ghost predicate CommitFits(l: L.Ledger, k: Commit) {
    k.t in l.transitions && l.transitions[k.t].branch == k.branch && l.transitions[k.t].agent == k.agent
  }

  ghost predicate ProcFits(l: L.Ledger, p: Proc) {
    && (Executes(p).Some? ==> Executes(p).value in l.transitions && PastClaim(l.transitions[Executes(p).value].stage))
    && match p
       case Ready(k) => CommitFits(l, k)
       case Reviewing(t, row, _, _, _) =>
         && t in l.transitions && Reviewable(l.transitions[t].stage)
         && row.branch == l.transitions[t].branch && row.agent == l.transitions[t].agent
       case ReviewReady(k, _) => CommitFits(l, k) && Reviewable(l.transitions[k.t].stage)
       case ReviewLost(k) => CommitFits(l, k) && Reviewable(l.transitions[k.t].stage)
       case ReviewDone(k, _) => CommitFits(l, k) && l.transitions[k.t].stage.Succeeded?
       case _ => true
  }

  /** No two activities execute one transition. */
  ghost predicate Exclusive(procs: map<Id, Proc>) {
    forall p, q :: p in procs && q in procs && Executes(procs[p]).Some? && Executes(procs[p]) == Executes(procs[q]) ==>
      p == q
  }

  ghost predicate ProcsFit(l: L.Ledger, procs: map<Id, Proc>) {
    (forall p :: p in procs ==> ProcFits(l, procs[p])) && Exclusive(procs)
  }

  /** No transition has been run twice, and of those being executed exactly the
      ones still to be run have not been run. */
  ghost predicate RunsFit(l: L.Ledger, procs: map<Id, Proc>, runs: seq<Id>) {
    && (forall i, j :: 0 <= i < j < |runs| ==> runs[i] != runs[j])
    && (forall t :: t in runs ==> t in l.transitions && PastClaim(l.transitions[t].stage))
    && (forall p :: p in procs && Executes(procs[p]).Some? ==>
          (procs[p].Claimed? <==> Executes(procs[p]).value !in runs))
  }

  ghost predicate Inv(c: Config, w: World) {
    && DbSound(c, w.db)
    && ProcsFit(w.db.ledger, w.procs)
    && RunsFit(w.db.ledger, w.procs, w.runs)
  }

  // ------------------------------------------------------------ safety of plans

  lemma CommitPlanIsSafe(c: Config, db: Db, k: Commit, node: Id, edge: Id, s: Stamp)
    requires CommitFits(db.ledger, k)
    ensures Safe(c, db, CommitTx(c, db, k, node, edge, s).value)
  {
  }

  lemma ProposePlanIsSafe(c: Config, db: Db, p: Propose, s: Stamp)
    requires ProposeTx(c, db, p, s).Some? && Listed(db.ledger)
    ensures Safe(c, db, ProposeTx(c, db, p, s).value)
  {
    ExistingIsNewest(db.ledger, db.ledger.order, p.proposal.key);
  }

  lemma CallPlanIsSafe(c: Config, db: Db, call: Call)
    requires Listed(db.ledger) && CallTx(c, db, call).Some?
    ensures Safe(c, db, CallTx(c, db, call).value)
  {
    if call.ProposeAction? {
      ProposePlanIsSafe(c, db, call.propose, call.stamp);
    }
  }

  lemma MovePlanIsSafe(c: Config, db: Db, proc: Proc, move: Move)
    requires ProcFits(db.ledger, proc) && MoveTx(c, db, proc, move).Some?
    ensures Safe(c, db, MoveTx(c, db, proc, move).value)
  {
    match move
    case CommitRun(node, edge, s, _) => CommitPlanIsSafe(c, db, proc.commit, node, edge, s);
    case CommitReview(node, edge, s, _) => CommitPlanIsSafe(c, db, proc.commit, node, edge, s);
    case _ =>
  }

  lemma PlanIsSafe(c: Config, w: World, step: Step)
    requires Inv(c, w) && Plan(c, w, step).Some?
    ensures Safe(c, w.db, Plan(c, w, step).value)
  {
    match step
    case Ask(call) => CallPlanIsSafe(c, w.db, call);
    case Execute(_, _) =>
    case Go(p, move) => MovePlanIsSafe(c, w.db, w.procs[p], move);
  }

  lemma PerformKeepsSound(c: Config, db: Db, tx: Option<Tx>)
    requires DbSound(c, db) && (tx.Some? ==> Safe(c, db, tx.value))
    ensures DbSound(c, Perform(c, db, tx)) && Moves(db.ledger, Perform(c, db, tx).ledger)
  {
    if Commits(c, db, tx) {
      AttemptKeepsSound(c, db, tx.value);
      EveryOperationMovesLegally(db.ledger, tx.value.ledger);
    }
  }

  // ------------------------------------------------------------ activities go on

  lemma ProcKeepsFitting(l: L.Ledger, m: L.Ledger, p: Proc)
    requires ProcFits(l, p) && Moves(l, m)
    ensures ProcFits(m, p)
  {
    assert forall t :: t in l.transitions ==> RowMoves(l.transitions[t], m.transitions[t]);
  }

  lemma ActivitiesKeepFitting(l: L.Ledger, m: L.Ledger, procs: map<Id, Proc>, runs: seq<Id>)
    requires ProcsFit(l, procs) && RunsFit(l, procs, runs) && Moves(l, m)
    ensures ProcsFit(m, procs) && RunsFit(m, procs, runs)
  {
    assert forall t :: t in l.transitions ==> RowMoves(l.transitions[t], m.transitions[t]);
    forall p | p in procs ensures ProcFits(m, procs[p]) {
      ProcKeepsFitting(l, m, procs[p]);
    }
  }

  /** An activity goes on to a state that executes what it executed, or nothing. */
  lemma ReplaceKeepsFitting(l: L.Ledger, procs: map<Id, Proc>, runs: seq<Id>, p: Id, next: Proc)
    requires ProcsFit(l, procs) && RunsFit(l, procs, runs) && p in procs
    requires ProcFits(l, next)
    requires Executes(next).Some? ==> Executes(next) == Executes(procs[p]) && next.Claimed? == procs[p].Claimed?
    ensures ProcsFit(l, procs[p := next]) && RunsFit(l, procs[p := next], runs)
  {
  }

  lemma DropKeepsFitting(l: L.Ledger, procs: map<Id, Proc>, runs: seq<Id>, p: Id)
    requires ProcsFit(l, procs) && RunsFit(l, procs, runs)
    ensures ProcsFit(l, procs - {p}) && RunsFit(l, procs - {p}, runs)
  {
  }

  /** A claim that gets as far as a transaction is of the very text and token
      that were issued, field by field. */
  lemma ClaimIsOfTheIssuedToken(c: Config, db: Db, p: Presented, token: Token)
    requires Proper(c) && HashesFit(db.ledger, Hasher(c), c.seal) && ClaimTx(c, db, p).Some?
    requires VerifyToken(c.codec, p.text, p.now) == Some(token)
    ensures token.authorization in db.ledger.authorizations
    ensures db.ledger.authorizations[token.authorization].token == token && p.text == c.codec.write(token)
  {
    var issued := db.ledger.authorizations[token.authorization].token;
    assert c.hash(p.text) == Hasher(c)(issued) == c.hash(c.codec.write(issued));
    StoredHashFixesToken(c.hash, c.codec, issued, p.text);
  }

  /** The claim itself: only an authorized transition, which becomes executing. */
  lemma ClaimMovesTransition(c: Config, db: Db, p: Presented, token: Token, after: Db)
    requires ClaimTx(c, db, p).Some? && Attempt(c, db, ClaimTx(c, db, p).value) == Some(after)
    requires VerifyToken(c.codec, p.text, p.now) == Some(token)
    ensures var t := db.ledger.authorizations[token.authorization].token.transition;
            && t in db.ledger.transitions && db.ledger.transitions[t].stage.Authorized?
            && t in after.ledger.transitions && after.ledger.transitions[t].stage.Executing?
  {
    assert L.Claim(db.ledger, token.authorization) == Some(after.ledger);
  }

  lemma NewExecutorFits(l: L.Ledger, m: L.Ledger, procs: map<Id, Proc>, runs: seq<Id>, p: Id, token: Token)
    requires ProcsFit(l, procs) && RunsFit(l, procs, runs) && Moves(l, m) && p !in procs
    requires token.transition in l.transitions && l.transitions[token.transition].stage.Authorized?
    requires token.transition in m.transitions && m.transitions[token.transition].stage.Executing?
    ensures ProcsFit(m, procs[p := Claimed(token)]) && RunsFit(m, procs[p := Claimed(token)], runs)
  {
    ActivitiesKeepFitting(l, m, procs, runs);
    assert forall q :: q in procs ==> ProcFits(l, procs[q]);
    assert token.transition !in runs;
  }

  lemma ExecuteKeepsActivities(c: Config, w: World, p: Id, presented: Presented, tx: Option<Tx>, after: Db)
    requires Proper(c) && HashesFit(w.db.ledger, Hasher(c), c.seal) && p !in w.procs
    requires ProcsFit(w.db.ledger, w.procs) && RunsFit(w.db.ledger, w.procs, w.runs)
    requires tx == ClaimTx(c, w.db, presented) && tx.Some? && Attempt(c, w.db, tx.value) == Some(after)
    requires Moves(w.db.ledger, after.ledger)
    ensures var procs := Activities(c, w, Execute(p, presented), true);
            ProcsFit(after.ledger, procs) && RunsFit(after.ledger, procs, w.runs)
  {
    var token := VerifyToken(c.codec, presented.text, presented.now).value;
    ClaimIsOfTheIssuedToken(c, w.db, presented, token);
    ClaimMovesTransition(c, w.db, presented, token, after);
    NewExecutorFits(w.db.ledger, after.ledger, w.procs, w.runs, p, token);
  }

  lemma CommittedSucceeded(c: Config, db: Db, k: Commit, node: Id, edge: Id, s: Stamp, after: Db)
    requires Attempt(c, db, CommitTx(c, db, k, node, edge, s).value) == Some(after)
    ensures k.t in after.ledger.transitions && after.ledger.transitions[k.t].stage.Succeeded?
  {
  }

  /** What an activity goes on to still fits. */
  lemma NextFits(db: Db, proc: Proc, move: Move, done: bool, m: L.Ledger)
    requires ProcFits(db.ledger, proc) && Moves(db.ledger, m) && (!move.RunAdapter? || !proc.Claimed?)
    requires done && proc.ReviewReady? && move.CommitReview? ==>
               proc.commit.t in m.transitions && m.transitions[proc.commit.t].stage.Succeeded?
    ensures var next := Next(db, proc, move, done);
            next.Some? ==>
              && ProcFits(m, next.value)
              && (Executes(next.value).Some? ==>
                    Executes(next.value) == Executes(proc) && next.value.Claimed? == proc.Claimed?)
  {
    ProcKeepsFitting(db.ledger, m, proc);
    if move.ReadHead? && proc.Ran? {
      var t := proc.token.transition;
      var k := CommitFor(db, t, db.ledger.transitions[t], proc.summary, Overrides(None, None, None));
      ProcKeepsFitting(db.ledger, m, Ready(k));
    }
    if move.ReadForReview? && proc.Reviewing? {
      var k := CommitFor(db, proc.t, proc.row, proc.description, proc.overrides);
      ProcKeepsFitting(db.ledger, m, ReviewReady(k, proc.summary));
    }
  }

  lemma RunKeepsActivities(l: L.Ledger, procs: map<Id, Proc>, runs: seq<Id>, p: Id, outcome: Outcome, summary: string)
    requires ProcsFit(l, procs) && RunsFit(l, procs, runs) && p in procs && procs[p].Claimed?
    ensures var after := procs[p := Ran(procs[p].token, outcome, summary)];
            ProcsFit(l, after) && RunsFit(l, after, runs + [procs[p].token.transition])
  {
    var t := procs[p].token.transition;
    assert ProcFits(l, procs[p]);
    forall q | q in procs && q != p && Executes(procs[q]).Some? ensures Executes(procs[q]).value != t {
      assert Executes(procs[p]).Some?;
    }
  }

  lemma GoKeepsActivities(c: Config, w: World, p: Id, move: Move, tx: Option<Tx>, after: Db)
    requires ProcsFit(w.db.ledger, w.procs) && p in w.procs
    requires ProcsFit(after.ledger, w.procs) && RunsFit(after.ledger, w.procs, w.runs)
    requires tx == MoveTx(c, w.db, w.procs[p], move) && after == Perform(c, w.db, tx)
    requires Moves(w.db.ledger, after.ledger) && (!move.RunAdapter? || !w.procs[p].Claimed?)
    ensures var procs := Put(w.procs, p, Next(w.db, w.procs[p], move, Commits(c, w.db, tx)));
            ProcsFit(after.ledger, procs) && RunsFit(after.ledger, procs, w.runs)
  {
    var proc, done := w.procs[p], Commits(c, w.db, tx);
    if done && proc.ReviewReady? && move.CommitReview? {
      CommittedSucceeded(c, w.db, proc.commit, move.node, move.edge, move.stamp, after);
    }
    NextFits(w.db, proc, move, done, after.ledger);
    var next := Next(w.db, proc, move, done);
    if next.Some? {
      ReplaceKeepsFitting(after.ledger, w.procs, w.runs, p, next.value);
    } else {
      DropKeepsFitting(after.ledger, w.procs, w.runs, p);
    }
  }

  lemma ReviewKeepsActivities(c: Config, w: World, step: Step)
    requires ProcsFit(w.db.ledger, w.procs) && RunsFit(w.db.ledger, w.procs, w.runs) && step.Review?
    ensures var procs := Activities(c, w, step, false);
            ProcsFit(w.db.ledger, procs) && RunsFit(w.db.ledger, procs, w.runs)
  {
  }

  lemma StepKeepsActivities(c: Config, w: World, step: Step, tx: Option<Tx>, after: Db)
    requires Proper(c) && HashesFit(w.db.ledger, Hasher(c), c.seal)
    requires ProcsFit(w.db.ledger, w.procs) && RunsFit(w.db.ledger, w.procs, w.runs)
    requires tx == Plan(c, w, step) && after == Perform(c, w.db, tx) && Moves(w.db.ledger, after.ledger)
    ensures var procs := Activities(c, w, step, Commits(c, w.db, tx));
            ProcsFit(after.ledger, procs) && RunsFit(after.ledger, procs, w.runs + NewRuns(w, step))
  {
    ActivitiesKeepFitting(w.db.ledger, after.ledger, w.procs, w.runs);
    assert w.runs + [] == w.runs;
    match step
    case Ask(_) =>
    case Execute(p, presented) =>
      if p !in w.procs && Commits(c, w.db, tx) {
        ExecuteKeepsActivities(c, w, p, presented, tx, after);
      }
    case Review(_, _, _, _, _) => ReviewKeepsActivities(c, w, step);
    case Go(p, move) =>
      if p in w.procs {
        if move.RunAdapter? && w.procs[p].Claimed? {
          RunKeepsActivities(after.ledger, w.procs, w.runs, p, move.outcome, move.summary);
        } else {
          GoKeepsActivities(c, w, p, move, tx, after);
        }
      }
  }

  /** Every step of anybody keeps the invariant. */
  lemma ApplyKeepsInv(c: Config, w: World, step: Step)
    requires Proper(c) && Inv(c, w)
    ensures Inv(c, Apply(c, w, step)) && Moves(w.db.ledger, Apply(c, w, step).db.ledger)
  {
    var tx := Plan(c, w, step);
    if tx.Some? {
      PlanIsSafe(c, w, step);
    }
    PerformKeepsSound(c, w.db, tx);
    StepKeepsActivities(c, w, step, tx, Perform(c, w.db, tx));
  }

  lemma EmptyGraphIsSound()
    ensures G.Sound(G.EMPTY)
  {
  }

  lemma StartIsSound(c: Config)
    ensures Inv(c, START)
  {
    EmptyGraphIsSound();
    assert LedgerSound(c, L.NOTHING);
  }

  /** Every reachable state satisfies the invariant. */
  lemma {:induction false} RunKeepsInv(c: Config, w: World, steps: seq<Step>)
    requires Proper(c) && Inv(c, w)
    ensures Inv(c, Run(c, w, steps))
  {
    if steps != [] {
      RunKeepsInv(c, w, steps[..|steps| - 1]);
      ApplyKeepsInv(c, Run(c, w, steps[..|steps| - 1]), steps[|steps| - 1]);
    }
  }
}
