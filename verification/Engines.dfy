/** The engines, call by call: each runs its statements one after the other on
    the database and rolls back when one of them fails. What a call does to the
    database is exactly its transaction, all of it or nothing. */
module Engines {
  import opened Wrappers
  import opened JsonText
  import opened Audit
  import opened Stages
  import opened Tokens
  import opened Transactions
  import opened Database
  import G = Graph
  import L = Ledger

  /** Creation of projects and branches, and of audit heads. */
  class ProjectAdmin {
    const db: Database

    constructor (db: Database)
      ensures this.db == db
    {
      this.db := db;
    }

    method CreateProject(c: Config, project: Id, lattice: Id, branch: Id) returns (ok: bool)
      modifies db
      ensures db.State() == Perform(c, old(db.State()), Some(Tx(G.NewLattice(project, lattice, branch), L.Keep, Silent)))
      ensures ok == Commits(c, old(db.State()), Some(Tx(G.NewLattice(project, lattice, branch), L.Keep, Silent)))
    {
      var snapshot := db.State();
      ok := db.InsertLattice(lattice, project);
      if ok {
        ok := db.InsertBranch(branch, lattice, None);
        if !ok {
          db.Rollback(snapshot);
        }
      }
    }

    /** Set up the audit head of a lattice, if it has none. */
    method InitAudit(c: Config, lattice: Id) returns (ok: bool)
      modifies db
      ensures db.State() == Perform(c, old(db.State()), InitAuditTx(old(db.State()), lattice))
    {
      ok := lattice in db.lattices;
      if ok {
        db.OpenLog(lattice);
      }
    }

    method CreateBranch(c: Config, branch: Id, lattice: Id, from: Option<Id>) returns (ok: bool)
      modifies db
      ensures db.State() == Perform(c, old(db.State()), Some(Tx(G.NewBranch(branch, lattice, from), L.Keep, Silent)))
      ensures ok == Commits(c, old(db.State()), Some(Tx(G.NewBranch(branch, lattice, from), L.Keep, Silent)))
    {
      var head: Option<Id> := None;
      if from.Some? && from.value in db.branches && db.branches[from.value].lattice == lattice {
        head := db.branches[from.value].head;
      }
      ok := db.InsertBranch(branch, lattice, head);
    }
  }

  lemma CommitRefused(c: Config, db: Db, k: Commit, node: Id, edge: Id, s: Stamp)
    requires !L.Committable(db.ledger, k.t) || G.AdvanceBranch(db.graph, AdvanceOf(k, node, edge)).None?
          || k.lattice !in db.audit.heads
    ensures Perform(c, db, CommitTx(c, db, k, node, edge, s)) == db
    ensures !Commits(c, db, CommitTx(c, db, k, node, edge, s))
  {
  }

  lemma CommitAccepted(c: Config, db: Db, k: Commit, head: Option<Id>, node: Id, edge: Id, s: Stamp, after: Db)
    requires head == if k.branch in db.graph.branches then db.graph.branches[k.branch].head else None
    requires G.AdvanceBranch(db.graph, AdvanceOf(k, node, edge)) == Some(after.graph)
    requires L.Succeed(db.ledger, k.t, node, k.description) == Some(after.ledger)
    requires WriteEvent(c, db.audit, CommitWrite(c, k, head, node, s)) == Some(after.audit)
    ensures Perform(c, db, CommitTx(c, db, k, node, edge, s)) == after
    ensures Commits(c, db, CommitTx(c, db, k, node, edge, s))
  {
  }

  /** The nine-step commit. */
  class BranchCommitter {
    const db: Database

    constructor (db: Database)
      ensures this.db == db
    {
      this.db := db;
    }

    method Commit(c: Config, k: Commit, node: Id, edge: Id, s: Stamp) returns (ok: bool)
      modifies db
      ensures db.State() == Perform(c, old(db.State()), CommitTx(c, old(db.State()), k, node, edge, s))
      ensures ok == Commits(c, old(db.State()), CommitTx(c, old(db.State()), k, node, edge, s))
    {
      var snapshot := db.State();
      // 1. and 2.
      var current, stage, head := CheckCurrent(k);
      if !current {
        CommitRefused(c, snapshot, k, node, edge, s);
        return false;
      }
      // 3. to 8.
      ok := Realise(k, head, node, edge, stage);
      if !ok {
        CommitRefused(c, snapshot, k, node, edge, s);
        db.Rollback(snapshot);
        return;
      }
      // 9. audit event
      ok := db.WriteEvent(c, CommitWrite(c, k, head, node, s));
      if !ok {
        CommitRefused(c, snapshot, k, node, edge, s);
        db.Rollback(snapshot);
      } else {
        CommitAccepted(c, snapshot, k, head, node, edge, s, db.State());
      }
    }

    /** The stage of the transition, and the head and version of the branch. */
    method CheckCurrent(k: Commit) returns (ok: bool, stage: Stage, head: Option<Id>)
      ensures head == if k.branch in db.branches then db.branches[k.branch].head else None
      ensures !ok ==> !L.Committable(db.LedgerTables(), k.t) || G.HeadIsStale(db.GraphTables(), AdvanceOf(k, "", ""))
      ensures ok ==> L.Committable(db.LedgerTables(), k.t) && stage == db.transitions[k.t].stage && Fresh(k, head)
    {
      var version: int;
      head, version := db.GetHead(k.branch);
      stage := Proposed;
      if k.t !in db.transitions || db.transitions[k.t].stage !in {Executing, Uncertain} {
        return false, stage, head;
      }
      stage := db.transitions[k.t].stage;
      if k.expectedHead.Some? && head != k.expectedHead {
        return false, stage, head;
      }
      if version != k.expectedVersion {
        return false, stage, head;
      }
      return true, stage, head;
    }

    predicate Fresh(k: Commit, head: Option<Id>)
      reads db
    {
      && (k.branch in db.branches ==>
            head == db.branches[k.branch].head && k.expectedVersion == db.branches[k.branch].version)
      && (k.expectedHead.Some? ==> head == k.expectedHead)
    }

    /** 3. to 7. node, edge, status of the old head, head and version;
        8. result and stage. */
    method Realise(k: Commit, head: Option<Id>, node: Id, edge: Id, stage: Stage) returns (ok: bool)
      requires L.Committable(db.LedgerTables(), k.t) && stage == db.transitions[k.t].stage && Fresh(k, head)
      modifies db
      ensures ok == G.AdvanceBranch(old(db.GraphTables()), AdvanceOf(k, node, edge)).Some?
      ensures ok ==>
                && G.AdvanceBranch(old(db.GraphTables()), AdvanceOf(k, node, edge)) == Some(db.GraphTables())
                && L.Succeed(old(db.LedgerTables()), k.t, node, k.description) == Some(db.LedgerTables())
                && db.AuditTables() == old(db.AuditTables())
    {
      ok := ExtendGraph(k, head, node, edge);
      if ok {
        ok := RecordSuccess(k, node, stage);
      }
    }

    method RecordSuccess(k: Commit, node: Id, stage: Stage) returns (ok: bool)
      requires k.t in db.transitions && db.transitions[k.t].stage == stage && stage in {Executing, Uncertain}
      modifies db
      ensures ok && L.Succeed(old(db.LedgerTables()), k.t, node, k.description) == Some(db.LedgerTables())
      ensures db.State() == old(db.State()).(ledger := db.LedgerTables())
    {
      ghost var rows := db.transitions;
      db.UpdateResult(k.t, L.Success, k.description, Some(node));
      ok := db.UpdateStage(k.t, Succeeded, Some(stage));
      assert db.transitions == rows[k.t := db.transitions[k.t]];
    }

    /** Insert the node and the edge from the old head, mark the old head
        superseded, and move the head on. */
    method ExtendGraph(k: Commit, head: Option<Id>, node: Id, edge: Id) returns (ok: bool)
      requires Fresh(k, head)
      modifies db
      ensures var g := G.AdvanceBranch(old(db.GraphTables()), AdvanceOf(k, node, edge));
              ok == g.Some? && (ok ==> db.State() == old(db.State()).(graph := g.value))
    {
      ok := db.InsertNode(node, G.Node(k.branch, k.agent, k.description, G.Committed));
      if !ok {
        return;
      }
      if head.Some? {
        ok := db.InsertEdge(edge, G.Edge(head.value, node, "dependency"));
        if !ok {
          return;
        }
        db.MarkSuperseded(head.value);
      }
      ok := db.UpdateHead(k.branch, node, k.expectedVersion);
    }
  }

  lemma LedgerChangeRefused(c: Config, db: Db, op: L.Op, entry: LogEntry)
    requires L.Attempt(db.ledger, op).None? || Record(c, db.audit, entry).None?
    ensures Perform(c, db, Some(Tx(G.Keep, op, entry))) == db && !Commits(c, db, Some(Tx(G.Keep, op, entry)))
  {
  }

  lemma LedgerChangeAccepted(c: Config, db: Db, op: L.Op, entry: LogEntry, after: Db)
    requires after.graph == db.graph && L.Attempt(db.ledger, op) == Some(after.ledger)
    requires Record(c, db.audit, entry) == Some(after.audit)
    ensures Perform(c, db, Some(Tx(G.Keep, op, entry))) == after && Commits(c, db, Some(Tx(G.Keep, op, entry)))
  {
  }

  class TransitionEngine {
    const db: Database

    constructor (db: Database)
      ensures this.db == db
    {
      this.db := db;
    }

    /** Write the audit event that completes a change of the ledger, or roll the
        change back. */
    method Complete(c: Config, ghost op: L.Op, entry: LogEntry, snapshot: Db) returns (ok: bool)
      requires entry.Event? && L.Attempt(snapshot.ledger, op).Some?
      requires db.State() == snapshot.(ledger := L.Attempt(snapshot.ledger, op).value)
      modifies db
      ensures db.State() == Perform(c, snapshot, Some(Tx(G.Keep, op, entry)))
      ensures ok == Commits(c, snapshot, Some(Tx(G.Keep, op, entry)))
    {
      ok := db.WriteEvent(c, entry.write);
      if !ok {
        LedgerChangeRefused(c, snapshot, op, entry);
        db.Rollback(snapshot);
      } else {
        LedgerChangeAccepted(c, snapshot, op, entry, db.State());
      }
    }

    /** The id of the transition that answers the proposal, an existing one or
        the new one, or None where the call raises. */
    method Propose(c: Config, p: Propose, s: Stamp) returns (answer: Option<Id>)
      modifies db
      ensures db.State() == Perform(c, old(db.State()), ProposeTx(c, old(db.State()), p, s))
      ensures answer == var e := Repeated(old(db.LedgerTables()), p.proposal.key);
                        if e.Some? then e
                        else if Commits(c, old(db.State()), ProposeTx(c, old(db.State()), p, s)) then Some(p.proposal.id)
                        else None
    {
      var existing := db.FindByKey(p.proposal.key);
      if existing.Some? && existing.value in db.transitions && ReturnsExisting(db.transitions[existing.value].stage) {
        return existing;
      }
      if p.proposal.branch !in db.branches {
        return None;
      }
      var verdict := VerdictFor(db.GraphTables(), p);
      var ok := Insert(c, p, verdict, s);
      return if ok then Some(p.proposal.id) else None;
    }

    method Insert(c: Config, p: Propose, verdict: L.Verdict, s: Stamp) returns (ok: bool)
      requires p.proposal.branch in db.branches && verdict == VerdictFor(db.GraphTables(), p)
      requires Repeated(db.LedgerTables(), p.proposal.key).None?
      modifies db
      ensures db.State() == Perform(c, old(db.State()), ProposeTx(c, old(db.State()), p, s))
      ensures ok == Commits(c, old(db.State()), ProposeTx(c, old(db.State()), p, s))
    {
      var snapshot := db.State();
      ghost var op := L.Opening(c.keyIndex, p.proposal, verdict);
      var entry := ProposeEvent(snapshot.graph, p, verdict, s);
      ok := OpenTransition(c, p.proposal, verdict);
      if !ok {
        LedgerChangeRefused(c, snapshot, op, entry);
        return;
      }
      ok := Complete(c, op, entry, snapshot);
    }

    /** Insert the row as proposed, advance it by the verdict, and ask for
        approval where that is the verdict. */
    method OpenTransition(c: Config, p: L.Proposal, verdict: L.Verdict) returns (ok: bool)
      requires p.branch in db.branches
      modifies db
      ensures ok == L.Open(old(db.LedgerTables()), c.keyIndex, p, verdict).Some?
      ensures db.State() == if ok then old(db.State()).(ledger := L.Open(old(db.LedgerTables()), c.keyIndex, p, verdict).value)
                            else old(db.State())
    {
      ghost var rows := db.transitions;
      ok := db.InsertTransition(p.id, L.NewTransition(p, Proposed), c.keyIndex);
      if !ok {
        return;
      }
      ok := db.AdvanceStage(p.id, L.FirstStage(verdict));
      assert db.transitions == rows[p.id := L.NewTransition(p, L.FirstStage(verdict))];
      if verdict.AskApproval? {
        db.CreateRequest(L.Request(p.id, p.agent, L.Pending, None));
      } else {
        assert db.requests + [] == db.requests;
      }
    }

    method Approve(c: Config, t: Id, approver: Id, approverType: string, reason: string, s: Stamp) returns (ok: bool)
      modifies db
      ensures db.State() == Perform(c, old(db.State()), ApproveTx(old(db.State()), t, approver, approverType, reason, s))
      ensures ok == Commits(c, old(db.State()), ApproveTx(old(db.State()), t, approver, approverType, reason, s))
    {
      if t !in db.transitions || approverType == "agent" {
        return false;
      }
      ok := Settle(c, t, approver, true,
        ApprovedEvent(db.GraphTables(), db.transitions[t].branch, t, approver, approverType, reason, s));
    }

    method DenyApproval(c: Config, t: Id, approver: Id, reason: string, s: Stamp) returns (ok: bool)
      modifies db
      ensures db.State() == Perform(c, old(db.State()), DenyTx(old(db.State()), t, approver, reason, s))
      ensures ok == Commits(c, old(db.State()), DenyTx(old(db.State()), t, approver, reason, s))
    {
      if t !in db.transitions {
        return false;
      }
      ok := Settle(c, t, approver, false,
        DeniedEvent(db.GraphTables(), db.transitions[t].branch, t, approver, reason, s));
    }

    /** Decide the existing pending request, advance the transition, and write
        the event. */
    method Settle(c: Config, t: Id, approver: Id, approve: bool, entry: LogEntry) returns (ok: bool)
      requires t in db.transitions && entry.Event?
      modifies db
      ensures db.State() == Perform(c, old(db.State()), Some(Tx(G.Keep, L.Deciding(t, approver, approve), entry)))
      ensures ok == Commits(c, old(db.State()), Some(Tx(G.Keep, L.Deciding(t, approver, approve), entry)))
    {
      var snapshot := db.State();
      ok := DecidePending(t, approver, approve);
      if !ok {
        LedgerChangeRefused(c, snapshot, L.Deciding(t, approver, approve), entry);
        db.Rollback(snapshot);
        return;
      }
      ok := Complete(c, L.Deciding(t, approver, approve), entry, snapshot);
    }

    method DecidePending(t: Id, approver: Id, approve: bool) returns (ok: bool)
      requires t in db.transitions
      modifies db
      ensures ok == L.Decide(old(db.LedgerTables()), t, approver, approve).Some?
      ensures ok ==> db.State() == old(db.State()).(ledger := L.Decide(old(db.LedgerTables()), t, approver, approve).value)
    {
      if !db.transitions[t].stage.PendingApproval? || approver == db.transitions[t].agent {
        return false;
      }
      var request := db.FindPending(t);
      L.PendingRequestIsPending(db.requests, t);
      if request.None? {
        return false;
      }
      ok := db.DecideRequest(request.value, approver, if approve then L.Approved else L.Refused);
      if ok {
        ok := db.AdvanceStage(t, if approve then Authorized else Denied);
      }
    }

    method Cancel(c: Config, t: Id, agent: Id, administrator: bool, s: Stamp) returns (ok: bool)
      modifies db
      ensures db.State() == Perform(c, old(db.State()), CancelTx(old(db.State()), t, agent, administrator, s))
      ensures ok == Commits(c, old(db.State()), CancelTx(old(db.State()), t, agent, administrator, s))
    {
      if t !in db.transitions || (agent != db.transitions[t].agent && !administrator) {
        return false;
      }
      var snapshot := db.State();
      var entry := CancelledEvent(snapshot.graph, db.transitions[t].branch, t, agent, s);
      ok := db.AdvanceStage(t, Cancelled);
      if !ok {
        LedgerChangeRefused(c, snapshot, L.Withdrawing(t, Cancelled), entry);
        return;
      }
      ok := Complete(c, L.Withdrawing(t, Cancelled), entry, snapshot);
    }

    method Expire(c: Config, t: Id) returns (ok: bool)
      modifies db
      ensures db.State() == Perform(c, old(db.State()), ExpireTx(t)) && ok == Commits(c, old(db.State()), ExpireTx(t))
    {
      ghost var snapshot := db.State();
      ok := db.AdvanceStage(t, Expired);
      if ok {
        LedgerChangeAccepted(c, snapshot, L.Withdrawing(t, Expired), Silent, db.State());
      } else {
        LedgerChangeRefused(c, snapshot, L.Withdrawing(t, Expired), Silent);
      }
    }

    /** Failure, or an outcome that is not known. */
    method RecordResult(c: Config, t: Id, failed: bool, summary: string, s: Stamp) returns (ok: bool)
      modifies db
      ensures db.State() == Perform(c, old(db.State()), OutcomeTx(old(db.State()), t, failed, summary, s))
      ensures ok == Commits(c, old(db.State()), OutcomeTx(old(db.State()), t, failed, summary, s))
    {
      if t !in db.transitions {
        return false;
      }
      var snapshot := db.State();
      var entry := OutcomeEvent(snapshot.graph, db.transitions[t].branch, db.transitions[t].agent, t, failed, summary, s);
      if !db.transitions[t].stage.Executing? {
        LedgerChangeRefused(c, snapshot, L.Recording(t, failed, summary), entry);
        return false;
      }
      RecordRow(t, failed, summary);
      ok := Complete(c, L.Recording(t, failed, summary), entry, snapshot);
    }

    method RecordRow(t: Id, failed: bool, summary: string)
      requires t in db.transitions && db.transitions[t].stage.Executing?
      modifies db
      ensures db.State() == old(db.State()).(ledger := L.RecordOutcome(old(db.LedgerTables()), t, failed, summary).value)
    {
      ghost var rows := db.transitions;
      if failed {
        db.UpdateResult(t, L.Failure, summary, None);
        var _ := db.AdvanceStage(t, Failed);
      } else {
        db.SetReview(t, true);
        db.UpdateResult(t, L.Timeout, summary, None);
        var _ := db.AdvanceStage(t, Uncertain);
      }
      assert db.transitions == rows[t := db.transitions[t]];
    }

    /** The last transaction of a review. */
    method ConcludeReview(c: Config, k: Commit, lost: bool, summary: string, s: Stamp) returns (ok: bool)
      modifies db
      ensures var tx := if lost then ReviewLostTx(old(db.State()), k, s) else ReviewDoneTx(old(db.State()), k, summary, s);
              db.State() == Perform(c, old(db.State()), tx) && ok == Commits(c, old(db.State()), tx)
    {
      var snapshot := db.State();
      var entry := if lost then ReviewLostEvent(snapshot.graph, k, s)
                   else ReconciledEvent(snapshot.graph, k.t, k.branch, k.agent, "succeeded", summary, s);
      db.SetReview(k.t, lost);
      ok := Complete(c, L.Flagging(k.t, lost), entry, snapshot);
    }

    method FailReviewed(c: Config, t: Id, branch: Id, agent: Id, summary: string, s: Stamp) returns (ok: bool)
      modifies db
      ensures db.State() == Perform(c, old(db.State()), ReviewFailedTx(old(db.State()), t, branch, agent, summary, s))
      ensures ok == Commits(c, old(db.State()), ReviewFailedTx(old(db.State()), t, branch, agent, summary, s))
    {
      var snapshot := db.State();
      var entry := ReconciledEvent(snapshot.graph, t, branch, agent, "failed", summary, s);
      ok := db.AdvanceStage(t, Failed);
      if !ok {
        LedgerChangeRefused(c, snapshot, L.FailingReviewed(t), entry);
        return;
      }
      db.SetReview(t, false);
      ok := Complete(c, L.FailingReviewed(t), entry, snapshot);
    }
  }

  class AuthorizationEngine {
    const db: Database

    constructor (db: Database)
      ensures this.db == db
    {
      this.db := db;
    }

    /** Seal and store a token; the text that is handed out is returned. */
    method Issue(c: Config, t: Token) returns (text: Option<string>)
      modifies db
      ensures db.State() == Perform(c, old(db.State()), IssueTx(c, old(db.State()), t))
      ensures text == if Commits(c, old(db.State()), IssueTx(c, old(db.State()), t)) then Some(c.codec.write(Sealed(c, t)))
                      else None
    {
      ghost var snapshot := db.State();
      var token := t.(policySetHash := c.seal(t.versions));
      var written := c.codec.write(token);
      ghost var op := L.Issuing(token, c.hash(written));
      var ok := db.InsertAuthorization(token.authorization, L.Authorization(token, c.hash(written), false));
      if ok {
        LedgerChangeAccepted(c, snapshot, op, Silent, db.State());
        return Some(written);
      }
      if token.branch in db.branches {
        LedgerChangeRefused(c, snapshot, op, Silent);
      }
      return None;
    }

    /** Verify a presented token and claim it: the authorization is spent and the
        transition starts executing, both or neither. */
    method VerifyAndClaim(c: Config, p: Presented) returns (claimed: Option<Token>)
      modifies db
      ensures db.State() == Perform(c, old(db.State()), ClaimTx(c, old(db.State()), p))
      ensures claimed == if Commits(c, old(db.State()), ClaimTx(c, old(db.State()), p))
                         then VerifyToken(c.codec, p.text, p.now) else None
    {
      var token := VerifyToken(c.codec, p.text, p.now);
      if token.None? || !Acceptable(c, p, token.value) {
        return None;
      }
      var auth := token.value.authorization;
      if auth !in db.authorizations || db.authorizations[auth].tokenHash != c.hash(p.text) {
        return None;
      }
      var snapshot := db.State();
      var ok := SpendAndStart(auth, c.hash(p.text), p.now);
      if !ok {
        if Less(p.now, snapshot.ledger.authorizations[auth].token.expiresAt) {
          LedgerChangeRefused(c, snapshot, L.Claiming(auth), Silent);
        }
        db.Rollback(snapshot);
        return None;
      }
      LedgerChangeAccepted(c, snapshot, L.Claiming(auth), Silent, db.State());
      return token;
    }

    /** The savepoint: claim the authorization and start the transition. */
    method SpendAndStart(auth: Id, tokenHash: string, now: string) returns (ok: bool)
      requires auth in db.authorizations && db.authorizations[auth].tokenHash == tokenHash
      modifies db
      ensures ok == (Less(now, old(db.authorizations)[auth].token.expiresAt)
                     && L.Claim(old(db.LedgerTables()), auth).Some?)
      ensures ok ==> db.State() == old(db.State()).(ledger := L.Claim(old(db.LedgerTables()), auth).value)
    {
      var t := db.ClaimAuthorization(auth, tokenHash, now);
      if t.None? {
        return false;
      }
      ok := db.UpdateStage(t.value, Executing, Some(Authorized));
    }
  }
}
