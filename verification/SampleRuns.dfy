/** Short runs from the fresh database that end where a promise is not kept. They
    are runs under every proper configuration, and there are such. */
module SampleRuns {
  import opened Wrappers
  import opened JsonText
  import opened Canonical
  import opened Stages
  import opened Tokens
  import opened Transactions
  import opened Protocol
  import opened LedgerTheorems
  import opened FlagTheorems
  import G = Graph
  import L = Ledger

  function SampleKeys(): Keys {
    Keys(m => "s", (m, s) => true)
  }

  ghost function SampleConfig(keyIndex: bool): Config {
    ConfigOf(SampleDigest(), SampleKeys(), "service", keyIndex)
  }

  lemma SampleConfigIsProper(keyIndex: bool)
    ensures Proper(SampleConfig(keyIndex)) && SampleConfig(keyIndex).keyIndex == keyIndex
  {
    ConfigIsProper(SampleDigest(), SampleKeys(), "service", keyIndex);
  }

  // ------------------------------------------------------------ the steps

  const STAMP := Stamp("s", "1")

  /** Without a judge the proposal waits for approval. */
  function ProposeStep(id: Id): Step {
    Ask(ProposeAction(Propose(L.Proposal(id, "b", "a", "k", None, None), "tool", Action("act", []), None), STAMP))
  }

  const CREATE := Ask(CreateProject("p", "l", "b"))
  const OPEN_LOG := Ask(InitAudit("l"))
  const APPROVE := Ask(Approve("t", "h", "human", "", STAMP))
  const CANCEL := Ask(Cancel("t", "a", false, STAMP))
  const EXPIRE := Ask(Expire("t"))
  const MARK := Ask(MarkUncertain("t", "stuck", STAMP))

  const TOKEN := Token("z", "t", "a", "p", "b", "proxy", "tool", "h", "", map[], "0", "2", "n")

  function PresentStep(c: Config): Step {
    Execute("x", Presented(c.codec.write(Sealed(c, TOKEN)), "h", "proxy", Action("act", []), None, true, "1"))
  }

  function ReviewStep(proc: Id): Step {
    Review(proc, "t", "seen", None, Overrides(None, None, None))
  }

  // ------------------------------------------------------------ the runs

  const OPENED := [CREATE, OPEN_LOG]
  const PROPOSED := OPENED + [ProposeStep("t")]
  const AUTHORIZED := PROPOSED + [APPROVE] + [Ask(IssueToken(TOKEN))]

  const CANCELLED := PROPOSED + [CANCEL]

  function Claimed(c: Config): seq<Step> {
    AUTHORIZED + [PresentStep(c)]
  }

  /** The adapter has run and the head is read when an operator marks the
      transition; then the proxy commits. */
  function LateCommit(c: Config): seq<Step> {
    Claimed(c) + [Go("x", RunAdapter(Worked, "done"))] + [Go("x", ReadHead)] + [MARK]
      + [Go("x", CommitRun("n", "e", STAMP, false))]
  }

  /** Two reconcilers start on a marked transition. The commit of one is aborted;
      the other settles the transition as failed; then the first gives up. */
  function TwoReconcilers(c: Config): seq<Step> {
    Claimed(c) + [MARK] + [ReviewStep("q")] + [ReviewStep("r")] + [Go("r", ReadForReview)]
      + [Go("r", CommitReview("n", "e", STAMP, true))] + [Go("q", FailReview(STAMP))] + [Go("r", GiveUpReview(STAMP))]
  }

  // ------------------------------------------------------------ the scene

  const SCENE := G.Graph(map["l" := "p"], map["b" := G.Branch("l", None, 1)], map[], [], map[])

  function Row(stage: Stage): L.Transition {
    L.Transition("b", "a", "k", None, None, stage, None, None, None, false)
  }

  const PENDING := L.Ledger(map["t" := Row(PendingApproval)], ["t"], [L.Request("t", "a", L.Pending, None)], map[])
  const APPROVED := L.Ledger(map["t" := Row(Authorized)], ["t"], [L.Request("t", "a", L.Approved, Some("h"))], map[])

  /** The ledger after the token was issued, or spent, with the given row. */
  function Later(c: Config, used: bool, row: L.Transition): L.Ledger {
    APPROVED.(
      transitions := map["t" := row],
      authorizations := map["z" := L.Authorization(Sealed(c, TOKEN), TokenHash(c, Sealed(c, TOKEN)), used)])
  }

  /** The only lattice still has its one empty branch. */
  ghost predicate Scene(w: World, l: L.Ledger, procs: map<Id, Proc>) {
    w.db.graph == SCENE && "l" in w.db.audit.heads && w.db.ledger == l && w.procs == procs
  }

  lemma OneMore(c: Config, steps: seq<Step>, step: Step)
    ensures Run(c, START, steps + [step]) == Apply(c, Run(c, START, steps), step)
  {
    assert (steps + [step])[..|steps|] == steps;
  }

  /** A transaction on the ledger alone, with or without an event. */
  lemma LedgerCommit(c: Config, db: Db, op: L.Op, entry: LogEntry, m: L.Ledger)
    requires L.Attempt(db.ledger, op) == Some(m)
    requires entry.Silent? || (entry.Event? && entry.write.lattice in db.audit.heads)
    ensures var tx := Some(Tx(G.Keep, op, entry));
            && Commits(c, db, tx) && Perform(c, db, tx).graph == db.graph && Perform(c, db, tx).ledger == m
            && Perform(c, db, tx).audit.heads.Keys == db.audit.heads.Keys
            && (entry.Silent? ==> Perform(c, db, tx).audit == db.audit)
  {
  }

  /** A call whose transaction is such a one. */
  lemma LedgerCall(c: Config, w: World, call: Call, op: L.Op, entry: LogEntry, m: L.Ledger)
    requires CallTx(c, w.db, call) == Some(Tx(G.Keep, op, entry)) && L.Attempt(w.db.ledger, op) == Some(m)
    requires entry.Silent? || (entry.Event? && entry.write.lattice in w.db.audit.heads)
    ensures var after := Apply(c, w, Ask(call));
            && after.db.graph == w.db.graph && after.db.ledger == m && after.procs == w.procs
            && after.db.audit.heads.Keys == w.db.audit.heads.Keys
            && (entry.Silent? ==> after.db.audit == w.db.audit)
  {
    LedgerCommit(c, w.db, op, entry, m);
  }

  lemma AfterOpening(c: Config)
    ensures Scene(Run(c, START, OPENED), L.NOTHING, map[])
    ensures Run(c, START, [CREATE]) == World(Db(SCENE, L.NOTHING, AuditLog(map[], map[])), map[], [])
  {
    OneMore(c, [], CREATE);
    assert [] + [CREATE] == [CREATE];
    assert G.AddLattice(G.EMPTY, "p", "l", "b") == Some(SCENE);
    OneMore(c, [CREATE], OPEN_LOG);
    assert [CREATE] + [OPEN_LOG] == OPENED;
  }

  lemma Proposing(c: Config, w: World, procs: map<Id, Proc>)
    requires Scene(w, L.NOTHING, procs)
    ensures Scene(Apply(c, w, ProposeStep("t")), PENDING, procs)
  {
    var p := ProposeStep("t").call;
    assert map[]["t" := Row(PendingApproval)] == PENDING.transitions;
    assert [] + ["t"] == PENDING.order && [] + PENDING.requests == PENDING.requests;
    assert L.Open(L.NOTHING, c.keyIndex, p.propose.proposal, L.AskApproval) == Some(PENDING);
    LedgerCall(c, w, p, L.Opening(c.keyIndex, p.propose.proposal, L.AskApproval),
      ProposeEvent(SCENE, p.propose, L.AskApproval, STAMP), PENDING);
  }

  lemma Approving(c: Config, w: World, procs: map<Id, Proc>)
    requires Scene(w, PENDING, procs)
    ensures Scene(Apply(c, w, APPROVE), APPROVED, procs)
  {
    assert L.PendingRequest(PENDING.requests, "t") == Some(0);
    assert PENDING.transitions["t" := Row(Authorized)] == APPROVED.transitions;
    assert L.DecideRequest(PENDING.requests, 0, "h", L.Approved) == APPROVED.requests;
    assert L.Decide(PENDING, "t", "h", true) == Some(APPROVED);
    LedgerCall(c, w, APPROVE.call, L.Deciding("t", "h", true),
      ApprovedEvent(SCENE, "b", "t", "h", "human", "", STAMP), APPROVED);
  }

  lemma Issuing(c: Config, w: World, procs: map<Id, Proc>)
    requires Scene(w, APPROVED, procs)
    ensures Scene(Apply(c, w, Ask(IssueToken(TOKEN))), Later(c, false, Row(Authorized)), procs)
  {
    var t := Sealed(c, TOKEN);
    assert L.Issue(APPROVED, t, TokenHash(c, t)) == Some(Later(c, false, Row(Authorized)));
    LedgerCall(c, w, IssueToken(TOKEN), L.Issuing(t, TokenHash(c, t)), Silent, Later(c, false, Row(Authorized)));
  }

  lemma Claiming(c: Config, w: World)
    requires Proper(c) && Scene(w, Later(c, false, Row(Authorized)), map[])
    ensures var after := Apply(c, w, PresentStep(c));
            && Scene(after, Later(c, true, Row(Executing)), map["x" := Proc.Claimed(Sealed(c, TOKEN))])
            && after.db.audit == w.db.audit
  {
    var t := Sealed(c, TOKEN);
    assert !Less(t.expiresAt, "1") && Less("1", t.expiresAt);
    assert VerifyToken(c.codec, c.codec.write(t), "1") == Some(t);
    assert ClaimTx(c, w.db, PresentStep(c).presented) == Some(Tx(G.Keep, L.Claiming("z"), Silent));
    var before, after := Later(c, false, Row(Authorized)), Later(c, true, Row(Executing));
    assert before.transitions["t" := Row(Executing)] == after.transitions;
    assert before.authorizations["z" := before.authorizations["z"].(used := true)] == after.authorizations;
    assert L.Claim(w.db.ledger, "z") == Some(Later(c, true, Row(Executing)));
  }

  lemma AfterProposal(c: Config)
    ensures Scene(Run(c, START, PROPOSED), PENDING, map[])
  {
    AfterOpening(c);
    OneMore(c, OPENED, ProposeStep("t"));
    Proposing(c, Run(c, START, OPENED), map[]);
  }

  lemma AfterIssue(c: Config)
    ensures Scene(Run(c, START, AUTHORIZED), Later(c, false, Row(Authorized)), map[])
  {
    AfterProposal(c);
    var approved := PROPOSED + [APPROVE];
    OneMore(c, PROPOSED, APPROVE);
    Approving(c, Run(c, START, PROPOSED), map[]);
    OneMore(c, approved, Ask(IssueToken(TOKEN)));
    Issuing(c, Run(c, START, approved), map[]);
  }

  /** A claim changes the stage and writes no audit event. */
  lemma AfterClaim(c: Config)
    requires Proper(c)
    ensures Scene(Run(c, START, Claimed(c)), Later(c, true, Row(Executing)), map["x" := Proc.Claimed(Sealed(c, TOKEN))])
    ensures Run(c, START, Claimed(c)).db.audit == Run(c, START, AUTHORIZED).db.audit
  {
    AfterIssue(c);
    OneMore(c, AUTHORIZED, PresentStep(c));
    Claiming(c, Run(c, START, AUTHORIZED));
  }

  // ------------------------------------------------------------ after a claim

  const MARKED := Row(Uncertain).(exitStatus := Some(L.Timeout), summary := Some("stuck"), needsReview := true)
  const FAILED := MARKED.(stage := Failed, needsReview := false)

  lemma MarkRecords(l: L.Ledger, m: L.Ledger)
    requires l.transitions == map["t" := Row(Executing)] && m == l.(transitions := map["t" := MARKED])
    ensures L.RecordOutcome(l, "t", false, "stuck") == Some(m)
  {
    assert l.transitions["t" := MARKED] == m.transitions;
  }

  lemma MarkTx(db: Db)
    requires db.ledger.transitions == map["t" := Row(Executing)] && db.graph == SCENE
    ensures OutcomeTx(db, "t", false, "stuck", STAMP)
              == Some(Tx(G.Keep, L.Recording("t", false, "stuck"), OutcomeEvent(SCENE, "b", "a", "t", false, "stuck", STAMP)))
  {
  }

  lemma Marking(c: Config, w: World, l: L.Ledger, m: L.Ledger, procs: map<Id, Proc>)
    requires Scene(w, l, procs) && l.transitions == map["t" := Row(Executing)]
    requires m == l.(transitions := map["t" := MARKED])
    ensures Scene(Apply(c, w, MARK), m, procs)
  {
    MarkRecords(l, m);
    MarkTx(w.db);
    var e := OutcomeEvent(SCENE, "b", "a", "t", false, "stuck", STAMP);
    assert e.Event? && e.write.lattice == "l";
    LedgerCall(c, w, MARK.call, L.Recording("t", false, "stuck"), e, m);
  }

  /** A move that has no transaction to commit. */
  lemma QuietMove(c: Config, w: World, l: L.Ledger, p: Id, move: Move, next: Proc)
    requires Scene(w, l, w.procs) && p in w.procs && !Commits(c, w.db, MoveTx(c, w.db, w.procs[p], move))
    requires Next(w.db, w.procs[p], move, false) == Some(next)
    ensures Scene(Apply(c, w, Go(p, move)), l, w.procs[p := next])
  {
  }

  const COMMIT := Commit("t", "b", "a", "done", None, 1, "l")

  lemma ReadingHead(c: Config, w: World)
    requires Scene(w, Later(c, true, Row(Executing)), map["x" := Ran(Sealed(c, TOKEN), Worked, "done")])
    ensures Scene(Apply(c, w, Go("x", ReadHead)), Later(c, true, Row(Executing)), map["x" := Ready(COMMIT)])
  {
    QuietMove(c, w, Later(c, true, Row(Executing)), "x", ReadHead, Ready(COMMIT));
    assert w.procs["x" := Ready(COMMIT)] == map["x" := Ready(COMMIT)];
  }

  lemma CommitGoesThrough(c: Config, db: Db)
    requires db.graph == SCENE && "l" in db.audit.heads && db.ledger.transitions == map["t" := MARKED]
    ensures Attempt(c, db, CommitTx(c, db, COMMIT, "n", "e", STAMP).value).Some?
  {
    var a := AdvanceOf(COMMIT, "n", "e");
    assert G.AdvanceBranch(SCENE, a).Some?;
    assert L.Succeed(db.ledger, "t", "n", "done").Some?;
  }

  lemma Committing(c: Config, w: World, l: L.Ledger)
    requires Scene(w, l, map["x" := Ready(COMMIT)]) && l.transitions == map["t" := MARKED]
    ensures var m := Apply(c, w, Go("x", CommitRun("n", "e", STAMP, false))).db.ledger;
            StageOf(m, "t") == Some(Succeeded) && Flagged(m, "t")
  {
    CommitGoesThrough(c, w.db);
    var tx := CommitTx(c, w.db, COMMIT, "n", "e", STAMP);
    var after := Attempt(c, w.db, tx.value).value;
    assert Plan(c, w, Go("x", CommitRun("n", "e", STAMP, false))) == tx;
    CommitSucceeds(c, w.db, COMMIT, "n", "e", STAMP, after);
  }

  // ------------------------------------------------------------ two reconcilers

  const REVIEWING := Reviewing("t", MARKED, "seen", "seen", Overrides(None, None, None))
  const REVIEW := Commit("t", "b", "a", "seen", None, 1, "l")

  lemma StartingReview(c: Config, w: World, l: L.Ledger, p: Id)
    requires Scene(w, l, w.procs) && l.transitions == map["t" := MARKED] && p !in w.procs
    ensures Scene(Apply(c, w, ReviewStep(p)), l, w.procs[p := REVIEWING])
  {
  }

  /** A reconciler reads the head, and the database aborts its commit. */
  lemma LosingReview(c: Config, w: World, l: L.Ledger, p: Id)
    requires Scene(w, l, w.procs) && p in w.procs && w.procs[p] == REVIEWING
    ensures var v := Apply(c, w, Go(p, ReadForReview));
            Scene(Apply(c, v, Go(p, CommitReview("n", "e", STAMP, true))), l, w.procs[p := ReviewLost(REVIEW)])
  {
    QuietMove(c, w, l, p, ReadForReview, ReviewReady(REVIEW, "seen"));
    var v := Apply(c, w, Go(p, ReadForReview));
    QuietMove(c, v, l, p, CommitReview("n", "e", STAMP, true), ReviewLost(REVIEW));
    assert w.procs[p := ReviewReady(REVIEW, "seen")][p := ReviewLost(REVIEW)] == w.procs[p := ReviewLost(REVIEW)];
  }

  /** A move whose transaction changes the ledger alone and ends its activity. */
  lemma LastMove(c: Config, w: World, p: Id, move: Move, op: L.Op, entry: LogEntry, m: L.Ledger)
    requires Scene(w, w.db.ledger, w.procs) && p in w.procs
    requires MoveTx(c, w.db, w.procs[p], move) == Some(Tx(G.Keep, op, entry)) && L.Attempt(w.db.ledger, op) == Some(m)
    requires entry.Event? && entry.write.lattice == "l"
    requires Next(w.db, w.procs[p], move, true) == None
    ensures Scene(Apply(c, w, Go(p, move)), m, w.procs - {p})
  {
    LedgerCommit(c, w.db, op, entry, m);
    assert Plan(c, w, Go(p, move)) == MoveTx(c, w.db, w.procs[p], move);
  }

  lemma FailureRecords(l: L.Ledger)
    requires l.transitions == map["t" := MARKED]
    ensures L.FailReviewed(l, "t") == Some(l.(transitions := map["t" := FAILED]))
  {
    assert L.Move(l, "t", Failed) == Some(l.(transitions := l.transitions["t" := MARKED.(stage := Failed)]));
    assert l.transitions["t" := MARKED.(stage := Failed)]["t" := FAILED] == map["t" := FAILED];
  }

  lemma FailingReview(c: Config, w: World, l: L.Ledger, p: Id)
    requires Scene(w, l, w.procs) && l.transitions == map["t" := MARKED] && p in w.procs && w.procs[p] == REVIEWING
    ensures Scene(Apply(c, w, Go(p, FailReview(STAMP))), l.(transitions := map["t" := FAILED]), w.procs - {p})
  {
    FailureRecords(l);
    LastMove(c, w, p, FailReview(STAMP), L.FailingReviewed("t"),
      ReconciledEvent(SCENE, "t", "b", "a", "failed", "seen", STAMP), l.(transitions := map["t" := FAILED]));
  }

  lemma GivingUp(c: Config, w: World, l: L.Ledger, p: Id)
    requires Scene(w, l, w.procs) && l.transitions == map["t" := FAILED] && p in w.procs && w.procs[p] == ReviewLost(REVIEW)
    ensures var m := Apply(c, w, Go(p, GiveUpReview(STAMP))).db.ledger;
            StageOf(m, "t") == Some(Failed) && Flagged(m, "t")
  {
    LastMove(c, w, p, GiveUpReview(STAMP), L.Flagging("t", true), ReviewLostEvent(SCENE, REVIEW, STAMP),
      L.SetReview(l, "t", true));
  }

  // ------------------------------------------------------------ the promises

  /** A settled transition carries the flag. */
  lemma LateCommitEndsFlagged(c: Config)
    requires Proper(c)
    ensures var l := Run(c, START, LateCommit(c)).db.ledger;
            StageOf(l, "t") == Some(Succeeded) && Flagged(l, "t")
  {
    AfterClaim(c);
    var s0, t := Claimed(c), Sealed(c, TOKEN);
    var l, m := Later(c, true, Row(Executing)), Later(c, true, MARKED);
    var s1 := s0 + [Go("x", RunAdapter(Worked, "done"))];
    OneMore(c, s0, Go("x", RunAdapter(Worked, "done")));
    QuietMove(c, Run(c, START, s0), l, "x", RunAdapter(Worked, "done"), Ran(t, Worked, "done"));
    assert map["x" := Proc.Claimed(t)]["x" := Ran(t, Worked, "done")] == map["x" := Ran(t, Worked, "done")];
    var s2 := s1 + [Go("x", ReadHead)];
    OneMore(c, s1, Go("x", ReadHead));
    ReadingHead(c, Run(c, START, s1));
    var s3 := s2 + [MARK];
    OneMore(c, s2, MARK);
    Marking(c, Run(c, START, s2), l, m, map["x" := Ready(COMMIT)]);
    OneMore(c, s3, Go("x", CommitRun("n", "e", STAMP, false)));
    Committing(c, Run(c, START, s3), m);
  }

  /** A failed transition carries the flag, raised after it was settled. */
  lemma TwoReconcilersEndFlagged(c: Config)
    requires Proper(c)
    ensures var l := Run(c, START, TwoReconcilers(c)).db.ledger;
            StageOf(l, "t") == Some(Failed) && Flagged(l, "t")
  {
    AfterClaim(c);
    var s0, l, m := Claimed(c), Later(c, true, Row(Executing)), Later(c, true, MARKED);
    var s1 := s0 + [MARK];
    OneMore(c, s0, MARK);
    Marking(c, Run(c, START, s0), l, m, Run(c, START, s0).procs);
    BothReviewing(c, s1, m);
    var s3 := s1 + [ReviewStep("q")] + [ReviewStep("r")];
    var s5 := s3 + [Go("r", ReadForReview)] + [Go("r", CommitReview("n", "e", STAMP, true))];
    OneMore(c, s3, Go("r", ReadForReview));
    OneMore(c, s3 + [Go("r", ReadForReview)], Go("r", CommitReview("n", "e", STAMP, true)));
    LosingReview(c, Run(c, START, s3), m, "r");
    var s6 := s5 + [Go("q", FailReview(STAMP))];
    OneMore(c, s5, Go("q", FailReview(STAMP)));
    FailingReview(c, Run(c, START, s5), m, "q");
    OneMore(c, s6, Go("r", GiveUpReview(STAMP)));
    GivingUp(c, Run(c, START, s6), m.(transitions := map["t" := FAILED]), "r");
  }

  lemma BothReviewing(c: Config, s: seq<Step>, l: L.Ledger)
    requires var w := Run(c, START, s);
             Scene(w, l, w.procs) && l.transitions == map["t" := MARKED] && "q" !in w.procs && "r" !in w.procs
    ensures var w := Run(c, START, s + [ReviewStep("q")] + [ReviewStep("r")]);
            && Scene(w, l, w.procs) && "q" in w.procs && "r" in w.procs
            && w.procs["q"] == REVIEWING && w.procs["r"] == REVIEWING
  {
    OneMore(c, s, ReviewStep("q"));
    StartingReview(c, Run(c, START, s), l, "q");
    OneMore(c, s + [ReviewStep("q")], ReviewStep("r"));
    StartingReview(c, Run(c, START, s + [ReviewStep("q")]), l, "r");
  }

  /** A cancelled attempt should leave room for another one with the same key;
      under the unique index there is none. */
  lemma RetryIsRefusedByTheIndex(c: Config)
    ensures var before, after := Run(c, START, CANCELLED), Run(c, START, CANCELLED + [ProposeStep("u")]);
            && StageOf(before.db.ledger, "t") == Some(Stage.Cancelled)
            && if c.keyIndex then after == before else StageOf(after.db.ledger, "u") == Some(PendingApproval)
  {
    AfterProposal(c);
    var m := PENDING.(transitions := map["t" := Row(Stage.Cancelled)]);
    OneMore(c, PROPOSED, CANCEL);
    Cancelling(c, Run(c, START, PROPOSED), m);
    OneMore(c, CANCELLED, ProposeStep("u"));
    Retrying(c, Run(c, START, CANCELLED), m);
  }

  lemma Cancelling(c: Config, w: World, m: L.Ledger)
    requires Scene(w, PENDING, map[]) && m == PENDING.(transitions := map["t" := Row(Stage.Cancelled)])
    ensures Scene(Apply(c, w, CANCEL), m, map[])
  {
    assert PENDING.transitions["t" := Row(Stage.Cancelled)] == m.transitions;
    LedgerCall(c, w, CANCEL.call, L.Withdrawing("t", Stage.Cancelled), CancelledEvent(SCENE, "b", "t", "a", STAMP), m);
  }

  lemma Retrying(c: Config, w: World, l: L.Ledger)
    requires Scene(w, l, map[]) && l.transitions == map["t" := Row(Stage.Cancelled)] && l.order == ["t"]
    ensures var after := Apply(c, w, ProposeStep("u"));
            if c.keyIndex then after == w else StageOf(after.db.ledger, "u") == Some(PendingApproval)
  {
    var p := ProposeStep("u").call;
    assert L.Existing(l, l.order, "k") == Some("t");
    assert ProposeTx(c, w.db, p.propose, p.stamp) == Some(Tx(G.Keep,
      L.Opening(c.keyIndex, p.propose.proposal, L.AskApproval), ProposeEvent(SCENE, p.propose, L.AskApproval, STAMP)));
    if c.keyIndex {
      assert !Commits(c, w.db, CallTx(c, w.db, p));
      assert w.runs + [] == w.runs;
    } else {
      LedgerCall(c, w, p, L.Opening(c.keyIndex, p.propose.proposal, L.AskApproval),
        ProposeEvent(SCENE, p.propose, L.AskApproval, STAMP), L.Open(l, false, p.propose.proposal, L.AskApproval).value);
    }
  }

  /** An expiry changes the stage and writes no audit event. */
  lemma ExpiryWritesNoEvent(c: Config)
    ensures var before, after := Run(c, START, PROPOSED), Run(c, START, PROPOSED + [EXPIRE]);
            && StageOf(before.db.ledger, "t") == Some(PendingApproval) && StageOf(after.db.ledger, "t") == Some(Expired)
            && after.db.audit == before.db.audit
  {
    AfterProposal(c);
    OneMore(c, PROPOSED, EXPIRE);
    var m := L.Move(PENDING, "t", Expired).value;
    LedgerCall(c, Run(c, START, PROPOSED), EXPIRE.call, L.Withdrawing("t", Expired), Silent, m);
  }


  /** Project creation sets up no audit head, so the first proposal in a fresh
      lattice is refused. */
  lemma FreshLatticeRefusesProposals(c: Config)
    ensures var w := Run(c, START, [CREATE]);
            "b" in w.db.graph.branches && w.db.ledger == L.NOTHING && Run(c, START, [CREATE] + [ProposeStep("t")]) == w
  {
    AfterOpening(c);
    OneMore(c, [CREATE], ProposeStep("t"));
    var w, p := Run(c, START, [CREATE]), ProposeStep("t").call;
    assert !Commits(c, w.db, ProposeTx(c, w.db, p.propose, p.stamp));
  }
}
