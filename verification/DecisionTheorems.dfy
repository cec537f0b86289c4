/** Where a proposal lands, what a commit is built on, and that work which nobody
    interferes with succeeds. */
module DecisionTheorems {
  import opened Wrappers
  import opened Stages
  import opened Tokens
  import opened Transactions
  import opened Protocol
  import opened ProtocolInvariant
  import opened LedgerTheorems
  import opened ExecutionTheorems
  import opened HistoryTheorems
  import opened FlagTheorems
  import P = PolicyEngine
  import PM = PolicyMeaning
  import PT = PolicyTheorems
  import G = Graph
  import L = Ledger

  // ------------------------------------------------------------ proposals

  /** A ledger with one more transition as proposed, in the stage, and with one
      pending request if the stage waits for approval. */
  ghost predicate Proposed(l: L.Ledger, m: L.Ledger, p: L.Proposal, stage: Stage) {
    && p.id !in l.transitions
    && m.transitions == l.transitions[p.id :=
         L.Transition(p.branch, p.agent, p.key, p.expectedHead, p.expectedVersion, stage, None, None, None, false)]
    && m.order == l.order + [p.id] && m.authorizations == l.authorizations
    && m.requests == l.requests + if stage == PendingApproval then [L.Request(p.id, p.agent, L.Pending, None)] else []
  }

  /** A proposal that commits adds its transition, and the judge alone decides in
      which stage: denied exactly if the effect is deny, authorized exactly if it
      is allow or warn, and waiting, with a pending request, in every other case
      and without a judge. */
  lemma ProposalLandsByItsEffect(c: Config, db: Db, p: Propose, s: Stamp)
    requires Commits(c, db, ProposeTx(c, db, p, s))
    ensures var after := Perform(c, db, ProposeTx(c, db, p, s));
            && p.proposal.id in after.ledger.transitions
            && var stage := after.ledger.transitions[p.proposal.id].stage;
               && Proposed(db.ledger, after.ledger, p.proposal, stage) && StageFits(JudgedEffect(db.graph, p), stage)
               && after.graph == db.graph
  {
    VerdictFits(db.graph, p);
  }

  function RequestOf(a: Action, agent: Id, project: Id, branch: Id, now: string, actionGlob: (string, string) -> bool,
                     resourceGlob: (string, string) -> bool, cel: (string, map<string, string>) -> Option<bool>)
    : P.Request
  {
    P.Request(a.kind, a.resources, map["agent_id" := agent, "project_id" := project, "branch_id" := branch],
      now, actionGlob, resourceGlob, cel)
  }

  /** Where the judge evaluates a list of policies, the proposal is denied exactly
      if judging none of them raises and a deny that applies is not lifted; and it
      is authorized only under a policy of the highest priority that stands,
      applies and allows or warns, with no deny left standing. */
  lemma ProposalLandsByItsPolicies(c: Config, db: Db, p: Propose, s: Stamp, ps: seq<P.Policy>, now: string,
                                   actionGlob: (string, string) -> bool, resourceGlob: (string, string) -> bool,
                                   cel: (string, map<string, string>) -> Option<bool>)
    requires Commits(c, db, ProposeTx(c, db, p, s)) && G.Resolved(db.graph) && PT.DistinctIds(ps)
    requires p.judge == Some(JudgeOf(ps, now, actionGlob, resourceGlob, cel))
    ensures p.proposal.branch in db.graph.branches
    ensures p.proposal.id in Perform(c, db, ProposeTx(c, db, p, s)).ledger.transitions
    ensures var stage := Perform(c, db, ProposeTx(c, db, p, s)).ledger.transitions[p.proposal.id].stage;
            var project := db.graph.lattices[db.graph.branches[p.proposal.branch].lattice];
            var r := RequestOf(p.action, p.proposal.agent, project, p.proposal.branch, now, actionGlob, resourceGlob, cel);
            && (stage == Denied <==>
                  && !PT.AnyUnjudgeable(ps, r)
                  && exists d :: d in ps && d.effect == P.Deny && PM.Applies(d, r) && !PT.ExceptedBy(ps, r, d))
            && (stage == Authorized ==>
                  && !PT.AnyUnjudgeable(ps, r) && !PT.Denied(PT.Standing(ps, r))
                  && exists q :: PT.OnTop(PT.Standing(ps, r), q) && PM.Applies(q, r) && q.effect in {P.Allow, P.Warn})
  {
    ProposalLandsByItsEffect(c, db, p, s);
    var project := db.graph.lattices[db.graph.branches[p.proposal.branch].lattice];
    var r := RequestOf(p.action, p.proposal.agent, project, p.proposal.branch, now, actionGlob, resourceGlob, cel);
    assert JudgedEffect(db.graph, p) == Some(P.Evaluate(ps, r).effect);
    PT.DenyExactly(ps, r);
    PT.PermissionNeedsAStandingPolicy(ps, r);
  }

  // ------------------------------------------------------------ versions

  /** The last policy with the id. */
  ghost predicate LastWith(ps: seq<P.Policy>, id: string, i: nat) {
    i < |ps| && ps[i].id == id && forall j :: i < j < |ps| ==> ps[j].id != id
  }

  /** Each matched id is recorded with the activation version of the last policy
      that has it, or zero where that has none; no other id is. */
  lemma {:induction false} VersionsAreOfTheMatched(ps: seq<P.Policy>, id: string)
    ensures id in VersionsMatched(ps) <==> exists i :: 0 <= i < |ps| && ps[i].id == id
    ensures forall i: nat :: LastWith(ps, id, i) ==> VersionsMatched(ps)[id] == ps[i].activationVersion.GetOr(0)
  {
    if ps != [] {
      var n := |ps| - 1;
      VersionsAreOfTheMatched(ps[..n], id);
      assert ps[..n] + [ps[n]] == ps;
      if ps[n].id == id {
        assert LastWith(ps, id, n);
      } else {
        forall i: nat | LastWith(ps, id, i) ensures LastWith(ps[..n], id, i) {
        }
        if id in VersionsMatched(ps[..n]) {
          var i :| 0 <= i < n && ps[..n][i].id == id;
          assert ps[i].id == id;
        }
      }
    }
  }

  // ------------------------------------------------------------ what a commit is built on

  /** What was stated first, or else what is there. */
  ghost predicate First<T>(override: Option<T>, stated: Option<T>, actual: T, chosen: T) {
    && (override.Some? ==> chosen == override.value)
    && (override.None? && stated.Some? ==> chosen == stated.value)
    && (override.None? && stated.None? ==> chosen == actual)
  }

  function Lift<T>(o: Option<T>): Option<Option<T>> {
    if o.Some? then Some(o) else None
  }

  /** The commit is of that transition, for its branch and agent. It expects the
      head and version that the caller states, else those that the transition
      states, else those the branch has. */
  ghost predicate BuiltOn(db: Db, t: Id, row: L.Transition, o: Overrides, description: string, k: Commit)
    requires row.branch in db.graph.branches
  {
    var branch := db.graph.branches[row.branch];
    && k.t == t && k.branch == row.branch && k.agent == row.agent && k.description == description
    && First(Lift(o.head), Lift(row.expectedHead), branch.head, k.expectedHead)
    && First(o.version, row.expectedVersion, branch.version, k.expectedVersion)
    && First(o.lattice, None, branch.lattice, k.lattice)
  }

  const NOTHING_STATED := Overrides(None, None, None)

  /** After a run that worked, a proxy goes on to commit what its transition states
      or else what it reads. */
  lemma ReadHeadBuildsOn(db: Db, token: Token, summary: string, done: bool) returns (k: Commit)
    requires token.transition in db.ledger.transitions
    requires db.ledger.transitions[token.transition].branch in db.graph.branches
    ensures Next(db, Ran(token, Worked, summary), ReadHead, done) == Some(Ready(k))
    ensures BuiltOn(db, token.transition, db.ledger.transitions[token.transition], NOTHING_STATED, summary, k)
  {
    k := Next(db, Ran(token, Worked, summary), ReadHead, done).value.commit;
  }

  /** And so does a reconciler, except that what its caller states comes first. */
  lemma ReadForReviewBuildsOn(db: Db, t: Id, row: L.Transition, summary: string, description: string, o: Overrides,
                              done: bool)
    returns (k: Commit)
    requires row.branch in db.graph.branches
    ensures Next(db, Reviewing(t, row, summary, description, o), ReadForReview, done) == Some(ReviewReady(k, summary))
    ensures BuiltOn(db, t, row, o, description, k)
  {
    k := Next(db, Reviewing(t, row, summary, description, o), ReadForReview, done).value.commit;
  }

  ghost predicate Agrees<T>(override: Option<T>, stated: Option<T>, actual: T) {
    if override.Some? then override.value == actual else stated.Some? ==> stated.value == actual
  }

  /** What stands in the way of no commit: whatever is stated is so, the ids are
      unused, and the lattice has a log. */
  ghost predicate Clear(db: Db, row: L.Transition, o: Overrides, node: Id, edge: Id)
    requires row.branch in db.graph.branches
  {
    var branch := db.graph.branches[row.branch];
    && Agrees(Lift(o.head), Lift(row.expectedHead), branch.head)
    && Agrees(o.version, row.expectedVersion, branch.version)
    && o.lattice.GetOr(branch.lattice) in db.audit.heads
    && node !in db.graph.nodes && (branch.head.Some? ==> edge !in db.graph.edges)
  }

  /** Such a commit goes through exactly when the transition is executing or
      uncertain and nothing stands in its way. In particular it does when nothing
      is stated and nobody was in between. */
  lemma BuiltCommitGoesThroughExactlyWhen(c: Config, db: Db, t: Id, row: L.Transition, o: Overrides, description: string,
                                          k: Commit, node: Id, edge: Id, s: Stamp)
    requires G.Sound(db.graph) && row.branch in db.graph.branches && BuiltOn(db, t, row, o, description, k)
    ensures Commits(c, db, CommitTx(c, db, k, node, edge, s)) <==>
              StageOf(db.ledger, t) in {Some(Executing), Some(Uncertain)} && Clear(db, row, o, node, edge)
  {
    CommitGoesThroughExactlyWhen(c, db, k, node, edge, s);
  }

  /** The transition has succeeded with the node, which is now the head of its
      branch, one version on, and carries what was done. */
  ghost predicate Realised(before: Db, after: Db, t: Id, node: Id, description: string) {
    && t in before.ledger.transitions && t in after.ledger.transitions && node in after.graph.nodes
    && var row, b := after.ledger.transitions[t], before.ledger.transitions[t].branch;
       && row.stage == Succeeded && row.toNode == Some(node) && row.summary == Some(description)
       && row.exitStatus == Some(L.Success)
       && b in before.graph.branches && b in after.graph.branches
       && after.graph.branches[b] == G.Branch(before.graph.branches[b].lattice, Some(node), before.graph.branches[b].version + 1)
       && after.graph.nodes[node] == G.Node(b, row.agent, description, G.Committed)
  }

  lemma CommitParts(c: Config, db: Db, k: Commit, node: Id, edge: Id, s: Stamp, after: Db)
    requires Attempt(c, db, CommitTx(c, db, k, node, edge, s).value) == Some(after)
    ensures G.AdvanceBranch(db.graph, AdvanceOf(k, node, edge)) == Some(after.graph)
    ensures L.Succeed(db.ledger, k.t, node, k.description) == Some(after.ledger)
    ensures db.audit.heads.Keys == after.audit.heads.Keys
  {
  }

  lemma PartsRealise(before: Db, after: Db, t: Id, k: Commit, node: Id, edge: Id)
    requires G.AdvanceBranch(before.graph, AdvanceOf(k, node, edge)) == Some(after.graph)
    requires L.Succeed(before.ledger, t, node, k.description) == Some(after.ledger)
    requires k.branch == before.ledger.transitions[t].branch && k.agent == before.ledger.transitions[t].agent
    ensures Realised(before, after, t, node, k.description)
    ensures after.ledger.transitions[t].needsReview == before.ledger.transitions[t].needsReview
  {
    G.AdvanceShape(before.graph, AdvanceOf(k, node, edge));
  }

  lemma CommitRealises(c: Config, db: Db, t: Id, o: Overrides, description: string, k: Commit, node: Id, edge: Id, s: Stamp)
    requires G.Sound(db.graph) && Commits(c, db, CommitTx(c, db, k, node, edge, s))
    requires t in db.ledger.transitions && db.ledger.transitions[t].branch in db.graph.branches
    requires BuiltOn(db, t, db.ledger.transitions[t], o, description, k)
    ensures var after := Perform(c, db, CommitTx(c, db, k, node, edge, s));
            && Realised(db, after, t, node, description)
            && after.ledger.transitions[t].needsReview == db.ledger.transitions[t].needsReview
            && db.audit.heads.Keys == after.audit.heads.Keys
  {
    var after := Perform(c, db, CommitTx(c, db, k, node, edge, s));
    CommitParts(c, db, k, node, edge, s, after);
    PartsRealise(db, after, t, k, node, edge);
  }

  // ------------------------------------------------------------ a reconciler left alone

  /** One move of an activity, whose transaction and next state are known, and the
      steps after it. */
  lemma Moved(c: Config, w: World, p: Id, move: Move, proc: Proc, done: bool, v: World, next: Option<Proc>, rest: seq<Step>)
    requires p in w.procs && w.procs[p] == proc && !move.RunAdapter?
    requires done == Commits(c, w.db, MoveTx(c, w.db, proc, move)) && next == Next(w.db, proc, move, done)
    requires v == World(Perform(c, w.db, MoveTx(c, w.db, proc, move)), Put(w.procs, p, next), w.runs)
    ensures Run(c, w, [Go(p, move)] + rest) == Run(c, v, rest)
  {
    assert w.runs + [] == w.runs;
    RunFromFront(c, w, Go(p, move), rest, v);
  }

  lemma ReadForReviewMoves(c: Config, w: World, p: Id, proc: Proc, k: Commit, v: World, rest: seq<Step>)
    requires p in w.procs && w.procs[p] == proc && proc.Reviewing?
    requires Next(w.db, proc, ReadForReview, false) == Some(ReviewReady(k, proc.summary))
    requires v == World(w.db, w.procs[p := ReviewReady(k, proc.summary)], w.runs)
    ensures Run(c, w, [Go(p, ReadForReview)] + rest) == Run(c, v, rest)
  {
    Moved(c, w, p, ReadForReview, proc, false, v, Some(ReviewReady(k, proc.summary)), rest);
  }

  lemma CommitReviewMoves(c: Config, w: World, p: Id, k: Commit, summary: string, node: Id, edge: Id, s: Stamp,
                          v: World, rest: seq<Step>)
    requires p in w.procs && w.procs[p] == ReviewReady(k, summary) && Commits(c, w.db, CommitTx(c, w.db, k, node, edge, s))
    requires v == World(Perform(c, w.db, CommitTx(c, w.db, k, node, edge, s)), w.procs[p := ReviewDone(k, summary)], w.runs)
    ensures Run(c, w, [Go(p, CommitReview(node, edge, s, false))] + rest) == Run(c, v, rest)
  {
    var move := CommitReview(node, edge, s, false);
    assert MoveTx(c, w.db, ReviewReady(k, summary), move) == CommitTx(c, w.db, k, node, edge, s);
    Moved(c, w, p, move, ReviewReady(k, summary), true, v, Some(ReviewDone(k, summary)), rest);
  }

  lemma FinishReviewMoves(c: Config, w: World, p: Id, k: Commit, summary: string, s: Stamp, v: World)
    requires p in w.procs && w.procs[p] == ReviewDone(k, summary) && Commits(c, w.db, ReviewDoneTx(w.db, k, summary, s))
    requires v == World(Perform(c, w.db, ReviewDoneTx(w.db, k, summary, s)), w.procs - {p}, w.runs)
    ensures Run(c, w, [Go(p, FinishReview(s))] + []) == v
  {
    assert MoveTx(c, w.db, ReviewDone(k, summary), FinishReview(s)) == ReviewDoneTx(w.db, k, summary, s);
    Moved(c, w, p, FinishReview(s), ReviewDone(k, summary), true, v, None, []);
  }

  lemma FailReviewMoves(c: Config, w: World, p: Id, proc: Proc, s: Stamp, tx: Option<Tx>, v: World)
    requires p in w.procs && w.procs[p] == proc && proc.Reviewing?
    requires tx == ReviewFailedTx(w.db, proc.t, proc.row.branch, proc.row.agent, proc.summary, s) && Commits(c, w.db, tx)
    requires v == World(Perform(c, w.db, tx), w.procs - {p}, w.runs)
    ensures Run(c, w, [Go(p, FailReview(s))] + []) == v
  {
    assert MoveTx(c, w.db, proc, FailReview(s)) == tx;
    Moved(c, w, p, FailReview(s), proc, true, v, None, []);
  }

  /** The steps of a reconciler that finds that the work was done. */
  function ReviewSteps(p: Id, t: Id, summary: string, description: Option<string>, o: Overrides, node: Id, edge: Id,
                       s: Stamp, last: Stamp): seq<Step>
  {
    [Review(p, t, summary, description, o)] + ([Go(p, ReadForReview)] + ReviewEnd(p, node, edge, s, last))
  }

  function ReviewEnd(p: Id, node: Id, edge: Id, s: Stamp, last: Stamp): seq<Step> {
    [Go(p, CommitReview(node, edge, s, false))] + ([Go(p, FinishReview(last))] + [])
  }

  lemma ReviewStarts(c: Config, w: World, p: Id, t: Id, summary: string, description: Option<string>, o: Overrides,
                     v: World, rest: seq<Step>)
    requires p !in w.procs && StageOf(w.db.ledger, t) == Some(Uncertain)
    requires v == World(w.db, w.procs[p := Reviewing(t, w.db.ledger.transitions[t], summary, description.GetOr(summary), o)],
                        w.runs)
    ensures Run(c, w, [Review(p, t, summary, description, o)] + rest) == Run(c, v, rest)
  {
    assert w.runs + [] == w.runs;
    RunFromFront(c, w, Review(p, t, summary, description, o), rest, v);
  }

  lemma FlagGoesDown(c: Config, before: Db, db: Db, t: Id, node: Id, d: string, k: Commit, summary: string, s: Stamp)
    requires Realised(before, db, t, node, d) && k.t == t && k.branch == before.ledger.transitions[t].branch
    requires db.graph.branches[k.branch].lattice in db.audit.heads
    ensures var tx := ReviewDoneTx(db, k, summary, s);
            Commits(c, db, tx) && Realised(before, Perform(c, db, tx), t, node, d) && !Flagged(Perform(c, db, tx).ledger, t)
  {
  }

  lemma ReviewReads(c: Config, w: World, p: Id, t: Id, summary: string, description: Option<string>, o: Overrides,
                    k: Commit, v: World, end: seq<Step>)
    requires p !in w.procs && StageOf(w.db.ledger, t) == Some(Uncertain)
    requires var reviewing := Reviewing(t, w.db.ledger.transitions[t], summary, description.GetOr(summary), o);
             Next(w.db, reviewing, ReadForReview, false) == Some(ReviewReady(k, summary))
    requires v == World(w.db, w.procs[p := ReviewReady(k, summary)], w.runs)
    ensures Run(c, w, [Review(p, t, summary, description, o)] + ([Go(p, ReadForReview)] + end)) == Run(c, v, end)
  {
    var reviewing := Reviewing(t, w.db.ledger.transitions[t], summary, description.GetOr(summary), o);
    var u := World(w.db, w.procs[p := reviewing], w.runs);
    ReviewStarts(c, w, p, t, summary, description, o, u, [Go(p, ReadForReview)] + end);
    assert u.procs[p := ReviewReady(k, summary)] == w.procs[p := ReviewReady(k, summary)];
    ReadForReviewMoves(c, u, p, reviewing, k, v, end);
  }

  lemma ReviewCommits(c: Config, w: World, p: Id, k: Commit, summary: string, node: Id, edge: Id, s: Stamp, last: Stamp,
                      db: Db, end: Db)
    requires p in w.procs && w.procs[p] == ReviewReady(k, summary) && Commits(c, w.db, CommitTx(c, w.db, k, node, edge, s))
    requires db == Perform(c, w.db, CommitTx(c, w.db, k, node, edge, s))
    requires Commits(c, db, ReviewDoneTx(db, k, summary, last)) && end == Perform(c, db, ReviewDoneTx(db, k, summary, last))
    ensures Run(c, w, ReviewEnd(p, node, edge, s, last)) == World(end, w.procs - {p}, w.runs)
  {
    var v := World(db, w.procs[p := ReviewDone(k, summary)], w.runs);
    CommitReviewMoves(c, w, p, k, summary, node, edge, s, v, [Go(p, FinishReview(last))] + []);
    FinishReviewMoves(c, v, p, k, summary, last, World(end, v.procs - {p}, w.runs));
    assert v.procs - {p} == w.procs - {p};
  }

  lemma CommitThenConclude(c: Config, db: Db, t: Id, o: Overrides, d: string, k: Commit, summary: string, node: Id, edge: Id,
                 s: Stamp, last: Stamp)
    requires G.Sound(db.graph) && Commits(c, db, CommitTx(c, db, k, node, edge, s))
    requires t in db.ledger.transitions && db.ledger.transitions[t].branch in db.graph.branches
    requires db.graph.branches[db.ledger.transitions[t].branch].lattice in db.audit.heads
    requires BuiltOn(db, t, db.ledger.transitions[t], o, d, k)
    ensures var done := Perform(c, db, CommitTx(c, db, k, node, edge, s));
            var tx := ReviewDoneTx(done, k, summary, last);
            Commits(c, done, tx) && Realised(db, Perform(c, done, tx), t, node, d) && !Flagged(Perform(c, done, tx).ledger, t)
  {
    CommitRealises(c, db, t, o, d, k, node, edge, s);
    FlagGoesDown(c, db, Perform(c, db, CommitTx(c, db, k, node, edge, s)), t, node, d, k, summary, last);
  }

  lemma ReviewRuns(c: Config, w: World, p: Id, t: Id, summary: string, description: Option<string>, o: Overrides,
                   k: Commit, node: Id, edge: Id, s: Stamp, last: Stamp, db: Db, end: Db)
    requires p !in w.procs && StageOf(w.db.ledger, t) == Some(Uncertain)
    requires var reviewing := Reviewing(t, w.db.ledger.transitions[t], summary, description.GetOr(summary), o);
             Next(w.db, reviewing, ReadForReview, false) == Some(ReviewReady(k, summary))
    requires Commits(c, w.db, CommitTx(c, w.db, k, node, edge, s))
    requires db == Perform(c, w.db, CommitTx(c, w.db, k, node, edge, s))
    requires Commits(c, db, ReviewDoneTx(db, k, summary, last)) && end == Perform(c, db, ReviewDoneTx(db, k, summary, last))
    ensures Run(c, w, ReviewSteps(p, t, summary, description, o, node, edge, s, last)) == World(end, w.procs, w.runs)
  {
    var v := World(w.db, w.procs[p := ReviewReady(k, summary)], w.runs);
    ReviewReads(c, w, p, t, summary, description, o, k, v, ReviewEnd(p, node, edge, s, last));
    ReviewCommits(c, v, p, k, summary, node, edge, s, last, db, end);
    assert v.procs - {p} == w.procs;
  }

  /** A reconciler that is left alone commits what its caller describes, with its
      node as the new head, and lowers the flag, if nothing stands in its way. */
  lemma ReviewLeftAloneSucceeds(c: Config, w: World, p: Id, t: Id, summary: string, description: Option<string>,
                                o: Overrides, node: Id, edge: Id, s: Stamp, last: Stamp)
    returns (end: Db)
    requires G.Sound(w.db.graph) && p !in w.procs && StageOf(w.db.ledger, t) == Some(Uncertain)
    requires var b := w.db.ledger.transitions[t].branch;
             b in w.db.graph.branches && w.db.graph.branches[b].lattice in w.db.audit.heads
    requires Clear(w.db, w.db.ledger.transitions[t], o, node, edge)
    ensures Run(c, w, ReviewSteps(p, t, summary, description, o, node, edge, s, last)) == World(end, w.procs, w.runs)
    ensures Realised(w.db, end, t, node, description.GetOr(summary)) && !Flagged(end.ledger, t)
  {
    var row, d := w.db.ledger.transitions[t], description.GetOr(summary);
    var k := ReadForReviewBuildsOn(w.db, t, row, summary, d, o, false);
    BuiltCommitGoesThroughExactlyWhen(c, w.db, t, row, o, d, k, node, edge, s);
    CommitThenConclude(c, w.db, t, o, d, k, summary, node, edge, s, last);
    var db := Perform(c, w.db, CommitTx(c, w.db, k, node, edge, s));
    end := Perform(c, db, ReviewDoneTx(db, k, summary, last));
    ReviewRuns(c, w, p, t, summary, description, o, k, node, edge, s, last, db, end);
  }

  /** One that finds that the work was not done settles the transition as failed
      and lowers the flag. */
  lemma ReviewLeftAloneFails(c: Config, w: World, p: Id, t: Id, summary: string, description: Option<string>,
                             o: Overrides, s: Stamp)
    returns (end: Db)
    requires p !in w.procs && StageOf(w.db.ledger, t) == Some(Uncertain)
    requires var b := w.db.ledger.transitions[t].branch;
             b in w.db.graph.branches && w.db.graph.branches[b].lattice in w.db.audit.heads
    ensures Run(c, w, [Review(p, t, summary, description, o)] + ([Go(p, FailReview(s))] + [])) == World(end, w.procs, w.runs)
    ensures StageOf(end.ledger, t) == Some(Failed) && !Flagged(end.ledger, t) && end.graph == w.db.graph
  {
    var row := w.db.ledger.transitions[t];
    var tx := ReviewFailedTx(w.db, t, row.branch, row.agent, summary, s);
    FailureSettles(c, w.db, t, row, summary, s);
    end := Perform(c, w.db, tx);
    FailureRuns(c, w, p, t, summary, description, o, s, tx, end);
  }

  lemma FailureRuns(c: Config, w: World, p: Id, t: Id, summary: string, description: Option<string>, o: Overrides,
                    s: Stamp, tx: Option<Tx>, end: Db)
    requires p !in w.procs && StageOf(w.db.ledger, t) == Some(Uncertain)
    requires var row := w.db.ledger.transitions[t]; tx == ReviewFailedTx(w.db, t, row.branch, row.agent, summary, s)
    requires Commits(c, w.db, tx) && end == Perform(c, w.db, tx)
    ensures Run(c, w, [Review(p, t, summary, description, o)] + ([Go(p, FailReview(s))] + [])) == World(end, w.procs, w.runs)
  {
    var reviewing := Reviewing(t, w.db.ledger.transitions[t], summary, description.GetOr(summary), o);
    var v := World(w.db, w.procs[p := reviewing], w.runs);
    ReviewStarts(c, w, p, t, summary, description, o, v, [Go(p, FailReview(s))] + []);
    FailReviewMoves(c, v, p, reviewing, s, tx, World(end, v.procs - {p}, w.runs));
    assert v.procs - {p} == w.procs;
  }

  lemma FailureSettles(c: Config, db: Db, t: Id, row: L.Transition, summary: string, s: Stamp)
    requires StageOf(db.ledger, t) == Some(Uncertain) && row == db.ledger.transitions[t]
    requires row.branch in db.graph.branches && db.graph.branches[row.branch].lattice in db.audit.heads
    ensures var tx := ReviewFailedTx(db, t, row.branch, row.agent, summary, s);
            var after := Perform(c, db, tx);
            && Commits(c, db, tx) && after.graph == db.graph
            && StageOf(after.ledger, t) == Some(Failed) && !Flagged(after.ledger, t)
  {
  }
}
