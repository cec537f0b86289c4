/** What holds in every run about transitions: how often one is claimed and run,
    which stages it passes, who approved it, and what its key allows. */
module ExecutionTheorems {
  import opened Wrappers
  import opened JsonText
  import opened Stages
  import opened Tokens
  import opened Transactions
  import opened Protocol
  import opened ProtocolInvariant
  import opened LedgerTheorems
  import P = PolicyEngine
  import PT = PolicyTheorems
  import G = Graph
  import L = Ledger

  lemma ReachableIsSound(c: Config, steps: seq<Step>)
    requires Proper(c)
    ensures Inv(c, Run(c, START, steps))
  {
    StartIsSound(c);
    RunKeepsInv(c, START, steps);
  }

  // ------------------------------------------------------------ at most once

  /** The used authorizations of a transition. */
  function SpentOn(l: L.Ledger, t: Id): set<Id> {
    set a | a in l.authorizations && l.authorizations[a].used && l.authorizations[a].token.transition == t
  }

  lemma OneOrNone(l: L.Ledger, t: Id)
    requires ClaimsFit(l)
    ensures |SpentOn(l, t)| == if t in l.transitions && PastClaim(l.transitions[t].stage) then 1 else 0
  {
    var s := SpentOn(l, t);
    if t in l.transitions && PastClaim(l.transitions[t].stage) {
      var a :| Spent(l, a, t);
      forall b | b in s ensures b == a {
        assert Spent(l, b, t) && Spent(l, a, t);
      }
      assert s == {a};
    } else {
      forall b | b in s ensures false {
        assert Spent(l, b, t);
      }
      assert s == {};
    }
  }

  /** Whatever tokens were issued and whoever presented them, when and how often:
      a transition that is executing or beyond has spent exactly one
      authorization, and every other transition none. */
  lemma ExactlyOneAuthorizationIsSpent(c: Config, steps: seq<Step>, t: Id)
    requires Proper(c)
    ensures var l := Run(c, START, steps).db.ledger;
            |SpentOn(l, t)| == if t in l.transitions && PastClaim(l.transitions[t].stage) then 1 else 0
  {
    ReachableIsSound(c, steps);
    OneOrNone(Run(c, START, steps).db.ledger, t);
  }

  function Count(runs: seq<Id>, t: Id): nat {
    if runs == [] then 0 else Count(runs[..|runs| - 1], t) + if runs[|runs| - 1] == t then 1 else 0
  }

  lemma {:induction false} DistinctCount(runs: seq<Id>, t: Id)
    requires forall i, j :: 0 <= i < j < |runs| ==> runs[i] != runs[j]
    ensures Count(runs, t) == if t in runs then 1 else 0
  {
    if runs != [] {
      var n := |runs| - 1;
      DistinctCount(runs[..n], t);
      assert runs == runs[..n] + [runs[n]];
    }
  }

  /** In every interleaving the adapter runs at most once per transition, and
      only for one whose authorization was spent. */
  lemma AdapterRunsAtMostOnce(c: Config, steps: seq<Step>, t: Id)
    requires Proper(c)
    ensures var w := Run(c, START, steps);
            Count(w.runs, t) <= 1 && (Count(w.runs, t) == 1 ==> |SpentOn(w.db.ledger, t)| == 1)
  {
    ReachableIsSound(c, steps);
    var w := Run(c, START, steps);
    DistinctCount(w.runs, t);
    OneOrNone(w.db.ledger, t);
  }

  /** No two proxies are ever executing one transition. */
  lemma OneExecutorPerTransition(c: Config, steps: seq<Step>, p: Id, q: Id)
    requires Proper(c)
    requires var w := Run(c, START, steps);
             p in w.procs && q in w.procs && Executes(w.procs[p]).Some? && Executes(w.procs[p]) == Executes(w.procs[q])
    ensures p == q
  {
    ReachableIsSound(c, steps);
  }

  // ------------------------------------------------------------ revalidation

  /** A claim gets through only with the issued text, for the very payload and
      audience that the token was issued for, with a valid payload and before the
      token expires. With a judge, moreover, the policies of the moment must allow
      the action, outright or with a warning, and the policy versions they match
      be the very map the token was issued under. */
  lemma ClaimMeetsCurrentPolicy(c: Config, steps: seq<Step>, p: Presented, token: Token)
    requires Proper(c)
    requires ClaimTx(c, Run(c, START, steps).db, p).Some?
    requires VerifyToken(c.codec, p.text, p.now) == Some(token)
    ensures var l := Run(c, START, steps).db.ledger;
            && token.authorization in l.authorizations && l.authorizations[token.authorization].token == token
            && p.text == c.codec.write(token) && c.codec.read(p.text) == Some(token)
            && token.payloadHash == p.payloadHash && token.audience == p.audience && p.payloadValid
            && Less(p.now, token.expiresAt)
    ensures p.judge.Some? ==>
              var r := p.judge.value.resolve(p.action, token.agent, token.project, token.branch);
              r.effect in {P.Allow, P.Warn} && VersionsMatched(r.matched) == token.versions
  {
    ReachableIsSound(c, steps);
    ClaimIsOfTheIssuedToken(c, Run(c, START, steps).db, p, token);
  }

  /** Where the judge evaluates a list of policies, a claim gets through only with
      a policy that allows the action, outright or with a warning, among those
      of the highest priority that stand, and only if no denial stands. */
  lemma ClaimNeedsAStandingPolicy(c: Config, steps: seq<Step>, p: Presented, token: Token, ps: seq<P.Policy>, now: string,
                                  actionGlob: (string, string) -> bool, resourceGlob: (string, string) -> bool,
                                  cel: (string, map<string, string>) -> Option<bool>)
    requires Proper(c) && VerifyToken(c.codec, p.text, p.now) == Some(token) && PT.DistinctIds(ps)
    ensures var r := P.Request(p.action.kind, p.action.resources,
              map["agent_id" := token.agent, "project_id" := token.project, "branch_id" := token.branch],
              now, actionGlob, resourceGlob, cel);
            p.judge == Some(JudgeOf(ps, now, actionGlob, resourceGlob, cel))
            && ClaimTx(c, Run(c, START, steps).db, p).Some? ==>
              && !PT.Denied(PT.Standing(ps, r))
              && exists q :: PT.OnTop(PT.Standing(ps, r), q) && q.effect in {P.Allow, P.Warn}
  {
    var r := P.Request(p.action.kind, p.action.resources,
      map["agent_id" := token.agent, "project_id" := token.project, "branch_id" := token.branch],
      now, actionGlob, resourceGlob, cel);
    if p.judge == Some(JudgeOf(ps, now, actionGlob, resourceGlob, cel)) && ClaimTx(c, Run(c, START, steps).db, p).Some? {
      assert p.judge.value.resolve(p.action, token.agent, token.project, token.branch) == P.Evaluate(ps, r);
      ClaimMeetsCurrentPolicy(c, steps, p, token);
      PT.PermissionNeedsAStandingPolicy(ps, r);
    }
  }

  /** Exactly when presenting an issued token claims it: it is unused, its
      transition is authorized, it has not expired, it was issued for the payload
      and the audience that it is presented for, the payload is valid, and current
      policy, if asked, lets the action through under the same versions. */
  lemma IssuedTokenIsClaimedExactlyWhen(c: Config, db: Db, p: Presented, auth: Id)
    requires Proper(c) && HashesFit(db.ledger, Hasher(c), c.seal) && auth in db.ledger.authorizations
    requires p.text == c.codec.write(db.ledger.authorizations[auth].token)
    ensures var row := db.ledger.authorizations[auth];
            Commits(c, db, ClaimTx(c, db, p)) <==>
              && !row.used && db.ledger.transitions[row.token.transition].stage.Authorized?
              && Less(p.now, row.token.expiresAt)
              && row.token.payloadHash == p.payloadHash && row.token.audience == p.audience && p.payloadValid
              && (p.judge.Some? ==>
                    var r := p.judge.value.resolve(p.action, row.token.agent, row.token.project, row.token.branch);
                    r.effect in {P.Allow, P.Warn} && VersionsMatched(r.matched) == row.token.versions)
  {
    var token := db.ledger.authorizations[auth].token;
    assert c.codec.read(p.text) == Some(token) && token.authorization == auth;
    assert c.hash(p.text) == Hasher(c)(token) == db.ledger.authorizations[auth].tokenHash;
    if Less(p.now, token.expiresAt) && Less(token.expiresAt, p.now) {
      LessTransitive(p.now, token.expiresAt, p.now);
      LessIrreflexive(p.now);
    }
  }

  // ------------------------------------------------------------ stages

  /** One more observation of a stage; a proposal passes the first stage inside
      one transaction. */
  function Observe(seen: seq<Stage>, now: Option<Stage>): seq<Stage> {
    if now.None? then seen
    else if seen == [] then [Proposed, now.value]
    else if seen[|seen| - 1] == now.value then seen
    else seen + [now.value]
  }

  /** The stages a transition has been seen in, each listed once per change. */
  function StagesSeen(c: Config, steps: seq<Step>, t: Id): seq<Stage> {
    if steps == [] then []
    else Observe(StagesSeen(c, steps[..|steps| - 1], t), StageOf(Run(c, START, steps).db.ledger, t))
  }

  ghost predicate Recorded(seen: seq<Stage>, now: Option<Stage>) {
    && (seen == [] <==> now.None?)
    && (seen != [] ==> |seen| >= 2 && seen[0] == Proposed && seen[|seen| - 1] == now.value && LegalPath(seen))
  }

  ghost predicate StageMoves(before: Option<Stage>, after: Option<Stage>) {
    && (before.None? && after.Some? ==> Legal(Proposed, after.value))
    && (before.Some? ==> after.Some? && (after == before || Legal(before.value, after.value)))
  }

  lemma ObservingKeepsRecord(seen: seq<Stage>, before: Option<Stage>, after: Option<Stage>)
    requires Recorded(seen, before) && StageMoves(before, after)
    ensures Recorded(Observe(seen, after), after)
  {
  }

  lemma StepMovesStage(c: Config, w: World, step: Step, t: Id)
    requires Proper(c) && Inv(c, w)
    ensures StageMoves(StageOf(w.db.ledger, t), StageOf(Apply(c, w, step).db.ledger, t))
  {
    ApplyKeepsInv(c, w, step);
    var l, m := w.db.ledger, Apply(c, w, step).db.ledger;
    assert t in l.transitions ==> RowMoves(l.transitions[t], m.transitions[t]);
  }

  lemma {:induction false} StagesFollowTheMachine(c: Config, steps: seq<Step>, t: Id)
    requires Proper(c)
    ensures Recorded(StagesSeen(c, steps, t), StageOf(Run(c, START, steps).db.ledger, t))
  {
    if steps != [] {
      var n := |steps| - 1;
      var w := Run(c, START, steps[..n]);
      StagesFollowTheMachine(c, steps[..n], t);
      ReachableIsSound(c, steps[..n]);
      StepMovesStage(c, w, steps[n], t);
      ObservingKeepsRecord(StagesSeen(c, steps[..n], t), StageOf(w.db.ledger, t),
                           StageOf(Apply(c, w, steps[n]).db.ledger, t));
    }
  }

  /** Over a whole run the stages of a transition form a path in the machine of
      at most five changes, in which only the last stage can be terminal. */
  lemma StageHistoryIsShort(c: Config, steps: seq<Step>, t: Id)
    requires Proper(c) && StagesSeen(c, steps, t) != []
    ensures var seen := StagesSeen(c, steps, t);
            && LegalPath(seen) && |seen| - 1 <= 5
            && forall i :: 0 <= i < |seen| - 1 ==> !Terminal(seen[i])
  {
    StagesFollowTheMachine(c, steps, t);
    LegalPathsAreShort(StagesSeen(c, steps, t));
  }

  // ------------------------------------------------------------ approvals

  function PendingCount(requests: seq<L.Request>, t: Id): nat {
    if requests == [] then 0
    else
      var n := |requests| - 1;
      PendingCount(requests[..n], t) + if requests[n].transition == t && requests[n].status.Pending? then 1 else 0
  }

  lemma {:induction false} CountOfNone(requests: seq<L.Request>, t: Id)
    requires forall i :: 0 <= i < |requests| ==> requests[i].transition != t || !requests[i].status.Pending?
    ensures PendingCount(requests, t) == 0
  {
    if requests != [] {
      CountOfNone(requests[..|requests| - 1], t);
    }
  }

  lemma {:induction false} CountOfOne(requests: seq<L.Request>, t: Id, k: nat)
    requires k < |requests| && requests[k].transition == t && requests[k].status.Pending?
    requires forall i :: 0 <= i < |requests| && requests[i].transition == t ==> i == k
    ensures PendingCount(requests, t) == 1
  {
    var n := |requests| - 1;
    if k == n {
      CountOfNone(requests[..n], t);
    } else {
      CountOfOne(requests[..n], t, k);
    }
  }

  lemma RequestsCounted(l: L.Ledger, t: Id)
    requires Approvals(l) && t in l.transitions
    ensures l.transitions[t].stage.PendingApproval? ==> PendingCount(l.requests, t) == 1
    ensures PendingCount(l.requests, t) == 1 ==> l.transitions[t].stage in {PendingApproval, Cancelled, Expired}
  {
    ApprovalsMean(l, t);
    L.PendingRequestIsPending(l.requests, t);
    if L.PendingRequest(l.requests, t).Some? {
      var k := L.PendingRequest(l.requests, t).value;
      assert RequestFits(l, l.requests[k]);
      CountOfOne(l.requests, t, k);
    } else {
      CountOfNone(l.requests, t);
    }
  }

  /** A transition that waits for approval has exactly one pending request. A
      pending request without a waiting transition is left by a withdrawal. */
  lemma WaitingHasOnePendingRequest(c: Config, steps: seq<Step>, t: Id)
    requires Proper(c) && t in Run(c, START, steps).db.ledger.transitions
    ensures var l := Run(c, START, steps).db.ledger;
            && (l.transitions[t].stage.PendingApproval? ==> PendingCount(l.requests, t) == 1)
            && (PendingCount(l.requests, t) == 1 ==> l.transitions[t].stage in {PendingApproval, Cancelled, Expired})
  {
    ReachableIsSound(c, steps);
    RequestsCounted(Run(c, START, steps).db.ledger, t);
  }

  lemma OperationsKeepRequests(l: L.Ledger, op: L.Op)
    ensures var m := L.Perform(l, op);
            && |l.requests| <= |m.requests|
            && forall i :: 0 <= i < |l.requests| ==> m.requests[i].transition == l.requests[i].transition
  {
    if op.Deciding? {
      L.PendingRequestIsPending(l.requests, op.t);
    }
  }

  lemma StepKeepsRequest(c: Config, w: World, step: Step, t: Id)
    requires HasRequest(w.db.ledger.requests, t)
    ensures HasRequest(Apply(c, w, step).db.ledger.requests, t)
  {
    var tx := Plan(c, w, step);
    if Commits(c, w.db, tx) {
      OperationsKeepRequests(w.db.ledger, tx.value.ledger);
      var i :| 0 <= i < |w.db.ledger.requests| && w.db.ledger.requests[i].transition == t;
      assert L.Perform(w.db.ledger, tx.value.ledger).requests[i].transition == t;
    }
  }

  lemma {:induction false} RunKeepsRequest(c: Config, w: World, steps: seq<Step>, t: Id)
    requires HasRequest(w.db.ledger.requests, t)
    ensures HasRequest(Run(c, w, steps).db.ledger.requests, t)
  {
    if steps != [] {
      RunKeepsRequest(c, w, steps[..|steps| - 1], t);
      StepKeepsRequest(c, Run(c, w, steps[..|steps| - 1]), steps[|steps| - 1], t);
    }
  }

  /** Separation of duties over a whole run: whatever once waited for approval
      and is now authorized or further was approved by a principal other than
      its agent. */
  lemma ApprovedBySomebodyElse(c: Config, first: seq<Step>, more: seq<Step>, t: Id)
    requires Proper(c)
    requires StageOf(Run(c, START, first).db.ledger, t) == Some(PendingApproval)
    requires StageOf(Run(c, Run(c, START, first), more).db.ledger, t)
          in {Some(Authorized), Some(Executing), Some(Uncertain), Some(Succeeded), Some(Failed)}
    ensures var l := Run(c, Run(c, START, first), more).db.ledger;
            exists r :: r in l.requests && r.transition == t && r.status.Approved?
              && r.decidedBy.Some? && r.decidedBy.value != l.transitions[t].agent
  {
    var w := Run(c, START, first);
    ReachableIsSound(c, first);
    assert HasRequest(w.db.ledger.requests, t);
    RunKeepsRequest(c, w, more, t);
    RunKeepsInv(c, w, more);
    ApprovalsMean(Run(c, w, more).db.ledger, t);
  }

  // ------------------------------------------------------------ outcomes

  /** An uncertain transition is always flagged for review, whatever concurrent
      reconcilers do; and what the outcome columns say agrees with the stage. */
  lemma UncertainIsFlagged(c: Config, steps: seq<Step>, t: Id)
    requires Proper(c) && t in Run(c, START, steps).db.ledger.transitions
    ensures var row := Run(c, START, steps).db.ledger.transitions[t];
            && (row.stage.Uncertain? ==> row.needsReview)
            && (row.stage.Succeeded? <==> row.toNode.Some?)
            && (row.stage.Succeeded? <==> row.exitStatus == Some(L.Success))
  {
    ReachableIsSound(c, steps);
    assert OutcomeFits(Run(c, START, steps).db.ledger.transitions[t]);
  }

  // ------------------------------------------------------------ causes

  /** What the judge, if there is one, makes of a proposal in the project of its
      branch. */
  function JudgedEffect(g: G.Graph, p: Propose): Option<P.Effect> {
    if p.judge.None? then None
    else
      var b := p.proposal.branch;
      var project := if b in g.branches && g.branches[b].lattice in g.lattices then g.lattices[g.branches[b].lattice] else "";
      Some(p.judge.value.resolve(p.action, p.proposal.agent, project, b).effect)
  }

  /** A denied proposal is refused, an allowed one authorized, and any other one
      waits. */
  predicate StageFits(effect: Option<P.Effect>, stage: Stage) {
    && (stage == Denied <==> effect == Some(P.Deny))
    && (stage == Authorized <==> effect in {Some(P.Allow), Some(P.Warn)})
    && (stage == PendingApproval <==> effect in {None, Some(P.RequireApproval)})
  }

  ghost predicate ByProposal(w: World, step: Step, t: Id, stage: Stage) {
    && step.Ask? && step.call.ProposeAction? && step.call.propose.proposal.id == t
    && StageFits(JudgedEffect(w.db.graph, step.call.propose), stage)
  }

  /** A move of a proxy that executes the transition and has run its adapter. */
  ghost predicate AfterRunning(w: World, step: Step, t: Id) {
    step.Go? && step.proc in w.procs && Executes(w.procs[step.proc]) == Some(t) && t in w.runs
  }

  /** A move of a reconciler of the transition. */
  ghost predicate ByReconciler(w: World, step: Step, t: Id) {
    && step.Go? && step.proc in w.procs
    && match w.procs[step.proc]
       case Reviewing(u, _, _, _, _) => u == t
       case ReviewReady(k, _) => k.t == t
       case _ => false
  }

  /** The only steps after which a transition is newly in a stage. */
  ghost predicate Caused(c: Config, w: World, step: Step, t: Id, now: Stage) {
    var agent := if t in w.db.ledger.transitions then w.db.ledger.transitions[t].agent else "";
    match now
    case Proposed => false
    case PendingApproval => ByProposal(w, step, t, now)
    case Denied =>
      || ByProposal(w, step, t, now)
      || (step.Ask? && step.call.DenyApproval? && step.call.t == t && step.call.actor != agent)
    case Authorized =>
      || ByProposal(w, step, t, now)
      || (step.Ask? && step.call.Approve? && step.call.t == t
          && step.call.actor != agent && step.call.actorType != "agent")
    case Cancelled =>
      step.Ask? && step.call.Cancel? && step.call.t == t && (step.call.actor == agent || step.call.administrator)
    case Expired => step.Ask? && step.call.Expire? && step.call.t == t
    case Executing =>
      && step.Execute?
      && var token := VerifyToken(c.codec, step.presented.text, step.presented.now);
         && token.Some? && token.value.transition == t && step.presented.payloadValid
         && token.value.payloadHash == step.presented.payloadHash && token.value.audience == step.presented.audience
    case Uncertain =>
      || (step.Ask? && step.call.MarkUncertain? && step.call.t == t)
      || (AfterRunning(w, step, t) && (step.move.RecordRun? || step.move.RecordLost?))
    case Succeeded =>
      || (AfterRunning(w, step, t) && step.move.CommitRun?)
      || (ByReconciler(w, step, t) && step.move.CommitReview?)
    case Failed =>
      || (AfterRunning(w, step, t) && step.move.RecordRun?
          && w.procs[step.proc].Ran? && w.procs[step.proc].outcome.Broke?)
      || (ByReconciler(w, step, t) && step.move.FailReview?)
  }

  /** What an operation on the ledger must be to bring a transition newly into a
      stage. */
  ghost predicate Brings(l: L.Ledger, op: L.Op, t: Id, now: Stage) {
    match op
    case Keep => false
    case Opening(_, p, v) => p.id == t && now == L.FirstStage(v)
    case Deciding(u, decider, approve) =>
      u == t && t in l.transitions && decider != l.transitions[t].agent && now == if approve then Authorized else Denied
    case Withdrawing(u, to) => u == t && now == to
    case Issuing(_, _) => false
    case Claiming(auth) => now.Executing? && auth in l.authorizations && l.authorizations[auth].token.transition == t
    case Recording(u, failed, _) => u == t && now == if failed then Failed else Uncertain
    case Succeeding(u, _, _) => u == t && now.Succeeded?
    case Flagging(_, _) => false
    case FailingReviewed(u) => u == t && now.Failed?
  }

  lemma OperationBrings(l: L.Ledger, op: L.Op, t: Id)
    requires StageOf(L.Perform(l, op), t) != StageOf(l, t)
    ensures t in L.Perform(l, op).transitions && Brings(l, op, t, L.Perform(l, op).transitions[t].stage)
  {
  }

  lemma VerdictFits(g: G.Graph, p: Propose)
    ensures StageFits(JudgedEffect(g, p), L.FirstStage(VerdictFor(g, p)))
  {
  }

  lemma ProposalCauses(c: Config, w: World, p: Propose, s: Stamp, tx: Tx, t: Id, now: Stage)
    requires ProposeTx(c, w.db, p, s) == Some(tx) && Brings(w.db.ledger, tx.ledger, t, now)
    ensures Caused(c, w, Ask(ProposeAction(p, s)), t, now)
  {
    VerdictFits(w.db.graph, p);
    assert tx.ledger == L.Opening(c.keyIndex, p.proposal, VerdictFor(w.db.graph, p));
  }

  lemma CallCauses(c: Config, w: World, call: Call, tx: Tx, t: Id, now: Stage)
    requires CallTx(c, w.db, call) == Some(tx) && Brings(w.db.ledger, tx.ledger, t, now)
    ensures Caused(c, w, Ask(call), t, now)
  {
    if call.ProposeAction? {
      ProposalCauses(c, w, call.propose, call.stamp, tx, t, now);
    } else {
      assert !tx.ledger.Opening?;
    }
  }

  lemma ClaimCauses(c: Config, w: World, p: Id, presented: Presented, tx: Tx, t: Id, now: Stage)
    requires Proper(c) && HashesFit(w.db.ledger, Hasher(c), c.seal)
    requires ClaimTx(c, w.db, presented) == Some(tx) && Brings(w.db.ledger, tx.ledger, t, now)
    ensures Caused(c, w, Execute(p, presented), t, now)
  {
    var token := VerifyToken(c.codec, presented.text, presented.now).value;
    ClaimIsOfTheIssuedToken(c, w.db, presented, token);
  }

  /** The ledger operation of a move that gets as far as a transaction. */
  ghost predicate MoveOp(proc: Proc, move: Move, op: L.Op) {
    match move
    case RecordRun(_) => proc.Ran? && op == L.Recording(proc.token.transition, proc.outcome.Broke?, proc.summary)
    case CommitRun(_, _, _, _) => proc.Ready? && op.Succeeding? && op.t == proc.commit.t
    case RecordLost(reason, _) => proc.CommitLost? && op == L.Recording(proc.t, false, reason)
    case CommitReview(_, _, _, _) => proc.ReviewReady? && op.Succeeding? && op.t == proc.commit.t
    case FinishReview(_) => op.Flagging?
    case GiveUpReview(_) => op.Flagging?
    case FailReview(_) => proc.Reviewing? && op == L.FailingReviewed(proc.t)
    case _ => false
  }

  lemma MovesHaveTheirOps(c: Config, db: Db, proc: Proc, move: Move, tx: Tx)
    requires MoveTx(c, db, proc, move) == Some(tx)
    ensures MoveOp(proc, move, tx.ledger)
  {
  }

  lemma MoveCauses(c: Config, w: World, p: Id, move: Move, op: L.Op, t: Id, now: Stage)
    requires p in w.procs && RunsFit(w.db.ledger, w.procs, w.runs)
    requires MoveOp(w.procs[p], move, op) && Brings(w.db.ledger, op, t, now)
    ensures Caused(c, w, Go(p, move), t, now)
  {
    var proc := w.procs[p];
    assert Executes(proc).Some? ==> (proc.Claimed? <==> Executes(proc).value !in w.runs);
  }

  lemma PlannedCauses(c: Config, w: World, step: Step, tx: Tx, t: Id, now: Stage)
    requires Proper(c) && Inv(c, w) && Plan(c, w, step) == Some(tx) && Brings(w.db.ledger, tx.ledger, t, now)
    ensures Caused(c, w, step, t, now)
  {
    match step
    case Ask(call) => CallCauses(c, w, call, tx, t, now);
    case Execute(p, presented) => ClaimCauses(c, w, p, presented, tx, t, now);
    case Go(p, move) =>
      MovesHaveTheirOps(c, w.db, w.procs[p], move, tx);
      MoveCauses(c, w, p, move, tx.ledger, t, now);
  }

  /** Every change of stage has one of its few causes: nobody approves or
      refuses their own action, no agent approves, only the agent or an
      administrator cancels, only an acceptable presentation of a token issued
      for it starts a transition, and without a reconciler or an operator its
      outcome is recorded only after its adapter has run. */
  lemma StageChangesHaveTheirCauses(c: Config, w: World, step: Step, t: Id)
    requires Proper(c) && Inv(c, w)
    ensures var after := Apply(c, w, step).db.ledger;
            StageOf(after, t) != StageOf(w.db.ledger, t) ==>
              t in after.transitions && Caused(c, w, step, t, after.transitions[t].stage)
  {
    var after := Apply(c, w, step).db.ledger;
    if StageOf(after, t) != StageOf(w.db.ledger, t) {
      var tx := Plan(c, w, step);
      assert Commits(c, w.db, tx);
      assert after == L.Perform(w.db.ledger, tx.value.ledger);
      OperationBrings(w.db.ledger, tx.value.ledger, t);
      PlannedCauses(c, w, step, tx.value, t, after.transitions[t].stage);
    }
  }

  // ------------------------------------------------------------ idempotency

  /** At most one transition per key is live, and under the unique index there is
      only one of any kind. */
  lemma OneLiveTransitionPerKey(c: Config, steps: seq<Step>, t: Id, u: Id)
    requires Proper(c) && SameKey(Run(c, START, steps).db.ledger, t, u)
    requires var l := Run(c, START, steps).db.ledger;
             c.keyIndex || (Live(l.transitions[t].stage) && Live(l.transitions[u].stage))
    ensures t == u
  {
    ReachableIsSound(c, steps);
    OneLivePerKey(Run(c, START, steps).db.ledger, c.keyIndex, t, u);
  }

  predicate KeyTaken(l: L.Ledger, key: string) {
    exists t :: t in l.transitions && l.transitions[t].key == key
  }

  lemma ExistingMeansTaken(l: L.Ledger, key: string)
    requires Listed(l)
    ensures L.Existing(l, l.order, key).Some? <==> KeyTaken(l, key)
  {
    ExistingIsNewest(l, l.order, key);
    if L.Existing(l, l.order, key).None? {
      forall t | t in l.transitions ensures l.transitions[t].key != key {
        assert t in l.order;
        var i :| 0 <= i < |l.order| && l.order[i] == t;
        assert !HasKey(l, l.order[i], key);
      }
    }
  }

  /** The newest transition with the key, if there is one, is uncertain or has
      ended in any way but success. */
  ghost predicate KeyReleased(l: L.Ledger, key: string) {
    forall k: nat, t :: NewestAt(l, l.order, key, k, t) && HasKey(l, t, key) ==>
      l.transitions[t].stage in {Uncertain, Failed, Cancelled, Expired, Denied}
  }

  lemma NewestIsUnique(l: L.Ledger, key: string, i: nat, t: Id, j: nat, u: Id)
    requires NewestAt(l, l.order, key, i, t) && HasKey(l, t, key) && NewestAt(l, l.order, key, j, u) && HasKey(l, u, key)
    ensures t == u
  {
  }

  lemma RepeatedExactly(l: L.Ledger, key: string)
    ensures Repeated(l, key).Some? <==> !KeyReleased(l, key)
  {
    ExistingIsNewest(l, l.order, key);
    var e := L.Existing(l, l.order, key);
    if e.Some? {
      var k: nat :| NewestAt(l, l.order, key, k, e.value);
      assert HasKey(l, e.value, key);
      forall j: nat, t | NewestAt(l, l.order, key, j, t) && HasKey(l, t, key) ensures t == e.value {
        NewestIsUnique(l, key, k, e.value, j, t);
      }
      AllowsAnotherAttempt(l.transitions[e.value].stage);
      assert KeyReleased(l, key) <==> l.transitions[e.value].stage in {Uncertain, Failed, Cancelled, Expired, Denied};
    } else {
      forall j: nat, t | NewestAt(l, l.order, key, j, t) ensures !HasKey(l, t, key) {
      }
    }
  }

  /** Exactly when a proposal is inserted. Its key must be free, or held by
      transitions of which the newest failed, was withdrawn, refused or is
      uncertain; and under the unique index the second kind does not help. */
  lemma ProposalCommitsExactlyWhen(c: Config, db: Db, p: Propose, s: Stamp)
    requires Listed(db.ledger)
    ensures Commits(c, db, ProposeTx(c, db, p, s)) <==>
              && KeyReleased(db.ledger, p.proposal.key)
              && !(c.keyIndex && KeyTaken(db.ledger, p.proposal.key))
              && p.proposal.branch in db.graph.branches
              && p.proposal.id !in db.ledger.transitions
              && db.graph.branches[p.proposal.branch].lattice in db.audit.heads
  {
    ExistingMeansTaken(db.ledger, p.proposal.key);
    RepeatedExactly(db.ledger, p.proposal.key);
  }

  /** A repeated proposal changes nothing and gets back the newest transition
      with its key. */
  lemma RepeatedProposalChangesNothing(c: Config, w: World, p: Propose, s: Stamp)
    requires !KeyReleased(w.db.ledger, p.proposal.key)
    ensures Repeated(w.db.ledger, p.proposal.key).Some?
    ensures Apply(c, w, Ask(ProposeAction(p, s))) == w
    ensures var l, t := w.db.ledger, Repeated(w.db.ledger, p.proposal.key).value;
            HasKey(l, t, p.proposal.key) && exists k: nat :: NewestAt(l, l.order, p.proposal.key, k, t)
  {
    RepeatedExactly(w.db.ledger, p.proposal.key);
    ExistingIsNewest(w.db.ledger, w.db.ledger.order, p.proposal.key);
    assert w.runs + [] == w.runs;
  }
}
