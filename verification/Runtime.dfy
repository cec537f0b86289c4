/** The protocol run on the real tables: every step is carried out by the engine
    that owns it, and a proxy on its own carries out its steps in this order. */
module Runtime {
  import opened Wrappers
  import opened Stages
  import opened Tokens
  import opened Transactions
  import opened Protocol
  import opened Database
  import opened Engines
  import G = Graph
  import L = Ledger

  class Runtime {
    const db: Database
    const projects: ProjectAdmin
    const transitions: TransitionEngine
    const authorizations: AuthorizationEngine
    const committer: BranchCommitter
    var procs: map<Id, Proc>
    var runs: seq<Id>

    ghost predicate Wired() {
      projects.db == db && transitions.db == db && authorizations.db == db && committer.db == db
    }

    function State(): World
      reads this, db
    {
      World(db.State(), procs, runs)
    }

    constructor ()
      ensures Wired() && State() == START && fresh(db)
    {
      var tables := new Database();
      db := tables;
      projects := new ProjectAdmin(tables);
      transitions := new TransitionEngine(tables);
      authorizations := new AuthorizationEngine(tables);
      committer := new BranchCommitter(tables);
      procs, runs := map[], [];
    }

    method Call(c: Config, call: Call) returns (ok: bool)
      requires Wired()
      modifies db
      ensures db.State() == Perform(c, old(db.State()), CallTx(c, old(db.State()), call))
    {
      match call
      case CreateProject(p, l, b) => ok := projects.CreateProject(c, p, l, b);
      case InitAudit(l) => ok := projects.InitAudit(c, l);
      case CreateBranch(b, l, from) => ok := projects.CreateBranch(c, b, l, from);
      case ProposeAction(p, s) =>
        var answer := transitions.Propose(c, p, s);
        ok := answer.Some?;
      case Approve(t, actor, actorType, reason, s) => ok := transitions.Approve(c, t, actor, actorType, reason, s);
      case DenyApproval(t, actor, reason, s) => ok := transitions.DenyApproval(c, t, actor, reason, s);
      case Cancel(t, actor, administrator, s) => ok := transitions.Cancel(c, t, actor, administrator, s);
      case Expire(t) => ok := transitions.Expire(c, t);
      case IssueToken(token) =>
        var text := authorizations.Issue(c, token);
        ok := text.Some?;
      case MarkUncertain(t, reason, s) => ok := transitions.RecordResult(c, t, false, reason, s);
    }

    method Move(c: Config, proc: Proc, move: Move) returns (ok: bool)
      requires Wired()
      modifies db
      ensures db.State() == Perform(c, old(db.State()), MoveTx(c, old(db.State()), proc, move))
      ensures ok == Commits(c, old(db.State()), MoveTx(c, old(db.State()), proc, move))
    {
      ok := false;
      match move
      case RunAdapter(_, _) =>
      case RecordRun(s) =>
        if proc.Ran? && !proc.outcome.Worked? {
          ok := transitions.RecordResult(c, proc.token.transition, proc.outcome.Broke?, proc.summary, s);
        }
      case ReadHead =>
      case CommitRun(node, edge, s, aborted) =>
        if proc.Ready? && !aborted {
          ok := committer.Commit(c, proc.commit, node, edge, s);
        }
      case RecordLost(reason, s) =>
        if proc.CommitLost? {
          ok := transitions.RecordResult(c, proc.t, false, reason, s);
        }
      case ReadForReview =>
      case CommitReview(node, edge, s, aborted) =>
        if proc.ReviewReady? && !aborted {
          ok := committer.Commit(c, proc.commit, node, edge, s);
        }
      case FinishReview(s) =>
        if proc.ReviewDone? {
          ok := transitions.ConcludeReview(c, proc.commit, false, proc.summary, s);
        }
      case GiveUpReview(s) =>
        if proc.ReviewLost? {
          ok := transitions.ConcludeReview(c, proc.commit, true, "", s);
        }
      case FailReview(s) =>
        if proc.Reviewing? {
          ok := transitions.FailReviewed(c, proc.t, proc.row.branch, proc.row.agent, proc.summary, s);
        }
    }

    method Take(c: Config, step: Step)
      requires Wired()
      modifies this, db
      ensures State() == Apply(c, old(State()), step)
    {
      ghost var before := State();
      assert runs + [] == runs;
      match step
      case Ask(call) => var _ := Call(c, call);
      case Execute(p, presented) =>
        if p !in procs {
          var claimed := authorizations.VerifyAndClaim(c, presented);
          if claimed.Some? {
            procs := procs[p := Claimed(claimed.value)];
          }
        }
      case Review(p, t, summary, description, overrides) =>
        if p !in procs && t in db.transitions && db.transitions[t].stage.Uncertain? {
          procs := procs[p := Reviewing(t, db.transitions[t], summary, description.GetOr(summary), overrides)];
        }
      case Go(p, move) =>
        if p in procs {
          var proc, current := procs[p], db.State();
          var done := Move(c, proc, move);
          if move.RunAdapter? && proc.Claimed? {
            runs := runs + [proc.token.transition];
          }
          procs := Put(procs, p, Next(current, proc, move, done));
        }
    }

    method RunAll(c: Config, steps: seq<Step>)
      requires Wired()
      modifies this, db
      ensures State() == Run(c, old(State()), steps)
    {
      for n := 0 to |steps|
        invariant State() == Run(c, old(State()), steps[..n])
      {
        assert steps[..n + 1][..n] == steps[..n];
        Take(c, steps[n]);
      }
      assert steps[..|steps|] == steps;
    }
  }
}
