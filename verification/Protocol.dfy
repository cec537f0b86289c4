/** Proxies, reconcilers and callers working concurrently on one database. Every
    step is one transaction, one read, or one run of an adapter; between two
    steps of one activity any steps of others may happen. */
module Protocol {
  import opened Wrappers
  import opened Stages
  import opened Tokens
  import opened Transactions
  import G = Graph
  import L = Ledger

  /** Calls that are one transaction. */
  datatype Call =
    | CreateProject(project: Id, lattice: Id, branch: Id)
    | InitAudit(lattice: Id)
    | CreateBranch(branch: Id, lattice: Id, from: Option<Id>)
    | ProposeAction(propose: Propose, stamp: Stamp)
    | Approve(t: Id, actor: Id, actorType: string, reason: string, stamp: Stamp)
    | DenyApproval(t: Id, actor: Id, reason: string, stamp: Stamp)
    | Cancel(t: Id, actor: Id, administrator: bool, stamp: Stamp)
    | Expire(t: Id)
    | IssueToken(token: Token)
    | MarkUncertain(t: Id, reason: string, stamp: Stamp)

  datatype Outcome = Worked | Broke | TimedOut

  /** What the caller of a review may state instead of having it read. */
  datatype Overrides = Overrides(head: Option<Id>, version: Option<int>, lattice: Option<Id>)

  /** How far a proxy that executes a token, or a reconciler, has come. */
  datatype Proc =
    | Claimed(token: Token)
    | Ran(token: Token, outcome: Outcome, summary: string)
    | Ready(commit: Commit)
    | CommitLost(t: Id)
    | Reviewing(t: Id, row: L.Transition, summary: string, description: string, overrides: Overrides)
    | ReviewReady(commit: Commit, summary: string)
    | ReviewLost(commit: Commit)
    | ReviewDone(commit: Commit, summary: string)

  /** The next thing that a proxy or reconciler does. A commit may also be aborted
      by the database. */
  datatype Move =
    | RunAdapter(outcome: Outcome, summary: string)
    | RecordRun(stamp: Stamp)
    | ReadHead
    | CommitRun(node: Id, edge: Id, stamp: Stamp, aborted: bool)
    | RecordLost(reason: string, stamp: Stamp)
    | ReadForReview
    | CommitReview(node: Id, edge: Id, stamp: Stamp, aborted: bool)
    | FinishReview(stamp: Stamp)
    | GiveUpReview(stamp: Stamp)
    | FailReview(stamp: Stamp)

  datatype Step =
    | Ask(call: Call)
    | Execute(proc: Id, presented: Presented)
    | Review(proc: Id, t: Id, summary: string, description: Option<string>, overrides: Overrides)
    | Go(proc: Id, move: Move)

  /** runs lists the transition of every adapter run so far. */
  datatype World = World(db: Db, procs: map<Id, Proc>, runs: seq<Id>)

  const START := World(FRESH, map[], [])

  // ------------------------------------------------------------ transactions

  function CallTx(c: Config, db: Db, call: Call): Option<Tx> {
    match call
    case CreateProject(p, l, b) => Some(Tx(G.NewLattice(p, l, b), L.Keep, Silent))
    case InitAudit(l) => InitAuditTx(db, l)
    case CreateBranch(b, l, from) => Some(Tx(G.NewBranch(b, l, from), L.Keep, Silent))
    case ProposeAction(p, s) => ProposeTx(c, db, p, s)
    case Approve(t, actor, actorType, reason, s) => ApproveTx(db, t, actor, actorType, reason, s)
    case DenyApproval(t, actor, reason, s) => DenyTx(db, t, actor, reason, s)
    case Cancel(t, actor, administrator, s) => CancelTx(db, t, actor, administrator, s)
    case Expire(t) => ExpireTx(t)
    case IssueToken(token) => IssueTx(c, db, token)
    case MarkUncertain(t, reason, s) => OutcomeTx(db, t, false, reason, s)
  }

  function MoveTx(c: Config, db: Db, proc: Proc, move: Move): Option<Tx> {
    match move
    case RunAdapter(_, _) => None
    case RecordRun(s) =>
      if proc.Ran? && !proc.outcome.Worked? then OutcomeTx(db, proc.token.transition, proc.outcome.Broke?, proc.summary, s)
      else None
    case ReadHead => None
    case CommitRun(node, edge, s, aborted) =>
      if proc.Ready? && !aborted then CommitTx(c, db, proc.commit, node, edge, s) else None
    case RecordLost(reason, s) => if proc.CommitLost? then OutcomeTx(db, proc.t, false, reason, s) else None
    case ReadForReview => None
    case CommitReview(node, edge, s, aborted) =>
      if proc.ReviewReady? && !aborted then CommitTx(c, db, proc.commit, node, edge, s) else None
    case FinishReview(s) => if proc.ReviewDone? then ReviewDoneTx(db, proc.commit, proc.summary, s) else None
    case GiveUpReview(s) => if proc.ReviewLost? then ReviewLostTx(db, proc.commit, s) else None
    case FailReview(s) =>
      if proc.Reviewing? then ReviewFailedTx(db, proc.t, proc.row.branch, proc.row.agent, proc.summary, s) else None
  }

  /** The transaction that a step tries to commit, if it gets that far. */
  function Plan(c: Config, w: World, step: Step): Option<Tx> {
    match step
    case Ask(call) => CallTx(c, w.db, call)
    case Execute(p, presented) => if p in w.procs then None else ClaimTx(c, w.db, presented)
    case Review(_, _, _, _, _) => None
    case Go(p, move) => if p in w.procs then MoveTx(c, w.db, w.procs[p], move) else None
  }

  // ------------------------------------------------------------ activities

  /** The head and version of a branch, or nothing and zero where there is none. */
  function HeadOf(g: G.Graph, branch: Id): (Option<Id>, int) {
    if branch in g.branches then (g.branches[branch].head, g.branches[branch].version) else (None, 0)
  }

  /** What a commit is asked to build on: what the caller states, else what the
      transition states, else what is there now. */
  function CommitFor(db: Db, t: Id, row: L.Transition, description: string, o: Overrides): Commit {
    var (head, version) := HeadOf(db.graph, row.branch);
    Commit(t, row.branch, row.agent, description,
      if o.head.Some? then o.head else if row.expectedHead.Some? then row.expectedHead else head,
      if o.version.Some? then o.version.value else if row.expectedVersion.Some? then row.expectedVersion.value else version,
      if o.lattice.Some? then o.lattice.value else EventLattice(db.graph, row.branch))
  }

  /** An activity after one of its moves, or None if that was its last; done says
      whether the move's transaction committed. A move that is not its next one
      leaves it as it is. */
  function Next(db: Db, proc: Proc, move: Move, done: bool): Option<Proc> {
    match move
    case RunAdapter(outcome, summary) => if proc.Claimed? then Some(Ran(proc.token, outcome, summary)) else Some(proc)
    case RecordRun(_) => if proc.Ran? && !proc.outcome.Worked? then None else Some(proc)
    case ReadHead =>
      if !proc.Ran? || !proc.outcome.Worked? then Some(proc)
      else
        var t := proc.token.transition;
        if t !in db.ledger.transitions then Some(CommitLost(t))
        else Some(Ready(CommitFor(db, t, db.ledger.transitions[t], proc.summary, Overrides(None, None, None))))
    case CommitRun(_, _, _, _) =>
      if !proc.Ready? then Some(proc) else if done then None else Some(CommitLost(proc.commit.t))
    case RecordLost(_, _) => if proc.CommitLost? then None else Some(proc)
    case ReadForReview =>
      if proc.Reviewing? then
        Some(ReviewReady(CommitFor(db, proc.t, proc.row, proc.description, proc.overrides), proc.summary))
      else Some(proc)
    case CommitReview(_, _, _, _) =>
      if !proc.ReviewReady? then Some(proc)
      else if done then Some(ReviewDone(proc.commit, proc.summary))
      else Some(ReviewLost(proc.commit))
    case FinishReview(_) => if proc.ReviewDone? then None else Some(proc)
    case GiveUpReview(_) => if proc.ReviewLost? then None else Some(proc)
    case FailReview(_) => if proc.Reviewing? then None else Some(proc)
  }

  function Put(procs: map<Id, Proc>, p: Id, next: Option<Proc>): map<Id, Proc> {
    if next.None? then procs - {p} else procs[p := next.value]
  }

  /** The activities after a step; done says whether its transaction committed. */
  function Activities(c: Config, w: World, step: Step, done: bool): map<Id, Proc> {
    match step
    case Ask(_) => w.procs
    case Execute(p, presented) =>
      var token := VerifyToken(c.codec, presented.text, presented.now);
      if done && token.Some? then w.procs[p := Claimed(token.value)] else w.procs
    case Review(p, t, summary, description, overrides) =>
      if p !in w.procs && t in w.db.ledger.transitions && w.db.ledger.transitions[t].stage.Uncertain? then
        w.procs[p := Reviewing(t, w.db.ledger.transitions[t], summary, description.GetOr(summary), overrides)]
      else w.procs
    case Go(p, move) => if p in w.procs then Put(w.procs, p, Next(w.db, w.procs[p], move, done)) else w.procs
  }

  /** The adapter runs when its proxy, and nobody else, makes that move. */
  function NewRuns(w: World, step: Step): seq<Id> {
    if step.Go? && step.move.RunAdapter? && step.proc in w.procs && w.procs[step.proc].Claimed?
    then [w.procs[step.proc].token.transition] else []
  }

  function Apply(c: Config, w: World, step: Step): World {
    var tx := Plan(c, w, step);
    World(Perform(c, w.db, tx), Activities(c, w, step, Commits(c, w.db, tx)), w.runs + NewRuns(w, step))
  }

  function Run(c: Config, w: World, steps: seq<Step>): World {
    if steps == [] then w else Apply(c, Run(c, w, steps[..|steps| - 1]), steps[|steps| - 1])
  }

  /** A run may be followed from its first step on. */
  lemma {:induction false} RunFromFront(c: Config, w: World, step: Step, rest: seq<Step>, next: World)
    requires Apply(c, w, step) == next
    ensures Run(c, w, [step] + rest) == Run(c, next, rest)
  {
    var all := [step] + rest;
    if rest == [] {
      assert all[..0] == [];
    } else {
      var n := |rest| - 1;
      RunFromFront(c, w, step, rest[..n], next);
      assert all[..|all| - 1] == [step] + rest[..n];
    }
  }
}
