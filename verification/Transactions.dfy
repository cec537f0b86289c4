/** The database, and what each engine call asks of it: one change to the graph
    tables, one to the ledger tables and at most one audit event, all of them or
    none. */
module Transactions {
  import opened Wrappers
  import opened JsonText
  import opened Canonical
  import opened Audit
  import opened Stages
  import opened Tokens
  import P = PolicyEngine
  import G = Graph
  import L = Ledger

  datatype AuditLog = AuditLog(heads: map<Id, Head>, events: map<Id, seq<EventRow>>)

  datatype Db = Db(graph: G.Graph, ledger: L.Ledger, audit: AuditLog)

  /** seal hashes a set of policy versions; writer is the service principal;
      keyIndex says whether idempotency keys are under a unique index, as the
      shipped schema puts them. */
  datatype Config = Config(hash: Digest, seal: map<string, int> -> string, codec: Codec, writer: Id, keyIndex: bool)

  function ConfigOf(h: Digest, k: Keys, writer: Id, keyIndex: bool): Config {
    Config(h, versions => PolicySetHash(h, versions), CodecOf(k), writer, keyIndex)
  }

  /** Tokens read back as written, and seals tell version sets apart. */
  ghost predicate Proper(c: Config) {
    Faithful(c.codec) && forall v, w :: c.seal(v) == c.seal(w) ==> v == w
  }

  lemma ConfigIsProper(h: Digest, k: Keys, writer: Id, keyIndex: bool)
    requires Paired(k)
    ensures Proper(ConfigOf(h, k, writer, keyIndex))
  {
    var c := ConfigOf(h, k, writer, keyIndex);
    CodecIsFaithful(k);
    forall v, w | c.seal(v) == c.seal(w) ensures v == w {
      PolicySetHashIsInjective(h, v, w);
    }
  }

  const FRESH := Db(G.EMPTY, L.NOTHING, AuditLog(map[], map[]))

  // ------------------------------------------------------------ audit tables

  datatype Write = Write(lattice: Id, draft: Draft)

  function EventsOf(log: AuditLog, lattice: Id): seq<EventRow> {
    if lattice in log.events then log.events[lattice] else []
  }

  /** Append one event. A lattice without an audit head cannot be written to. */
  function WriteEvent(c: Config, log: AuditLog, w: Write): Option<AuditLog> {
    if w.lattice !in log.heads then None
    else
      var row := NewRow(c.hash, c.writer, w.lattice, log.heads[w.lattice], w.draft);
      Some(AuditLog(
        log.heads[w.lattice := Head(row.sequence, row.eventHash)],
        log.events[w.lattice := EventsOf(log, w.lattice) + [row]]))
  }

  /** An audit head is set up outside of the engines, once per lattice. */
  function OpenLog(log: AuditLog, lattice: Id): AuditLog {
    if lattice in log.heads then log
    else AuditLog(log.heads[lattice := Head(0, GENESIS)], log.events[lattice := []])
  }

  datatype LogEntry = Silent | Event(write: Write) | NewLog(lattice: Id)

  function Record(c: Config, log: AuditLog, e: LogEntry): Option<AuditLog> {
    match e
    case Silent => Some(log)
    case Event(w) => WriteEvent(c, log, w)
    case NewLog(lattice) => Some(OpenLog(log, lattice))
  }

  // ------------------------------------------------------------ transactions

  datatype Tx = Tx(graph: G.Op, ledger: L.Op, entry: LogEntry)

  function Attempt(c: Config, db: Db, tx: Tx): Option<Db> {
    var g := G.Attempt(db.graph, tx.graph);
    var l := L.Attempt(db.ledger, tx.ledger);
    var a := Record(c, db.audit, tx.entry);
    if g.None? || l.None? || a.None? then None else Some(Db(g.value, l.value, a.value))
  }

  /** Commit or roll back. A call that is refused before it writes has no
      transaction to commit. */
  function Perform(c: Config, db: Db, tx: Option<Tx>): Db {
    if tx.None? then db else Attempt(c, db, tx.value).GetOr(db)
  }

  predicate Commits(c: Config, db: Db, tx: Option<Tx>) {
    tx.Some? && Attempt(c, db, tx.value).Some?
  }

  /** Identifier and time given to an audit event. */
  datatype Stamp = Stamp(id: Id, at: string)

  function EventLattice(g: G.Graph, branch: Id): Id {
    if branch in g.branches then g.branches[branch].lattice else branch
  }

  /** An event about a transition goes to the lattice of its branch. */
  function BranchEvent(g: G.Graph, branch: Id, kind: string, actor: Id, data: map<string, Json>, s: Stamp): LogEntry {
    Event(Write(EventLattice(g, branch), Draft(s.id, kind, Obj(data), actor, actor, s.at)))
  }

  function IdJson(o: Option<Id>): Json {
    if o.Some? then Str(o.value) else Null
  }

  function InitAuditTx(db: Db, lattice: Id): Option<Tx> {
    if lattice in db.graph.lattices then Some(Tx(G.Keep, L.Keep, NewLog(lattice))) else None
  }

  // ------------------------------------------------------------ policies

  datatype Action = Action(kind: string, resources: seq<string>)

  /** What the policies of the moment make of an action by an agent, in a
      project, on a branch. */
  datatype Judge = Judge(resolve: (Action, Id, Id, Id) -> P.Resolution)

  /** The judge that evaluates a list of policies. */
  function JudgeOf(policies: seq<P.Policy>, now: string, actionGlob: (string, string) -> bool,
                   resourceGlob: (string, string) -> bool, cel: (string, map<string, string>) -> Option<bool>): Judge {
    Judge((a: Action, agent: Id, project: Id, branch: Id) =>
      P.Evaluate(policies, P.Request(a.kind, a.resources,
        map["agent_id" := agent, "project_id" := project, "branch_id" := branch], now, actionGlob, resourceGlob, cel)))
  }

  /** Policy id to activation version; a later policy replaces an earlier one
      with the same id. */
  function VersionsMatched(ps: seq<P.Policy>): map<string, int> {
    if ps == [] then map[]
    else
      var n := |ps| - 1;
      VersionsMatched(ps[..n])[ps[n].id := if ps[n].activationVersion.Some? then ps[n].activationVersion.value else 0]
  }

  function VerdictOf(e: P.Effect): L.Verdict {
    match e
    case Deny => L.Refuse
    case RequireApproval => L.AskApproval
    case Warn => L.Admit
    case Allow => L.Admit
  }

  // ------------------------------------------------------------ proposals

  /** Without a judge every action waits for approval. */
  datatype Propose = Propose(proposal: L.Proposal, tool: string, action: Action, judge: Option<Judge>)

  function VerdictFor(g: G.Graph, p: Propose): L.Verdict {
    if p.judge.None? then L.AskApproval
    else
      var project := G.ProjectOf(g, p.proposal.branch).GetOr("");
      VerdictOf(p.judge.value.resolve(p.action, p.proposal.agent, project, p.proposal.branch).effect)
  }

  /** The transition that a repeated proposal gets back instead of a new one. */
  function Repeated(l: L.Ledger, key: string): Option<Id> {
    var e := L.Existing(l, l.order, key);
    if e.Some? && e.value in l.transitions && ReturnsExisting(l.transitions[e.value].stage) then e else None
  }

  function VerdictText(v: L.Verdict): (string, string, string) {
    match v
    case Refuse => ("transition.denied", "denied", "policy_deny")
    case AskApproval => ("transition.pending_approval", "pending_approval", "requires_approval")
    case Admit => ("transition.authorized", "admissible", "policy_allow")
  }

  function ProposeEvent(g: G.Graph, p: Propose, v: L.Verdict, s: Stamp): LogEntry {
    var (kind, result, reason) := VerdictText(v);
    BranchEvent(g, p.proposal.branch, kind, p.proposal.agent, map[
      "transition_id" := Str(p.proposal.id), "tool" := Str(p.tool), "action" := Str(p.action.kind),
      "verification_result" := Str(result), "reason" := Str(reason)], s)
  }

  function ProposeTx(c: Config, db: Db, p: Propose, s: Stamp): Option<Tx> {
    if Repeated(db.ledger, p.proposal.key).Some? || p.proposal.branch !in db.graph.branches then None
    else
      var verdict := VerdictFor(db.graph, p);
      Some(Tx(G.Keep, L.Opening(c.keyIndex, p.proposal, verdict), ProposeEvent(db.graph, p, verdict, s)))
  }

  // ------------------------------------------------------------ approvals

  function ApprovedEvent(g: G.Graph, branch: Id, t: Id, approver: Id, approverType: string, reason: string, s: Stamp)
    : LogEntry
  {
    BranchEvent(g, branch, "transition.approved", approver, map[
      "transition_id" := Str(t), "approver_id" := Str(approver), "approver_type" := Str(approverType),
      "reason" := Str(reason)], s)
  }

  function ApproveTx(db: Db, t: Id, approver: Id, approverType: string, reason: string, s: Stamp): Option<Tx> {
    if t !in db.ledger.transitions || approverType == "agent" then None
    else Some(Tx(G.Keep, L.Deciding(t, approver, true),
      ApprovedEvent(db.graph, db.ledger.transitions[t].branch, t, approver, approverType, reason, s)))
  }

  function DeniedEvent(g: G.Graph, branch: Id, t: Id, approver: Id, reason: string, s: Stamp): LogEntry {
    BranchEvent(g, branch, "transition.denied_approval", approver, map[
      "transition_id" := Str(t), "approver_id" := Str(approver), "reason" := Str(reason)], s)
  }

  /** Unlike an approval, a denial may come from an agent. */
  function DenyTx(db: Db, t: Id, approver: Id, reason: string, s: Stamp): Option<Tx> {
    if t !in db.ledger.transitions then None
    else Some(Tx(G.Keep, L.Deciding(t, approver, false),
      DeniedEvent(db.graph, db.ledger.transitions[t].branch, t, approver, reason, s)))
  }

  function CancelledEvent(g: G.Graph, branch: Id, t: Id, agent: Id, s: Stamp): LogEntry {
    BranchEvent(g, branch, "transition.cancelled", agent, map["transition_id" := Str(t), "agent_id" := Str(agent)], s)
  }

  /** Only the agent itself or an administrator withdraws a transition. The
      approval request, if any, is left as it is. */
  function CancelTx(db: Db, t: Id, agent: Id, administrator: bool, s: Stamp): Option<Tx> {
    if t !in db.ledger.transitions || (agent != db.ledger.transitions[t].agent && !administrator) then None
    else Some(Tx(G.Keep, L.Withdrawing(t, Cancelled),
      CancelledEvent(db.graph, db.ledger.transitions[t].branch, t, agent, s)))
  }

  /** Expiry writes no audit event. */
  function ExpireTx(t: Id): Option<Tx> {
    Some(Tx(G.Keep, L.Withdrawing(t, Expired), Silent))
  }

  // ------------------------------------------------------------ authorizations

  /** A token carries the hash of the policy versions it was issued under. */
  function Sealed(c: Config, t: Token): Token {
    t.(policySetHash := c.seal(t.versions))
  }

  function TokenHash(c: Config, t: Token): string {
    c.hash(c.codec.write(t))
  }

  function IssueTx(c: Config, db: Db, t: Token): Option<Tx> {
    if t.branch !in db.graph.branches then None
    else Some(Tx(G.Keep, L.Issuing(Sealed(c, t), TokenHash(c, Sealed(c, t))), Silent))
  }

  /** What a proxy is given, and what it finds out before it claims: the hash of
      the payload it was actually given, and what kind of action that is. */
  datatype Presented = Presented(
    text: string,
    payloadHash: string,
    audience: string,
    action: Action,
    judge: Option<Judge>,
    payloadValid: bool,
    now: string)

  /** Current policy still lets the action through, under the versions that the
      token was issued under. */
  predicate StillAllowed(c: Config, j: Judge, a: Action, t: Token) {
    var r := j.resolve(a, t.agent, t.project, t.branch);
    r.effect in {P.Allow, P.Warn} && c.seal(VersionsMatched(r.matched)) == t.policySetHash
  }

  predicate Acceptable(c: Config, p: Presented, t: Token) {
    && t.payloadHash == p.payloadHash && t.audience == p.audience && p.payloadValid
    && (p.judge.Some? ==> StillAllowed(c, p.judge.value, p.action, t))
  }

  /** The stored authorization was issued as the presented text and has not
      expired. */
  predicate Stored(c: Config, l: L.Ledger, p: Presented, t: Token) {
    && t.authorization in l.authorizations
    && l.authorizations[t.authorization].tokenHash == c.hash(p.text)
    && Less(p.now, l.authorizations[t.authorization].token.expiresAt)
  }

  function ClaimTx(c: Config, db: Db, p: Presented): Option<Tx> {
    var t := VerifyToken(c.codec, p.text, p.now);
    if t.None? || !Acceptable(c, p, t.value) || !Stored(c, db.ledger, p, t.value) then None
    else Some(Tx(G.Keep, L.Claiming(t.value.authorization), Silent))
  }

  // ------------------------------------------------------------ outcomes

  function OutcomeEvent(g: G.Graph, branch: Id, agent: Id, t: Id, failed: bool, summary: string, s: Stamp): LogEntry {
    if failed then BranchEvent(g, branch, "transition.failed", agent, map[
      "transition_id" := Str(t), "exit_status" := Str("failure"), "result_summary" := Str(summary)], s)
    else BranchEvent(g, branch, "transition.execution_uncertain", agent, map[
      "transition_id" := Str(t), "exit_status" := Str("timeout"), "result_summary" := Str(summary),
      "requires_manual_reconciliation" := Bool(true)], s)
  }

  function OutcomeTx(db: Db, t: Id, failed: bool, summary: string, s: Stamp): Option<Tx> {
    if t !in db.ledger.transitions then None
    else
      var row := db.ledger.transitions[t];
      Some(Tx(G.Keep, L.Recording(t, failed, summary), OutcomeEvent(db.graph, row.branch, row.agent, t, failed, summary, s)))
  }

  /** What a caller that wants to commit has read or been told. */
  datatype Commit = Commit(
    t: Id,
    branch: Id,
    agent: Id,
    description: string,
    expectedHead: Option<Id>,
    expectedVersion: int,
    lattice: Id)

  function CommitWrite(c: Config, k: Commit, oldHead: Option<Id>, node: Id, s: Stamp): Write {
    Write(k.lattice, Draft(s.id, "branch_committed", Obj(map[
      "transition_id" := Str(k.t), "branch_id" := Str(k.branch), "new_node_id" := Str(node),
      "old_head_id" := IdJson(oldHead), "new_version" := Int(k.expectedVersion + 1)]), k.agent, c.writer, s.at))
  }

  function AdvanceOf(k: Commit, node: Id, edge: Id): G.Advance {
    G.Advance(k.branch, k.expectedHead, k.expectedVersion, node, edge, k.agent, k.description)
  }

  function CommitTx(c: Config, db: Db, k: Commit, node: Id, edge: Id, s: Stamp): Option<Tx> {
    var oldHead := if k.branch in db.graph.branches then db.graph.branches[k.branch].head else None;
    Some(Tx(
      G.Realise(AdvanceOf(k, node, edge)),
      L.Succeeding(k.t, node, k.description),
      Event(CommitWrite(c, k, oldHead, node, s))))
  }

  function ReviewLostEvent(g: G.Graph, k: Commit, s: Stamp): LogEntry {
    BranchEvent(g, k.branch, "transition.reconcile_commit_failed", k.agent, map[
      "transition_id" := Str(k.t), "final_status" := Str("succeeded"),
      "requires_manual_reconciliation" := Bool(true)], s)
  }

  function ReconciledEvent(g: G.Graph, t: Id, branch: Id, agent: Id, status: string, summary: string, s: Stamp)
    : LogEntry
  {
    BranchEvent(g, branch, "transition.reconciled", agent, map[
      "transition_id" := Str(t), "final_status" := Str(status), "result_summary" := Str(summary),
      "requires_manual_reconciliation" := Bool(false)], s)
  }

  /** A review whose commit failed raises the flag; one whose commit succeeded
      lowers it; one that finds a failure ends the transition. */
  function ReviewLostTx(db: Db, k: Commit, s: Stamp): Option<Tx> {
    Some(Tx(G.Keep, L.Flagging(k.t, true), ReviewLostEvent(db.graph, k, s)))
  }

  function ReviewDoneTx(db: Db, k: Commit, summary: string, s: Stamp): Option<Tx> {
    Some(Tx(G.Keep, L.Flagging(k.t, false), ReconciledEvent(db.graph, k.t, k.branch, k.agent, "succeeded", summary, s)))
  }

  function ReviewFailedTx(db: Db, t: Id, branch: Id, agent: Id, summary: string, s: Stamp): Option<Tx> {
    Some(Tx(G.Keep, L.FailingReviewed(t), ReconciledEvent(db.graph, t, branch, agent, "failed", summary, s)))
  }
}
