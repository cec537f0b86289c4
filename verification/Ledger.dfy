/** Transitions, approval requests and authorizations: the tables that record
    who may do what and how it went, and the operations that change them. None
    stands for a raised error or a failed guard. */
module Ledger {
  import opened Wrappers
  import opened Stages
  import opened Tokens

  datatype ExitStatus = Success | Failure | Timeout

  datatype Transition = Transition(
    branch: Id,
    agent: Id,
    key: string,
    expectedHead: Option<Id>,
    expectedVersion: Option<int>,
    stage: Stage,
    exitStatus: Option<ExitStatus>,
    summary: Option<string>,
    toNode: Option<Id>,
    needsReview: bool)

  datatype RequestStatus = Pending | Approved | Refused

  datatype Request = Request(transition: Id, requestedBy: Id, status: RequestStatus, decidedBy: Option<Id>)

  datatype Authorization = Authorization(token: Token, tokenHash: string, used: bool)

  /** order lists the transition ids in the order of insertion; requests are
      listed in the order of insertion. */
  datatype Ledger = Ledger(
    transitions: map<Id, Transition>,
    order: seq<Id>,
    requests: seq<Request>,
    authorizations: map<Id, Authorization>)

  const NOTHING := Ledger(map[], [], [], map[])

  // ------------------------------------------------------------ operations

  /** The newest transition with the key. */
  function Existing(l: Ledger, order: seq<Id>, key: string): Option<Id> {
    if order == [] then None
    else
      var id := order[|order| - 1];
      if id in l.transitions && l.transitions[id].key == key then Some(id) else Existing(l, order[..|order| - 1], key)
  }

  datatype Verdict = Refuse | AskApproval | Admit

  function FirstStage(v: Verdict): Stage {
    match v case Refuse => Denied case AskApproval => PendingApproval case Admit => Authorized
  }

  datatype Proposal = Proposal(
    id: Id,
    branch: Id,
    agent: Id,
    key: string,
    expectedHead: Option<Id>,
    expectedVersion: Option<int>)

  function NewTransition(p: Proposal, stage: Stage): Transition {
    Transition(p.branch, p.agent, p.key, p.expectedHead, p.expectedVersion, stage, None, None, None, false)
  }

  /** Insert a transition and advance it by the verdict, with an approval request
      where one is needed. keyIndex says whether the keys are under a unique
      index. */
  function Open(l: Ledger, keyIndex: bool, p: Proposal, v: Verdict): Option<Ledger> {
    if p.id in l.transitions || (keyIndex && Existing(l, l.order, p.key).Some?) then None
    else Some(l.(
      transitions := l.transitions[p.id := NewTransition(p, FirstStage(v))],
      order := l.order + [p.id],
      requests := l.requests + if v.AskApproval? then [Request(p.id, p.agent, Pending, None)] else []))
  }

  /** The newest pending request of a transition. */
  function PendingRequest(requests: seq<Request>, t: Id): Option<nat> {
    if requests == [] then None
    else
      var n := |requests| - 1;
      if requests[n].transition == t && requests[n].status.Pending? then Some(n) else PendingRequest(requests[..n], t)
  }

  lemma {:induction false} PendingRequestIsPending(requests: seq<Request>, t: Id)
    ensures var r := PendingRequest(requests, t);
            r.Some? ==> r.value < |requests| && requests[r.value].transition == t && requests[r.value].status.Pending?
    ensures PendingRequest(requests, t).None? ==>
              forall i :: 0 <= i < |requests| && requests[i].transition == t ==> !requests[i].status.Pending?
  {
    if requests != [] {
      var n := |requests| - 1;
      PendingRequestIsPending(requests[..n], t);
      if PendingRequest(requests, t).None? {
        forall i | 0 <= i < |requests| && requests[i].transition == t ensures !requests[i].status.Pending? {
          if i < n {
            assert requests[..n][i] == requests[i];
          }
        }
      }
    }
  }

  function DecideRequest(requests: seq<Request>, i: nat, decider: Id, status: RequestStatus): seq<Request>
    requires i < |requests|
  {
    requests[i := requests[i].(status := status, decidedBy := Some(decider))]
  }

  /** A principal other than the agent decides the pending request. */
  function Decide(l: Ledger, t: Id, decider: Id, approve: bool): Option<Ledger> {
    if t !in l.transitions || !l.transitions[t].stage.PendingApproval? || decider == l.transitions[t].agent then None
    else
      var r := PendingRequest(l.requests, t);
      if r.None? || r.value >= |l.requests| then None
      else Some(l.(
        requests := DecideRequest(l.requests, r.value, decider, if approve then Approved else Refused),
        transitions := l.transitions[t := l.transitions[t].(stage := if approve then Authorized else Denied)]))
  }

  /** Any stage change the stage machine allows, and nothing else. */
  function Move(l: Ledger, t: Id, to: Stage): Option<Ledger> {
    if t !in l.transitions || !Legal(l.transitions[t].stage, to) then None
    else Some(l.(transitions := l.transitions[t := l.transitions[t].(stage := to)]))
  }

  /** Record an issued token. Nothing is asked of the stage. */
  function Issue(l: Ledger, token: Token, tokenHash: string): Option<Ledger> {
    if token.authorization in l.authorizations || token.transition !in l.transitions then None
    else Some(l.(authorizations := l.authorizations[token.authorization := Authorization(token, tokenHash, false)]))
  }

  /** Spend an authorization and move its transition from authorized to
      executing, both or neither. */
  function Claim(l: Ledger, auth: Id): Option<Ledger> {
    if auth !in l.authorizations || l.authorizations[auth].used then None
    else
      var t := l.authorizations[auth].token.transition;
      if t !in l.transitions || !l.transitions[t].stage.Authorized? then None
      else Some(l.(
        authorizations := l.authorizations[auth := l.authorizations[auth].(used := true)],
        transitions := l.transitions[t := l.transitions[t].(stage := Executing)]))
  }

  /** Record that an execution failed, or that its outcome is not known. */
  function RecordOutcome(l: Ledger, t: Id, failed: bool, summary: string): Option<Ledger> {
    if t !in l.transitions || !l.transitions[t].stage.Executing? then None
    else
      var row := l.transitions[t].(summary := Some(summary), toNode := None);
      Some(l.(transitions := l.transitions[t :=
        if failed then row.(exitStatus := Some(Failure), stage := Failed)
        else row.(exitStatus := Some(Timeout), stage := Uncertain, needsReview := true)]))
  }

  predicate Committable(l: Ledger, t: Id) {
    t in l.transitions && l.transitions[t].stage in {Executing, Uncertain}
  }

  /** Record that a transition was realised by a node. */
  function Succeed(l: Ledger, t: Id, node: Id, summary: string): Option<Ledger> {
    if !Committable(l, t) then None
    else Some(l.(transitions := l.transitions[t :=
      l.transitions[t].(
        exitStatus := Some(Success), summary := Some(summary), toNode := Some(node), stage := Succeeded)]))
  }

  function SetReview(l: Ledger, t: Id, flag: bool): Ledger {
    if t in l.transitions then l.(transitions := l.transitions[t := l.transitions[t].(needsReview := flag)]) else l
  }

  /** A review that ends in failure. */
  function FailReviewed(l: Ledger, t: Id): Option<Ledger> {
    var moved := Move(l, t, Failed);
    if moved.None? then None else Some(SetReview(moved.value, t, false))
  }

  datatype Op =
    | Keep
    | Opening(keyIndex: bool, proposal: Proposal, verdict: Verdict)
    | Deciding(t: Id, decider: Id, approve: bool)
    | Withdrawing(t: Id, to: Stage)
    | Issuing(token: Token, tokenHash: string)
    | Claiming(auth: Id)
    | Recording(t: Id, failed: bool, summary: string)
    | Succeeding(t: Id, node: Id, summary: string)
    | Flagging(t: Id, flag: bool)
    | FailingReviewed(t: Id)

  function Attempt(l: Ledger, op: Op): Option<Ledger> {
    match op
    case Keep => Some(l)
    case Opening(x, p, v) => Open(l, x, p, v)
    case Deciding(t, decider, approve) => Decide(l, t, decider, approve)
    case Withdrawing(t, to) => Move(l, t, to)
    case Issuing(token, tokenHash) => Issue(l, token, tokenHash)
    case Claiming(auth) => Claim(l, auth)
    case Recording(t, failed, summary) => RecordOutcome(l, t, failed, summary)
    case Succeeding(t, node, summary) => Succeed(l, t, node, summary)
    case Flagging(t, flag) => Some(SetReview(l, t, flag))
    case FailingReviewed(t) => FailReviewed(l, t)
  }

  function Perform(l: Ledger, op: Op): Ledger {
    Attempt(l, op).GetOr(l)
  }

  /** How the program uses two of the operations: only cancellation and expiry
      move a stage by hand; the review flag is raised by hand only on an
      uncertain or settled transition, and lowered only on a succeeded one. */
  predicate Disciplined(l: Ledger, op: Op) {
    match op
    case Withdrawing(_, to) => to.Cancelled? || to.Expired?
    case Flagging(t, flag) =>
      && t in l.transitions
      && if flag then Reviewable(l.transitions[t].stage) else l.transitions[t].stage.Succeeded?
    case _ => true
  }
}
