/** What every operation on the ledger keeps. */
module LedgerTheorems {
  import opened Wrappers
  import opened Stages
  import opened Tokens
  import opened Ledger

  function StageOf(l: Ledger, t: Id): Option<Stage> {
    if t in l.transitions then Some(l.transitions[t].stage) else None
  }

  /** One transition, before and after an operation. */
  ghost predicate RowMoves(before: Transition, after: Transition) {
    && (after.stage == before.stage || Legal(before.stage, after.stage))
    && after.branch == before.branch && after.agent == before.agent && after.key == before.key
    && after.expectedHead == before.expectedHead && after.expectedVersion == before.expectedVersion
  }

  /** Rows are never removed, keep what identifies them, and change stage only
      as the stage machine allows; new rows are already past the first stage. */
  ghost predicate Moves(l: Ledger, m: Ledger) {
    && (forall t :: t in l.transitions ==> t in m.transitions && RowMoves(l.transitions[t], m.transitions[t]))
    && (forall t :: t in m.transitions && t !in l.transitions ==> Legal(Proposed, m.transitions[t].stage))
  }

  lemma EveryOperationMovesLegally(l: Ledger, op: Op)
    ensures Moves(l, Perform(l, op))
  {
  }

  /** An operation changes the row of one transition at most. */
  function Target(l: Ledger, op: Op): Option<Id> {
    match op
    case Keep => None
    case Opening(_, p, _) => Some(p.id)
    case Deciding(t, _, _) => Some(t)
    case Withdrawing(t, _) => Some(t)
    case Issuing(_, _) => None
    case Claiming(auth) => if auth in l.authorizations then Some(l.authorizations[auth].token.transition) else None
    case Recording(t, _, _) => Some(t)
    case Succeeding(t, _, _) => Some(t)
    case Flagging(t, _) => Some(t)
    case FailingReviewed(t) => Some(t)
  }

  lemma OthersStay(l: Ledger, op: Op, t: Id)
    requires Target(l, op) != Some(t)
    ensures t in Perform(l, op).transitions <==> t in l.transitions
    ensures t in l.transitions ==> Perform(l, op).transitions[t] == l.transitions[t]
  {
  }

  // ------------------------------------------------------------ listing

  ghost predicate Listed(l: Ledger) {
    && (forall t :: t in l.order <==> t in l.transitions)
    && (forall i, j :: 0 <= i < j < |l.order| ==> l.order[i] != l.order[j])
  }

  lemma PerformKeepsListed(l: Ledger, op: Op)
    requires Listed(l)
    ensures Listed(Perform(l, op))
  {
    var m := Perform(l, op);
    assert m.order == l.order || (op.Opening? && m.order == l.order + [op.proposal.id]);
  }

  // ------------------------------------------------------------ approvals

  /** What a request says about its transition. */
  ghost predicate RequestFits(l: Ledger, r: Request) {
    && r.transition in l.transitions
    && var row := l.transitions[r.transition];
    && r.requestedBy == row.agent
    && match r.status
       case Pending => row.stage in {PendingApproval, Cancelled, Expired} && r.decidedBy == None
       case Approved =>
         row.stage !in {Proposed, PendingApproval, Denied} && r.decidedBy.Some? && r.decidedBy.value != row.agent
       case Refused => row.stage.Denied? && r.decidedBy.Some? && r.decidedBy.value != row.agent
  }

  ghost predicate HasRequest(requests: seq<Request>, t: Id) {
    exists i :: 0 <= i < |requests| && requests[i].transition == t
  }

  ghost predicate OneRequestEach(requests: seq<Request>) {
    forall i, j :: 0 <= i < j < |requests| ==> requests[i].transition != requests[j].transition
  }

  ghost predicate Approvals(l: Ledger) {
    && (forall i :: 0 <= i < |l.requests| ==> RequestFits(l, l.requests[i]))
    && OneRequestEach(l.requests)
    && (forall t :: t in l.transitions && l.transitions[t].stage.PendingApproval? ==> HasRequest(l.requests, t))
  }

  lemma RequestAppended(requests: seq<Request>, r: Request, t: Id)
    ensures HasRequest(requests + [r], t) <==> HasRequest(requests, t) || r.transition == t
  {
    if HasRequest(requests, t) {
      var i :| 0 <= i < |requests| && requests[i].transition == t;
      assert (requests + [r])[i].transition == t;
    }
    if r.transition == t {
      assert (requests + [r])[|requests|].transition == t;
    }
  }

  lemma OpenKeepsApprovals(l: Ledger, keyIndex: bool, p: Proposal, v: Verdict)
    requires Approvals(l) && Open(l, keyIndex, p, v).Some?
    ensures Approvals(Open(l, keyIndex, p, v).value)
  {
    var m := Open(l, keyIndex, p, v).value;
    forall i | 0 <= i < |m.requests| ensures RequestFits(m, m.requests[i]) {
      if i < |l.requests| {
        assert RequestFits(l, l.requests[i]);
      }
    }
    assert OneRequestEach(m.requests) by {
      assert forall i :: 0 <= i < |l.requests| ==> RequestFits(l, l.requests[i]);
    }
    forall t | t in m.transitions && m.transitions[t].stage.PendingApproval? ensures HasRequest(m.requests, t) {
      RequestAppended(l.requests, Request(p.id, p.agent, Pending, None), t);
      assert l.requests + [] == l.requests;
    }
  }

  lemma DecidedRequests(requests: seq<Request>, i: nat, decider: Id, status: RequestStatus)
    requires i < |requests|
    ensures var after := DecideRequest(requests, i, decider, status);
            && |after| == |requests|
            && (forall j :: 0 <= j < |after| ==> after[j].transition == requests[j].transition)
            && (forall j :: 0 <= j < |after| && j != i ==> after[j] == requests[j])
            && (forall t :: HasRequest(after, t) <==> HasRequest(requests, t))
  {
    var after := DecideRequest(requests, i, decider, status);
    forall t ensures HasRequest(after, t) <==> HasRequest(requests, t) {
      if HasRequest(requests, t) {
        var j :| 0 <= j < |requests| && requests[j].transition == t;
        assert after[j].transition == t;
      }
    }
  }

  lemma DecideKeepsApprovals(l: Ledger, t: Id, decider: Id, approve: bool)
    requires Approvals(l) && Decide(l, t, decider, approve).Some?
    ensures Approvals(Decide(l, t, decider, approve).value)
  {
    var m := Decide(l, t, decider, approve).value;
    var k := PendingRequest(l.requests, t).value;
    PendingRequestIsPending(l.requests, t);
    DecidedRequests(l.requests, k, decider, if approve then Approved else Refused);
    forall i | 0 <= i < |m.requests| ensures RequestFits(m, m.requests[i]) {
      assert RequestFits(l, l.requests[i]);
      if i != k {
        assert l.requests[i].transition != t;
      }
    }
  }

  /** A change of one row that the approvals do not notice. */
  ghost predicate ApprovalNeutral(before: Stage, after: Stage) {
    || after == before
    || (before.PendingApproval? && after in {Cancelled, Expired})
    || (!before.PendingApproval? && !before.Denied? && after !in {Proposed, PendingApproval, Denied})
  }

  lemma RowChangeKeepsApprovals(l: Ledger, m: Ledger, t: Id)
    requires Approvals(l) && t in l.transitions && m.requests == l.requests
    requires m.transitions.Keys == l.transitions.Keys
    requires forall u :: u in l.transitions && u != t ==> m.transitions[u] == l.transitions[u]
    requires m.transitions[t].agent == l.transitions[t].agent
    requires ApprovalNeutral(l.transitions[t].stage, m.transitions[t].stage)
    requires !(l.transitions[t].stage in {Cancelled, Expired} && m.transitions[t].stage !in {Cancelled, Expired})
    ensures Approvals(m)
  {
    forall i | 0 <= i < |m.requests| ensures RequestFits(m, m.requests[i]) {
      assert RequestFits(l, l.requests[i]);
    }
  }

  lemma PerformKeepsApprovals(l: Ledger, op: Op)
    requires Approvals(l) && Disciplined(l, op)
    ensures Approvals(Perform(l, op))
  {
    var m := Perform(l, op);
    if m != l {
      match op
      case Keep =>
      case Opening(x, p, v) => OpenKeepsApprovals(l, x, p, v);
      case Deciding(t, decider, approve) => DecideKeepsApprovals(l, t, decider, approve);
      case Withdrawing(t, to) => RowChangeKeepsApprovals(l, m, t);
      case Issuing(token, tokenHash) =>
        forall i | 0 <= i < |m.requests| ensures RequestFits(m, m.requests[i]) {
          assert RequestFits(l, l.requests[i]);
        }
      case Claiming(auth) => RowChangeKeepsApprovals(l, m, l.authorizations[auth].token.transition);
      case Recording(t, failed, summary) => RowChangeKeepsApprovals(l, m, t);
      case Succeeding(t, node, summary) => RowChangeKeepsApprovals(l, m, t);
      case Flagging(t, flag) => RowChangeKeepsApprovals(l, m, t);
      case FailingReviewed(t) => RowChangeKeepsApprovals(l, m, t);
    }
  }

  /** A transition waits for approval exactly when one of its requests is
      pending and it has not been withdrawn; and whatever was opened for
      approval and is now authorized or further was approved by a principal
      other than its agent. */
  lemma ApprovalsMean(l: Ledger, t: Id)
    requires Approvals(l) && t in l.transitions
    ensures var row := l.transitions[t];
            && (row.stage.PendingApproval? ==> PendingRequest(l.requests, t).Some?)
            && (HasRequest(l.requests, t) && row.stage in {Authorized, Executing, Uncertain, Succeeded, Failed} ==>
                  exists r :: r in l.requests && r.transition == t && r.status.Approved?
                    && r.decidedBy.Some? && r.decidedBy.value != row.agent)
  {
    var row := l.transitions[t];
    PendingRequestIsPending(l.requests, t);
    if HasRequest(l.requests, t) {
      var i :| 0 <= i < |l.requests| && l.requests[i].transition == t;
      assert RequestFits(l, l.requests[i]) && l.requests[i] in l.requests;
    }
  }

  // ------------------------------------------------------------ results

  /** How the outcome columns agree with the stage. */
  ghost predicate OutcomeFits(row: Transition) {
    && !row.stage.Proposed?
    && (row.stage.Succeeded? <==> row.toNode.Some?)
    && (row.stage.Succeeded? <==> row.exitStatus == Some(Success))
    && (row.exitStatus.Some? ==> row.summary.Some? && PastClaim(row.stage) && !row.stage.Executing?)
    && (row.stage.Uncertain? ==> row.needsReview && row.exitStatus == Some(Timeout))
    && (row.needsReview ==> Reviewable(row.stage))
  }

  ghost predicate Outcomes(l: Ledger) {
    forall t :: t in l.transitions ==> OutcomeFits(l.transitions[t])
  }

  lemma PerformKeepsOutcomes(l: Ledger, op: Op)
    requires Outcomes(l) && Disciplined(l, op)
    ensures Outcomes(Perform(l, op))
  {
    var m := Perform(l, op);
    forall t | t in m.transitions ensures OutcomeFits(m.transitions[t]) {
      if Target(l, op) != Some(t) {
        OthersStay(l, op, t);
      }
      assert t in l.transitions ==> OutcomeFits(l.transitions[t]);
    }
  }

  // ------------------------------------------------------------ claims

  ghost predicate Spent(l: Ledger, auth: Id, t: Id) {
    auth in l.authorizations && l.authorizations[auth].used && l.authorizations[auth].token.transition == t
  }

  /** Every transition past its claim has exactly one used authorization, and
      every other transition none. */
  ghost predicate ClaimsFit(l: Ledger) {
    && (forall a, t :: Spent(l, a, t) ==> t in l.transitions && PastClaim(l.transitions[t].stage))
    && (forall a, b, t :: Spent(l, a, t) && Spent(l, b, t) ==> a == b)
    && (forall t :: t in l.transitions && PastClaim(l.transitions[t].stage) ==> exists a :: Spent(l, a, t))
  }

  lemma SameSpending(l: Ledger, m: Ledger)
    requires ClaimsFit(l) && Moves(l, m)
    requires forall a, t :: Spent(m, a, t) <==> Spent(l, a, t)
    requires forall t :: t in m.transitions && PastClaim(m.transitions[t].stage) ==>
               t in l.transitions && PastClaim(l.transitions[t].stage)
    ensures ClaimsFit(m)
  {
    forall t | t in m.transitions && PastClaim(m.transitions[t].stage) ensures exists a :: Spent(m, a, t) {
      var a :| Spent(l, a, t);
      assert Spent(m, a, t);
    }
  }

  lemma ClaimKeepsClaims(l: Ledger, auth: Id)
    requires ClaimsFit(l) && Claim(l, auth).Some?
    ensures ClaimsFit(Claim(l, auth).value)
  {
    var m := Claim(l, auth).value;
    var t := l.authorizations[auth].token.transition;
    assert forall a, u :: Spent(m, a, u) <==> Spent(l, a, u) || (a == auth && u == t);
    assert Spent(m, auth, t);
    forall u | u in m.transitions && PastClaim(m.transitions[u].stage) ensures exists a :: Spent(m, a, u) {
      if u != t {
        var a :| Spent(l, a, u);
        assert Spent(m, a, u);
      }
    }
  }

  lemma PerformKeepsClaims(l: Ledger, op: Op)
    requires ClaimsFit(l) && Disciplined(l, op)
    ensures ClaimsFit(Perform(l, op))
  {
    var m := Perform(l, op);
    if op.Claiming? && Attempt(l, op).Some? {
      ClaimKeepsClaims(l, op.auth);
    } else {
      EveryOperationMovesLegally(l, op);
      assert forall a :: a in l.authorizations ==> a in m.authorizations && m.authorizations[a] == l.authorizations[a];
      assert forall a :: a in m.authorizations && a !in l.authorizations ==> !m.authorizations[a].used;
      forall t | t in m.transitions && PastClaim(m.transitions[t].stage)
        ensures t in l.transitions && PastClaim(l.transitions[t].stage)
      {
        if Target(l, op) != Some(t) {
          OthersStay(l, op, t);
        }
      }
      SameSpending(l, m);
    }
  }

  // ------------------------------------------------------------ tokens

  /** Stored authorizations hold the hash of the token they were issued as, and
      that token is sealed with the policy versions it lists. */
  ghost predicate HashesFit(l: Ledger, hash: Token -> string, seal: map<string, int> -> string) {
    forall a :: a in l.authorizations ==>
      && l.authorizations[a].token.authorization == a
      && l.authorizations[a].tokenHash == hash(l.authorizations[a].token)
      && l.authorizations[a].token.policySetHash == seal(l.authorizations[a].token.versions)
      && l.authorizations[a].token.transition in l.transitions
  }

  lemma PerformKeepsHashes(l: Ledger, op: Op, hash: Token -> string, seal: map<string, int> -> string)
    requires HashesFit(l, hash, seal)
    requires op.Issuing? ==> op.tokenHash == hash(op.token) && op.token.policySetHash == seal(op.token.versions)
    ensures HashesFit(Perform(l, op), hash, seal)
  {
  }

  // ------------------------------------------------------------ idempotency

  predicate SameKey(l: Ledger, t: Id, u: Id) {
    t in l.transitions && u in l.transitions && l.transitions[t].key == l.transitions[u].key
  }

  /** Of the transitions with one key only the newest can be live, and under a
      unique index there is only one. */
  ghost predicate KeysFit(l: Ledger, keyIndex: bool) {
    forall i, j :: 0 <= i < j < |l.order| && SameKey(l, l.order[i], l.order[j]) ==>
      !keyIndex && !Live(l.transitions[l.order[i]].stage)
  }

  predicate HasKey(l: Ledger, t: Id, key: string) {
    t in l.transitions && l.transitions[t].key == key
  }

  ghost predicate NewestAt(l: Ledger, order: seq<Id>, key: string, k: nat, t: Id) {
    k < |order| && order[k] == t && forall i :: k < i < |order| ==> !HasKey(l, order[i], key)
  }

  lemma {:induction false} ExistingIsNewest(l: Ledger, order: seq<Id>, key: string)
    ensures Existing(l, order, key).Some? ==>
              && HasKey(l, Existing(l, order, key).value, key)
              && exists k: nat :: NewestAt(l, order, key, k, Existing(l, order, key).value)
    ensures Existing(l, order, key).None? ==> forall i :: 0 <= i < |order| ==> !HasKey(l, order[i], key)
  {
    if order != [] {
      var n := |order| - 1;
      ExistingIsNewest(l, order[..n], key);
      if HasKey(l, order[n], key) {
        assert NewestAt(l, order, key, n, order[n]);
      } else {
        assert forall i :: 0 <= i < n ==> order[..n][i] == order[i];
        if Existing(l, order[..n], key).Some? {
          var k: nat :| NewestAt(l, order[..n], key, k, Existing(l, order[..n], key).value);
          assert NewestAt(l, order, key, k, order[k]);
        }
      }
    }
  }

  /** Whether a proposal may insert, as its idempotency check decides. */
  predicate MayInsert(l: Ledger, key: string) {
    var e := Existing(l, l.order, key);
    e.None? || (e.value in l.transitions && !ReturnsExisting(l.transitions[e.value].stage))
  }

  lemma NoLiveHolderWhenInserting(l: Ledger, keyIndex: bool, key: string, i: nat)
    requires Listed(l) && KeysFit(l, keyIndex) && MayInsert(l, key)
    requires i < |l.order| && HasKey(l, l.order[i], key)
    ensures !Live(l.transitions[l.order[i]].stage)
  {
    ExistingIsNewest(l, l.order, key);
    var e := Existing(l, l.order, key);
    assert HasKey(l, l.order[i], key);
    var k: nat :| NewestAt(l, l.order, key, k, e.value);
    assert i <= k;
    assert i < k ==> SameKey(l, l.order[i], l.order[k]);
  }

  lemma OpenKeepsKeys(l: Ledger, keyIndex: bool, p: Proposal, v: Verdict)
    requires Listed(l) && KeysFit(l, keyIndex) && MayInsert(l, p.key) && Open(l, keyIndex, p, v).Some?
    ensures KeysFit(Open(l, keyIndex, p, v).value, keyIndex)
  {
    var m := Open(l, keyIndex, p, v).value;
    assert forall i :: 0 <= i < |l.order| ==> l.order[i] in l.transitions && l.order[i] != p.id;
    forall i, j | 0 <= i < j < |m.order| && SameKey(m, m.order[i], m.order[j])
      ensures !keyIndex && !Live(m.transitions[m.order[i]].stage)
    {
      if j < |l.order| {
        assert SameKey(l, l.order[i], l.order[j]);
      } else {
        NoLiveHolderWhenInserting(l, keyIndex, p.key, i);
        ExistingIsNewest(l, l.order, p.key);
      }
    }
  }

  lemma NothingRevives(l: Ledger, op: Op, t: Id)
    requires t in l.transitions && !Live(l.transitions[t].stage)
    ensures !Live(Perform(l, op).transitions[t].stage)
  {
    EveryOperationMovesLegally(l, op);
    assert RowMoves(l.transitions[t], Perform(l, op).transitions[t]);
  }

  lemma PerformKeepsKeys(l: Ledger, op: Op, keyIndex: bool)
    requires Listed(l) && KeysFit(l, keyIndex)
    requires op.Opening? ==> op.keyIndex == keyIndex && MayInsert(l, op.proposal.key)
    ensures KeysFit(Perform(l, op), keyIndex)
  {
    var m := Perform(l, op);
    if op.Opening? && Attempt(l, op).Some? {
      OpenKeepsKeys(l, keyIndex, op.proposal, op.verdict);
    } else {
      assert m.order == l.order;
      EveryOperationMovesLegally(l, op);
      forall i, j | 0 <= i < j < |m.order| && SameKey(m, m.order[i], m.order[j])
        ensures !keyIndex && !Live(m.transitions[m.order[i]].stage)
      {
        assert l.order[i] in l.transitions && l.order[j] in l.transitions;
        assert SameKey(l, l.order[i], l.order[j]);
        NothingRevives(l, op, l.order[i]);
      }
    }
  }

  /** At most one live transition per key. */
  lemma OneLivePerKey(l: Ledger, keyIndex: bool, t: Id, u: Id)
    requires Listed(l) && KeysFit(l, keyIndex)
    requires SameKey(l, t, u)
    requires keyIndex || (Live(l.transitions[t].stage) && Live(l.transitions[u].stage))
    ensures t == u
  {
    assert t in l.order && u in l.order;
    var i :| 0 <= i < |l.order| && l.order[i] == t;
    var j :| 0 <= j < |l.order| && l.order[j] == u;
    assert SameKey(l, l.order[i], l.order[j]) && SameKey(l, l.order[j], l.order[i]);
  }
}
