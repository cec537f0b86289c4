/** The stage machine of a transition. */
module Stages {

  datatype Stage =
    | Proposed | PendingApproval | Authorized | Executing | Uncertain
    | Succeeded | Failed | Cancelled | Expired | Denied

  predicate Legal(from: Stage, to: Stage) {
    match from
    case Proposed => to in {Denied, PendingApproval, Authorized, Cancelled}
    case PendingApproval => to in {Authorized, Denied, Expired, Cancelled}
    case Authorized => to in {Executing, Expired, Cancelled}
    case Executing => to in {Succeeded, Failed, Uncertain}
    case Uncertain => to in {Succeeded, Failed}
    case _ => false
  }

  /** The sixteen changes there are. */
  lemma LegalChangesAre(from: Stage, to: Stage)
    ensures Legal(from, to) <==> (from, to) in {
              (Proposed, PendingApproval), (Proposed, Authorized), (Proposed, Denied), (Proposed, Cancelled),
              (PendingApproval, Authorized), (PendingApproval, Denied), (PendingApproval, Cancelled),
              (PendingApproval, Expired), (Authorized, Executing), (Authorized, Cancelled), (Authorized, Expired),
              (Executing, Succeeded), (Executing, Failed), (Executing, Uncertain),
              (Uncertain, Succeeded), (Uncertain, Failed)}
    ensures Terminal(from) <==> forall s :: !Legal(from, s)
  {
    if !Terminal(from) {
      assert Legal(from, Cancelled) || Legal(from, Failed);
    }
  }

  predicate Terminal(s: Stage) {
    s in {Succeeded, Failed, Cancelled, Expired, Denied}
  }

  /** Stages in which a repeated proposal gets the existing transition back. */
  predicate ReturnsExisting(s: Stage) {
    s in {Proposed, Authorized, PendingApproval, Executing, Succeeded}
  }

  lemma AllowsAnotherAttempt(s: Stage)
    ensures !ReturnsExisting(s) <==> s in {Uncertain, Failed, Cancelled, Expired, Denied}
  {
    match s
    case Proposed =>
    case _ =>
  }

  /** Not yet finished in any way that allows another attempt. */
  predicate Live(s: Stage) {
    s in {Proposed, PendingApproval, Authorized, Executing}
  }

  /** An authorization was spent to get here. */
  predicate PastClaim(s: Stage) {
    s in {Executing, Uncertain, Succeeded, Failed}
  }

  /** Uncertain, or settled after having been executed. */
  predicate Reviewable(s: Stage) {
    s in {Uncertain, Succeeded, Failed}
  }

  function Rank(s: Stage): nat {
    match s
    case Proposed => 5
    case PendingApproval => 4
    case Authorized => 3
    case Executing => 2
    case Uncertain => 1
    case _ => 0
  }

  /** A list of stages in which each one differs legally from the one before. */
  predicate LegalPath(p: seq<Stage>) {
    forall i :: 0 < i < |p| ==> Legal(p[i - 1], p[i])
  }

  /** A legal path from the first stage ends after at most as many changes as the
      rank it started with, and only its last stage can be terminal. */
  lemma {:induction false} LegalPathsAreShort(p: seq<Stage>)
    requires p != [] && LegalPath(p)
    ensures |p| - 1 + Rank(p[|p| - 1]) <= Rank(p[0])
    ensures forall i :: 0 <= i < |p| - 1 ==> !Terminal(p[i])
  {
    var n := |p| - 1;
    if n > 0 {
      LegalPathsAreShort(p[..n]);
      assert Legal(p[n - 1], p[n]);
      forall i | 0 <= i < n ensures !Terminal(p[i]) {
        if i < n - 1 {
          assert p[..n][i] == p[i];
        }
      }
    }
  }
}
