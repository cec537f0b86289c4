/** What it takes for a policy to apply to a request, stated rule by rule and
    not in the order in which the engine looks. */
module PolicyMeaning {
  import opened Wrappers
  import opened JsonText
  import opened PolicyEngine

  // ------------------------------------------------------------ times

  /** b is s without the letters Z at its end. */
  ghost predicate IsBare(s: string, b: string) {
    && b <= s
    && (forall i :: |b| <= i < |s| ==> s[i] == 'Z')
    && (b == "" || b[|b| - 1] != 'Z')
  }

  lemma {:induction false} StrippingLeavesBare(s: string)
    ensures IsBare(s, StripZ(s))
  {
    if s != "" && s[|s| - 1] == 'Z' {
      StrippingLeavesBare(s[..|s| - 1]);
    }
  }

  /** Both start with the same n characters, after which the one ends or has the
      smaller character. */
  predicate SmallerAt(a: string, b: string, n: nat) {
    n <= |a| && n < |b| && a[..n] == b[..n] && (n == |a| || a[n] < b[n])
  }

  lemma {:induction false} LessExactly(a: string, b: string)
    ensures Less(a, b) <==> exists n: nat :: SmallerAt(a, b, n)
  {
    if a == "" || b == "" || a[0] != b[0] {
      assert Less(a, b) ==> SmallerAt(a, b, 0);
    } else {
      LessExactly(a[1..], b[1..]);
      if n: nat :| SmallerAt(a, b, n) {
        assert n > 0;
        assert a[1..][..n - 1] == a[..n][1..] && b[1..][..n - 1] == b[..n][1..];
        assert SmallerAt(a[1..], b[1..], n - 1);
      }
      if n: nat :| SmallerAt(a[1..], b[1..], n) {
        assert a[..n + 1] == [a[0]] + a[1..][..n] && b[..n + 1] == [b[0]] + b[1..][..n];
        assert SmallerAt(a, b, n + 1);
      }
    }
  }

  /** Times of one format compare as text, the Z at their end aside. */
  predicate Before(a: string, b: string) {
    Less(StripZ(a), StripZ(b))
  }

  /** Earlier means a smaller character where the bare texts first differ, or an
      end before the other. */
  lemma BeforeExactly(a: string, b: string, x: string, y: string)
    requires IsBare(a, x) && IsBare(b, y)
    ensures Before(a, b) <==> exists n: nat :: SmallerAt(x, y, n)
  {
    StrippingLeavesBare(a);
    StrippingLeavesBare(b);
    BareIsUnique(a, StripZ(a), x);
    BareIsUnique(b, StripZ(b), y);
    LessExactly(x, y);
  }

  lemma BareIsUnique(s: string, x: string, y: string)
    requires IsBare(s, x) && IsBare(s, y)
    ensures x == y
  {
  }

  // ------------------------------------------------------------ one policy

  /** Active, from validFrom on and until before validUntil. */
  predicate Current(p: Policy, now: string) {
    && p.status == Active
    && (p.validFrom.Some? ==> !Before(now, p.validFrom.value))
    && (p.validUntil.Some? ==> Before(now, p.validUntil.value))
  }

  /** The context is silent about what the policy is scoped to. */
  predicate Unplaced(p: Policy, context: map<string, string>) {
    || (p.scope == Scope.Project && "project_id" !in context)
    || (p.scope == Scope.Branch && "branch_id" !in context)
    || (p.scope == Scope.Agent && "agent_id" !in context)
  }

  /** The context's project, branch or agent is the policy's own. */
  predicate Placed(p: Policy, context: map<string, string>) {
    || p.scope == Scope.Global
    || (p.scope == Scope.Project && "project_id" in context && p.projectId == Some(context["project_id"]))
    || (p.scope == Scope.Branch && "branch_id" in context && p.branchId == Some(context["branch_id"]))
    || (p.scope == Scope.Agent && "agent_id" in context && p.agentScope == Some(context["agent_id"]))
  }

  /** A pattern for the action, and one for a resource; a request without
      resources is covered by the wildcard alone. */
  predicate Covers(p: Policy, r: Request) {
    && (exists a :: a in p.actions && r.actionGlob(r.actionType, a))
    && (r.resources == [] ==> "*" in p.resources)
    && (r.resources != [] ==> exists g, x :: g in p.resources && x in r.resources && r.resourceGlob(g, x))
  }

  predicate HasExpression(p: Policy) {
    "cel" in p.conditions && p.conditions["cel"].Str?
  }

  /** The expression yields true, or, without one, every condition is met. */
  predicate ConditionsMet(p: Policy, r: Request) {
    if HasExpression(p) then r.cel(p.conditions["cel"].s, r.context) == Some(true)
    else forall k :: k in p.conditions ==> k in r.context && p.conditions[k] == Str(r.context[k])
  }

  predicate Applies(p: Policy, r: Request) {
    Current(p, r.now) && Placed(p, r.context) && Covers(p, r) && ConditionsMet(p, r)
  }

  /** Judging the policy raises. */
  predicate Unjudgeable(p: Policy, r: Request) {
    && Current(p, r.now)
    && (Unplaced(p, r.context)
        || (Placed(p, r.context) && Covers(p, r) && HasExpression(p) && r.cel(p.conditions["cel"].s, r.context) == None))
  }

  lemma CoveredExactly(p: Policy, r: Request)
    ensures Covers(p, r)
       <==> (exists i :: 0 <= i < |p.actions| && r.actionGlob(r.actionType, p.actions[i])) && ResourceMatches(p, r)
  {
    if Covers(p, r) {
      var a :| a in p.actions && r.actionGlob(r.actionType, a);
      var i :| 0 <= i < |p.actions| && p.actions[i] == a;
      assert r.actionGlob(r.actionType, p.actions[i]);
      if r.resources != [] {
        var g, x :| g in p.resources && x in r.resources && r.resourceGlob(g, x);
        var k :| 0 <= k < |p.resources| && p.resources[k] == g;
        var j :| 0 <= j < |r.resources| && r.resources[j] == x;
        assert r.resourceGlob(p.resources[k], r.resources[j]);
      }
    }
  }

  /** The engine's judgement of one policy is exactly that. */
  lemma JudgedExactly(p: Policy, r: Request)
    ensures Matches(p, r) == Some(true) <==> Applies(p, r)
    ensures Matches(p, r) == None <==> Unjudgeable(p, r)
  {
    CoveredExactly(p, r);
  }

  // ------------------------------------------------------------ exceptions

  /** The one may lift the other: an agent-scoped allow that is limited in time,
      justified and approved, and lists a global policy. */
  predicate MayLift(a: Policy, p: Policy) {
    && a.effect == Allow && a.scope == Scope.Agent && p.scope == Scope.Global && p.id in a.exceptionTo
    && a.validUntil.GetOr("") != "" && a.justification.GetOr("") != "" && a.approvedBy.GetOr("") != ""
  }

  lemma LiftsExactly(a: Policy, p: Policy)
    ensures a.effect.Allow? && Qualified(a) && p.scope.Global? && p.id in a.exceptionTo <==> MayLift(a, p)
  {
  }
}
