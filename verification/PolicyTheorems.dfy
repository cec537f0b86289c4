/** What policy resolution guarantees, for policies with distinct ids. */
module PolicyTheorems {
  import opened Wrappers
  import opened JsonText
  import opened PolicyEngine
  import opened PolicyMeaning

  ghost predicate DistinctIds(ps: seq<Policy>) {
    forall p, q :: p in ps && q in ps && p.id == q.id ==> p == q
  }

  ghost predicate SameElements(ps: seq<Policy>, qs: seq<Policy>) {
    forall p :: p in ps <==> p in qs
  }

  // ------------------------------------------------------------ set views

  lemma {:induction false} MatchingElements(ps: seq<Policy>, r: Request)
    ensures forall p :: p in Matching(ps, r) <==> p in ps && Applies(p, r)
  {
    if ps != [] {
      JudgedExactly(ps[|ps| - 1], r);
      MatchingElements(ps[..|ps| - 1], r);
      assert ps == ps[..|ps| - 1] + [ps[|ps| - 1]];
    }
  }

  lemma {:induction false} EffectElements(ps: seq<Policy>, e: Effect)
    ensures forall p :: p in WithEffect(ps, e) <==> p in ps && p.effect == e
  {
    if ps != [] {
      EffectElements(ps[..|ps| - 1], e);
      assert ps == ps[..|ps| - 1] + [ps[|ps| - 1]];
    }
  }

  lemma {:induction false} FindFinds(ps: seq<Policy>, id: string)
    ensures Find(ps, id).Some? ==> Find(ps, id).value in ps && Find(ps, id).value.id == id
    ensures Find(ps, id).None? ==> forall p :: p in ps ==> p.id != id
  {
    if ps != [] {
      FindFinds(ps[..|ps| - 1], id);
      assert ps == ps[..|ps| - 1] + [ps[|ps| - 1]];
    }
  }

  /** With distinct ids an exception refers to the one policy of that id,
      matched or not. */
  lemma TargetIsThePolicy(ps: seq<Policy>, matched: seq<Policy>, id: string)
    requires DistinctIds(ps) && forall p :: p in matched ==> p in ps
    ensures Target(ps, matched, id).Some? <==> exists p :: p in ps && p.id == id
    ensures forall p :: p in ps && p.id == id ==> Target(ps, matched, id) == Some(p)
  {
    EffectElements(matched, Deny);
    FindFinds(WithEffect(matched, Deny), id);
    FindFinds(ps, id);
  }

  /** Some matched and qualified agent-scoped allow policy lists p. */
  ghost predicate Excepted(matched: seq<Policy>, p: Policy) {
    exists a :: a in matched && MayLift(a, p)
  }

  /** The override set holds exactly the global policies that a matched,
      qualified allow policy lists, once any matched policy denies. Nothing
      restricts it to policies that deny. */
  lemma OverrideSetExactly(ps: seq<Policy>, matched: seq<Policy>, p: Policy)
    requires DistinctIds(ps) && (forall m :: m in matched ==> m in ps) && p in ps
    ensures p.id in Overrides(ps, matched) <==> AnyWithEffect(matched, Deny) && Excepted(matched, p)
  {
    TargetIsThePolicy(ps, matched, p.id);
    forall a: Policy ensures a.effect.Allow? && Qualified(a) && p.scope.Global? && p.id in a.exceptionTo <==> MayLift(a, p) {
      LiftsExactly(a, p);
    }
  }

  /** An allow policy that overrides is agent-scoped and so is never overridden;
      at least one matched policy is always left. */
  lemma SomethingIsLeft(ps: seq<Policy>, matched: seq<Policy>)
    requires DistinctIds(ps) && (forall m :: m in matched ==> m in ps) && matched != []
    ensures Without(matched, Overrides(ps, matched)) != []
    ensures forall a, p :: a in matched && p in matched && MayLift(a, p) ==> a in Without(matched, Overrides(ps, matched))
  {
    var ids := Overrides(ps, matched);
    forall a | a in matched && a.scope.Agent? ensures a.id !in ids {
      OverrideSetExactly(ps, matched, a);
    }
    OverrideSetExactly(ps, matched, matched[0]);
    if matched[0].id in ids {
      var a :| a in matched && MayLift(a, matched[0]);
      assert a in Without(matched, ids);
    } else {
      assert matched[0] in Without(matched, ids);
    }
  }

  // ------------------------------------------------------------ reference

  ghost predicate MatchedAndDenying(ps: seq<Policy>, r: Request) {
    exists d :: d in ps && d.effect.Deny? && Applies(d, r)
  }

  /** Some exception that applies may lift p. */
  ghost predicate ExceptedBy(ps: seq<Policy>, r: Request, p: Policy) {
    exists a :: a in ps && Applies(a, r) && MayLift(a, p)
  }

  /** The policies that count: those that apply and are not lifted. */
  ghost function Standing(ps: seq<Policy>, r: Request): set<Policy> {
    set p | p in ps && Applies(p, r) && !(MatchedAndDenying(ps, r) && ExceptedBy(ps, r, p))
  }

  lemma StandingElements(ps: seq<Policy>, r: Request)
    requires DistinctIds(ps)
    ensures var matched := Matching(ps, r);
            forall p :: p in Without(matched, Overrides(ps, matched)) <==> p in Standing(ps, r)
  {
    var matched := Matching(ps, r);
    MatchingElements(ps, r);
    assert forall p :: Excepted(matched, p) <==> ExceptedBy(ps, r, p);
    assert AnyWithEffect(matched, Deny) <==> MatchedAndDenying(ps, r) by {
      if AnyWithEffect(matched, Deny) {
        var i :| 0 <= i < |matched| && matched[i].effect == Deny;
        assert matched[i] in ps;
      }
    }
    forall p | p in matched ensures p.id in Overrides(ps, matched) <==> p !in Standing(ps, r) {
      OverrideSetExactly(ps, matched, p);
    }
  }

  ghost predicate Denied(s: set<Policy>) {
    exists d :: d in s && d.effect.Deny?
  }

  ghost predicate DenyContradicted(s: set<Policy>) {
    exists p, d :: p in s && d in s && !p.effect.Deny? && d.effect.Deny? && p.priority == d.priority
  }

  ghost predicate OnTop(s: set<Policy>, p: Policy) {
    p in s && forall q :: q in s ==> q.priority <= p.priority
  }

  ghost predicate TopAgrees(s: set<Policy>) {
    forall p, q :: OnTop(s, p) && OnTop(s, q) ==> p.effect == q.effect
  }

  /** The reference definition of resolution. Nothing left: approval. A deny
      left: deny, whatever the priorities. Otherwise the policies of the
      highest priority decide if they agree, and if not, approval. */
  ghost predicate Governs(s: set<Policy>, effect: Effect, conflict: bool) {
    if s == {} then effect == RequireApproval && !conflict
    else if Denied(s) then effect == Deny && (conflict <==> DenyContradicted(s))
    else if TopAgrees(s) then !conflict && exists p :: OnTop(s, p) && p.effect == effect
    else effect == RequireApproval && conflict
  }

  lemma TopEffectsExactly(ps: seq<Policy>, s: set<Policy>)
    requires ps != [] && forall p :: p in ps <==> p in s
    ensures forall e :: e in TopEffects(ps) <==> exists p :: OnTop(s, p) && p.effect == e
    ensures exists p :: OnTop(s, p)
  {
    var m := MaxPriority(ps);
    var p :| p in ps && p.priority == m;
    assert OnTop(s, p);
    forall q ensures OnTop(s, q) <==> q in ps && q.priority == m {
      if q in ps && q.priority == m {
        assert OnTop(s, q);
      }
    }
  }

  lemma DenyingElements(ps: seq<Policy>, s: set<Policy>)
    requires forall p :: p in ps <==> p in s
    ensures AnyWithEffect(ps, Deny) <==> Denied(s)
  {
    if AnyWithEffect(ps, Deny) {
      var i :| 0 <= i < |ps| && ps[i].effect == Deny;
      assert ps[i] in s;
    }
  }

  lemma TopMeaning(ps: seq<Policy>, s: set<Policy>)
    requires ps != [] && forall p :: p in ps <==> p in s
    ensures TopAgrees(s) ==> exists p :: OnTop(s, p) && TopEffects(ps) == {p.effect}
    ensures !TopAgrees(s) ==> forall e :: TopEffects(ps) != {e}
  {
    TopEffectsExactly(ps, s);
    var top := TopEffects(ps);
    if TopAgrees(s) {
      var p :| OnTop(s, p);
      assert p.effect in top;
      assert top == {p.effect};
    } else {
      var q, t :| OnTop(s, q) && OnTop(s, t) && q.effect != t.effect;
      assert q.effect in top && t.effect in top;
    }
  }

  lemma ResolveMeaning(ps: seq<Policy>, s: set<Policy>)
    requires ps != [] && forall p :: p in ps <==> p in s
    ensures Governs(s, Resolve(ps).0, Resolve(ps).1)
  {
    assert ps[0] in s;
    DenyingElements(ps, s);
    if !Denied(s) {
      TopMeaning(ps, s);
    }
  }

  ghost predicate AnyUnjudgeable(ps: seq<Policy>, r: Request) {
    exists p :: p in ps && Unjudgeable(p, r)
  }

  lemma RaisesExactly(ps: seq<Policy>, r: Request)
    ensures Raises(ps, r) <==> AnyUnjudgeable(ps, r)
  {
    forall p ensures Matches(p, r) == None <==> Unjudgeable(p, r) {
      JudgedExactly(p, r);
    }
    if Raises(ps, r) {
      var i :| 0 <= i < |ps| && Matches(ps[i], r).None?;
      assert ps[i] in ps;
    }
  }

  /** The engine decides by the reference definition, and requires approval
      when judging any policy raises. It reports the policies that apply. */
  lemma EvaluationMeaning(ps: seq<Policy>, r: Request)
    requires DistinctIds(ps)
    ensures Governs(if AnyUnjudgeable(ps, r) then {} else Standing(ps, r), Evaluate(ps, r).effect, Evaluate(ps, r).conflict)
    ensures forall p :: p in Evaluate(ps, r).matched <==> !AnyUnjudgeable(ps, r) && p in ps && Applies(p, r)
  {
    var matched := Matching(ps, r);
    StandingElements(ps, r);
    MatchingElements(ps, r);
    RaisesExactly(ps, r);
    if !Raises(ps, r) {
      if matched == [] {
        assert Standing(ps, r) == {};
      } else {
        SomethingIsLeft(ps, matched);
        ResolveMeaning(Without(matched, Overrides(ps, matched)), Standing(ps, r));
      }
    }
  }

  lemma GovernsIsDeterministic(s: set<Policy>, e: Effect, c: bool, f: Effect, d: bool)
    requires Governs(s, e, c) && Governs(s, f, d)
    ensures e == f && c == d
  {
  }

  lemma StandingInAnyOrder(ps: seq<Policy>, qs: seq<Policy>, r: Request)
    requires SameElements(ps, qs)
    ensures Standing(ps, r) == Standing(qs, r)
  {
    assert MatchedAndDenying(ps, r) <==> MatchedAndDenying(qs, r);
    assert forall p :: ExceptedBy(ps, r, p) <==> ExceptedBy(qs, r, p);
  }

  /** The order in which the policies are listed changes neither the effect nor
      the conflict flag. */
  lemma OrderDoesNotMatter(ps: seq<Policy>, qs: seq<Policy>, r: Request)
    requires DistinctIds(ps) && SameElements(ps, qs)
    ensures Evaluate(ps, r).effect == Evaluate(qs, r).effect
    ensures Evaluate(ps, r).conflict == Evaluate(qs, r).conflict
  {
    EvaluationMeaning(ps, r);
    EvaluationMeaning(qs, r);
    StandingInAnyOrder(ps, qs, r);
    assert AnyUnjudgeable(ps, r) <==> AnyUnjudgeable(qs, r);
    var s := if AnyUnjudgeable(ps, r) then {} else Standing(ps, r);
    var a, b := Evaluate(ps, r), Evaluate(qs, r);
    GovernsIsDeterministic(s, a.effect, a.conflict, b.effect, b.conflict);
  }

  // ------------------------------------------------------------ deny

  /** The effect is deny exactly when judging no policy raises and some deny that
      applies is not lifted by an exception that applies too. */
  lemma DenyExactly(ps: seq<Policy>, r: Request)
    requires DistinctIds(ps)
    ensures Evaluate(ps, r).effect == Deny
       <==> !AnyUnjudgeable(ps, r) && exists d :: d in ps && d.effect.Deny? && Applies(d, r) && !ExceptedBy(ps, r, d)
  {
    EvaluationMeaning(ps, r);
    var s := if AnyUnjudgeable(ps, r) then {} else Standing(ps, r);
    if d :| !AnyUnjudgeable(ps, r) && d in ps && d.effect.Deny? && Applies(d, r) && !ExceptedBy(ps, r, d) {
      assert d in s;
    }
    if Denied(s) {
      var d :| d in s && d.effect.Deny?;
      assert MatchedAndDenying(ps, r);
    } else {
      assert forall p :: OnTop(s, p) ==> p.effect != Deny;
    }
  }

  /** Permission is never given by default: an allow or a warn comes from a
      matching policy of that effect which nothing outranks, with no matching
      deny left standing. */
  lemma PermissionNeedsAStandingPolicy(ps: seq<Policy>, r: Request)
    requires DistinctIds(ps)
    ensures Evaluate(ps, r).effect in {Allow, Warn} ==>
              && !AnyUnjudgeable(ps, r) && !Denied(Standing(ps, r))
              && exists p :: OnTop(Standing(ps, r), p) && Applies(p, r) && p.effect == Evaluate(ps, r).effect
  {
    EvaluationMeaning(ps, r);
  }

  /** Lists that agree policy by policy in everything but priority. */
  ghost predicate SameButPriority(ps: seq<Policy>, qs: seq<Policy>) {
    |ps| == |qs| && forall i :: 0 <= i < |ps| ==> Reprioritized(ps[i], qs[i])
  }

  ghost predicate Reprioritized(p: Policy, q: Policy) {
    q == p.(priority := q.priority)
  }

  lemma CounterpartExists(ps: seq<Policy>, qs: seq<Policy>, r: Request, p: Policy) returns (q: Policy)
    requires SameButPriority(ps, qs) && p in ps
    ensures q in qs && Reprioritized(p, q)
    ensures (Applies(q, r) <==> Applies(p, r)) && (Unjudgeable(q, r) <==> Unjudgeable(p, r))
  {
    var i :| 0 <= i < |ps| && ps[i] == p;
    q := qs[i];
  }

  lemma UnjudgeableEitherWay(ps: seq<Policy>, qs: seq<Policy>, r: Request)
    requires SameButPriority(ps, qs) && AnyUnjudgeable(ps, r)
    ensures AnyUnjudgeable(qs, r)
  {
    var p :| p in ps && Unjudgeable(p, r);
    var q := CounterpartExists(ps, qs, r, p);
  }

  lemma DeniedEitherWay(ps: seq<Policy>, qs: seq<Policy>, r: Request)
    requires DistinctIds(ps) && DistinctIds(qs) && SameButPriority(ps, qs) && SameButPriority(qs, ps)
    requires Evaluate(ps, r).effect == Deny
    ensures Evaluate(qs, r).effect == Deny
  {
    DenyExactly(ps, r);
    DenyExactly(qs, r);
    if AnyUnjudgeable(qs, r) {
      UnjudgeableEitherWay(qs, ps, r);
    }
    var d :| d in ps && d.effect.Deny? && Applies(d, r) && !ExceptedBy(ps, r, d);
    var e := CounterpartExists(ps, qs, r, d);
    if ExceptedBy(qs, r, e) {
      var b :| b in qs && Applies(b, r) && MayLift(b, e);
      var a := CounterpartExists(qs, ps, r, b);
    }
  }

  /** Priority alone never turns a denial into anything else, nor anything else
      into a denial. */
  lemma PriorityNeverDecidesDenial(ps: seq<Policy>, qs: seq<Policy>, r: Request)
    requires DistinctIds(ps) && DistinctIds(qs) && SameButPriority(ps, qs)
    ensures Evaluate(ps, r).effect == Deny <==> Evaluate(qs, r).effect == Deny
  {
    assert SameButPriority(qs, ps) by {
      forall i | 0 <= i < |qs| ensures Reprioritized(qs[i], ps[i]) {
        assert Reprioritized(ps[i], qs[i]);
      }
    }
    if Evaluate(ps, r).effect == Deny {
      DeniedEitherWay(ps, qs, r);
    } else if Evaluate(qs, r).effect == Deny {
      DeniedEitherWay(qs, ps, r);
    }
  }

  // ------------------------------------------------------------ exceptions

  /** A request that every active global policy with a wildcard matches. */
  function AnyAction(): Request {
    Request("a", [], map["agent_id" := "g"], "", (x, y) => true, (x, y) => true, (e, c) => None)
  }

  function Plain(id: string, effect: Effect): Policy {
    Policy(id, effect, ["*"], ["*"], map[], 0, Global, None, None, None, Active, None, None, [], None, None, None)
  }

  function Exception(): Policy {
    Plain("x", Allow).(scope := Agent, agentScope := Some("g"), validUntil := Some("1"), justification := Some("j"),
                       approvedBy := Some("h"), exceptionTo := ["d", "q"])
  }

  lemma ExampleMatches(p: Policy)
    requires p in {Plain("d", Deny), Plain("q", RequireApproval), Exception()}
    ensures Applies(p, AnyAction())
  {
    assert p.resources[0] == "*" && p.actions[0] == "*";
    assert AnyAction().actionGlob("a", "*");
    assert StripZ("") == "" && StripZ("1") == "1" && Less("", "1");
  }

  ghost predicate AllMatch(ps: seq<Policy>, r: Request) {
    forall p :: p in ps ==> Applies(p, r)
  }

  lemma ApplyingIsJudged(ps: seq<Policy>, r: Request)
    requires AllMatch(ps, r)
    ensures !AnyUnjudgeable(ps, r)
  {
    forall p | p in ps ensures !Unjudgeable(p, r) {
      JudgedExactly(p, r);
    }
  }

  lemma GovernedByOne(x: Policy, effect: Effect, conflict: bool)
    requires Governs({x}, effect, conflict) && !x.effect.Deny?
    ensures effect == x.effect
  {
    assert OnTop({x}, x);
  }

  lemma OnlyStandingPolicyDecides(ps: seq<Policy>, r: Request, x: Policy)
    requires DistinctIds(ps) && AllMatch(ps, r) && Standing(ps, r) == {x} && !x.effect.Deny?
    ensures Evaluate(ps, r).effect == x.effect
  {
    EvaluationMeaning(ps, r);
    ApplyingIsJudged(ps, r);
    GovernedByOne(x, Evaluate(ps, r).effect, Evaluate(ps, r).conflict);
  }

  /** A deny, a policy requiring approval and an exception that lists both, all
      matching the request. */
  ghost predicate ListsBoth(d: Policy, q: Policy, x: Policy, r: Request) {
    && AllMatch([d, q, x], r) && d.id != q.id && d.id != x.id && q.id != x.id
    && d.effect.Deny? && d.scope.Global? && q.effect.RequireApproval? && q.scope.Global?
    && x.exceptionTo == [d.id, q.id] && MayLift(x, d) && MayLift(x, q)
  }

  lemma ExceptionStandsAlone(ps: seq<Policy>, r: Request, d: Policy, q: Policy, x: Policy)
    requires ps == [d, q, x] && Applies(d, r) && Applies(q, r) && Applies(x, r)
    requires d.effect.Deny? && MayLift(x, d) && MayLift(x, q)
    ensures Standing(ps, r) == {x}
  {
    assert ps[0] in ps && ps[1] in ps && ps[2] in ps;
    assert ExceptedBy(ps, r, d) && ExceptedBy(ps, r, q);
    assert !ExceptedBy(ps, r, x);
    assert forall p :: p in ps <==> p in {d, q, x};
  }

  lemma ThreeAreDistinct(ps: seq<Policy>, d: Policy, q: Policy, x: Policy)
    requires ps == [d, q, x] && d.id != q.id && d.id != x.id && q.id != x.id
    ensures DistinctIds(ps) && d in ps && q in ps && x in ps
  {
    assert ps[0] == d && ps[1] == q && ps[2] == x;
  }

  /** Exceptions are documented to lift deny policies. One that also lists a
      global policy requiring approval removes that requirement too, as soon as
      some deny policy matches: whatever the priorities, the outcome is allow. */
  lemma ExceptionCanRemoveApprovalRequirement(d: Policy, q: Policy, x: Policy, r: Request)
    requires ListsBoth(d, q, x, r)
    ensures Evaluate([d, q, x], r).effect == Allow
  {
    var ps := [d, q, x];
    ThreeAreDistinct(ps, d, q, x);
    ExceptionStandsAlone(ps, r, d, q, x);
    OnlyStandingPolicyDecides(ps, r, x);
  }

  /** There are such policies. */
  lemma ListsBothExample() returns (d: Policy, q: Policy, x: Policy, r: Request)
    ensures ListsBoth(d, q, x, r)
  {
    d, q, x, r := Plain("d", Deny), Plain("q", RequireApproval), Exception(), AnyAction();
    ExampleMatches(d);
    ExampleMatches(q);
    ExampleMatches(x);
  }

  /** Exactly when a matching policy is dropped, whatever its effect: some deny
      matches and a matching qualified exception lists it. So only denials are
      ever dropped if and only if no such exception lists a matching global
      policy of another effect. */
  lemma DroppedExactly(ps: seq<Policy>, r: Request, p: Policy)
    requires DistinctIds(ps) && p in ps && Applies(p, r)
    ensures p in Without(Matching(ps, r), Overrides(ps, Matching(ps, r)))
       <==> !(MatchedAndDenying(ps, r) && ExceptedBy(ps, r, p))
  {
    StandingElements(ps, r);
  }
}
