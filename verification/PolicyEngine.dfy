/** Policy resolution: which policies match an action, which of them an
    exception removes, and what effect the rest have together. */
module PolicyEngine {
  import opened Wrappers
  import opened JsonText

  datatype Effect = Deny | RequireApproval | Warn | Allow

  datatype Scope = Global | Project | Branch | Agent

  datatype Status = Draft | PendingApproval | Active | Rejected | Superseded | Retired

  datatype Policy = Policy(
    id: string,
    effect: Effect,
    actions: seq<string>,
    resources: seq<string>,
    conditions: map<string, Json>,
    priority: nat,
    scope: Scope,
    agentScope: Option<string>,
    projectId: Option<string>,
    branchId: Option<string>,
    status: Status,
    approvedBy: Option<string>,
    activationVersion: Option<nat>,
    exceptionTo: seq<string>,
    validFrom: Option<string>,
    validUntil: Option<string>,
    justification: Option<string>)

  /** An action to be judged, and the pattern languages that are not modelled:
      glob matching of actions and resources, and evaluation of an expression
      (None when it raises). */
  datatype Request = Request(
    actionType: string,
    resources: seq<string>,
    context: map<string, string>,
    now: string,
    actionGlob: (string, string) -> bool,
    resourceGlob: (string, string) -> bool,
    cel: (string, map<string, string>) -> Option<bool>)

  datatype Resolution = Resolution(effect: Effect, matched: seq<Policy>, conflict: bool)

  // ------------------------------------------------------------ matching

  function StripZ(s: string): string {
    if s != "" && s[|s| - 1] == 'Z' then StripZ(s[..|s| - 1]) else s
  }

  predicate InForce(p: Policy, now: string) {
    && p.status.Active?
    && (p.validFrom.Some? ==> !Less(StripZ(now), StripZ(p.validFrom.value)))
    && (p.validUntil.Some? ==> Less(StripZ(now), StripZ(p.validUntil.value)))
  }

  /** None stands for a raised error. */
  function ScopeApplies(p: Policy, context: map<string, string>): Option<bool> {
    match p.scope
    case Global => Some(true)
    case Project => if "project_id" !in context then None else Some(p.projectId == Some(context["project_id"]))
    case Branch => if "branch_id" !in context then None else Some(p.branchId == Some(context["branch_id"]))
    case Agent => if "agent_id" !in context then None else Some(p.agentScope == Some(context["agent_id"]))
  }

  predicate ResourceMatches(p: Policy, r: Request) {
    exists i :: 0 <= i < |p.resources| &&
      if r.resources == [] then p.resources[i] == "*"
      else exists j :: 0 <= j < |r.resources| && r.resourceGlob(p.resources[i], r.resources[j])
  }

  function ConditionsHold(p: Policy, r: Request): Option<bool> {
    if "cel" in p.conditions && p.conditions["cel"].Str? then r.cel(p.conditions["cel"].s, r.context)
    else Some(forall k :: k in p.conditions ==> k in r.context && p.conditions[k] == Str(r.context[k]))
  }

  /** Whether one policy matches; None when judging it raises. */
  function Matches(p: Policy, r: Request): Option<bool> {
    if !InForce(p, r.now) then Some(false)
    else
      var scope := ScopeApplies(p, r.context);
      if scope != Some(true) then scope
      else if !exists i :: 0 <= i < |p.actions| && r.actionGlob(r.actionType, p.actions[i]) then Some(false)
      else if !ResourceMatches(p, r) then Some(false)
      else ConditionsHold(p, r)
  }

  function Matching(ps: seq<Policy>, r: Request): seq<Policy> {
    if ps == [] then []
    else
      var n := |ps| - 1;
      Matching(ps[..n], r) + if Matches(ps[n], r) == Some(true) then [ps[n]] else []
  }

  predicate Raises(ps: seq<Policy>, r: Request) {
    exists i :: 0 <= i < |ps| && Matches(ps[i], r).None?
  }

  // ------------------------------------------------------------ overrides

  /** Lookup in an index built from a list: a later entry wins. */
  function Find(ps: seq<Policy>, id: string): Option<Policy> {
    if ps == [] then None
    else if ps[|ps| - 1].id == id then Some(ps[|ps| - 1])
    else Find(ps[..|ps| - 1], id)
  }

  function WithEffect(ps: seq<Policy>, e: Effect): seq<Policy> {
    if ps == [] then []
    else
      var n := |ps| - 1;
      WithEffect(ps[..n], e) + if ps[n].effect == e then [ps[n]] else []
  }

  predicate NonEmpty(s: Option<string>) {
    s.Some? && s.value != ""
  }

  /** The controls an allow policy must itself satisfy. */
  predicate Qualified(allow: Policy) {
    allow.scope.Agent? && NonEmpty(allow.validUntil) && NonEmpty(allow.justification) && NonEmpty(allow.approvedBy)
  }

  function Target(ps: seq<Policy>, matched: seq<Policy>, id: string): Option<Policy> {
    var deny := Find(WithEffect(matched, Deny), id);
    if deny.Some? then deny else Find(ps, id)
  }

  predicate Grants(ps: seq<Policy>, matched: seq<Policy>, allow: Policy, id: string) {
    var target := Target(ps, matched, id);
    target.Some? && target.value.scope.Global? && Qualified(allow)
  }

  predicate AnyWithEffect(ps: seq<Policy>, e: Effect) {
    exists i :: 0 <= i < |ps| && ps[i].effect == e
  }

  function Overrides(ps: seq<Policy>, matched: seq<Policy>): set<string> {
    if !AnyWithEffect(matched, Deny) then {}
    else set a, id | a in matched && a.effect.Allow? && id in a.exceptionTo && Grants(ps, matched, a, id) :: id
  }

  // ------------------------------------------------------------ resolution

  function Without(ps: seq<Policy>, ids: set<string>): (r: seq<Policy>)
    ensures forall p :: p in r <==> p in ps && p.id !in ids
  {
    if ps == [] then []
    else
      var n := |ps| - 1;
      assert ps == ps[..n] + [ps[n]];
      Without(ps[..n], ids) + if ps[n].id in ids then [] else [ps[n]]
  }

  function MaxPriority(ps: seq<Policy>): (m: nat)
    requires ps != []
    ensures forall p :: p in ps ==> p.priority <= m
    ensures exists p :: p in ps && p.priority == m
  {
    if |ps| == 1 then ps[0].priority
    else
      var n := |ps| - 1;
      assert ps == ps[..n] + [ps[n]];
      var m := MaxPriority(ps[..n]);
      if ps[n].priority > m then ps[n].priority else m
  }

  function TopEffects(ps: seq<Policy>): set<Effect>
    requires ps != []
  {
    var m := MaxPriority(ps);
    set p | p in ps && p.priority == m :: p.effect
  }

  /** Effect and conflict flag of the policies that are left. */
  function Resolve(effective: seq<Policy>): (Effect, bool)
    requires effective != []
  {
    if AnyWithEffect(effective, Deny) then
      (Deny, exists p, d :: p in effective && d in effective && !p.effect.Deny? && d.effect.Deny? && p.priority == d.priority)
    else
      var top := TopEffects(effective);
      if top == {Allow} then (Allow, false)
      else if top == {Warn} then (Warn, false)
      else (RequireApproval, top != {RequireApproval})
  }

  function Evaluate(ps: seq<Policy>, r: Request): Resolution {
    var matched := Matching(ps, r);
    if Raises(ps, r) || matched == [] then Resolution(RequireApproval, [], false)
    else
      var effective := Without(matched, Overrides(ps, matched));
      if effective == [] then Resolution(Allow, matched, false)
      else
        var (effect, conflict) := Resolve(effective);
        Resolution(effect, matched, conflict)
  }

  // ------------------------------------------------------------ the engine

  /** The engine holds the policies and an index of them by id. */
  class Engine {
    const policies: seq<Policy>
    var byId: map<string, Policy>

    ghost predicate Valid()
      reads this
    {
      forall id :: Find(policies, id) == if id in byId then Some(byId[id]) else None
    }

    constructor (policies: seq<Policy>)
      ensures Valid() && this.policies == policies
    {
      this.policies := policies;
      byId := map[];
      new;
      for n := 0 to |policies|
        invariant forall id :: Find(policies[..n], id) == if id in byId then Some(byId[id]) else None
      {
        assert policies[..n + 1][..n] == policies[..n];
        byId := byId[policies[n].id := policies[n]];
      }
      assert policies[..|policies|] == policies;
    }

    /** The list of matching policies, or None as soon as one raises. */
    method MatchPolicies(r: Request) returns (matched: Option<seq<Policy>>)
      ensures matched == if Raises(policies, r) then None else Some(Matching(policies, r))
    {
      var matches := [];
      for n := 0 to |policies|
        invariant matches == Matching(policies[..n], r)
        invariant !Raises(policies[..n], r)
      {
        assert policies[..n + 1][..n] == policies[..n];
        var judged := Matches(policies[n], r);
        if judged.None? {
          return None;
        }
        if judged.value {
          matches := matches + [policies[n]];
        }
      }
      assert policies[..|policies|] == policies;
      return Some(matches);
    }

    /** The ids that exceptions remove: one pass over the matched allow
        policies, and for each one over the ids it lists. */
    method ComputeOverrides(matched: seq<Policy>) returns (ids: set<string>)
      requires Valid()
      ensures ids == Overrides(policies, matched)
    {
      ids := {};
      var denies := WithEffect(matched, Deny);
      EffectListEmpty(matched, Deny);
      if denies == [] {
        return;
      }
      for n := 0 to |matched|
        invariant ids == set a, id | a in matched[..n] && a.effect.Allow? && id in a.exceptionTo
                                   && Grants(policies, matched, a, id) :: id
      {
        var allow := matched[n];
        assert matched[..n + 1] == matched[..n] + [allow];
        if allow.effect.Allow? {
          ghost var before := ids;
          for k := 0 to |allow.exceptionTo|
            invariant ids == before + set id | id in allow.exceptionTo[..k] && Grants(policies, matched, allow, id)
          {
            var id := allow.exceptionTo[k];
            assert allow.exceptionTo[..k + 1] == allow.exceptionTo[..k] + [id];
            var target := Find(denies, id);
            if target.None? && id in byId {
              target := Some(byId[id]);
            }
            if target.Some? && target.value.scope.Global? && Qualified(allow) {
              ids := ids + {id};
            }
          }
          assert allow.exceptionTo[..|allow.exceptionTo|] == allow.exceptionTo;
        }
      }
      assert matched[..|matched|] == matched;
    }

    method EvaluateAction(r: Request) returns (res: Resolution)
      requires Valid()
      ensures res == Evaluate(policies, r)
    {
      var matched := MatchPolicies(r);
      if matched.None? || matched.value == [] {
        return Resolution(RequireApproval, [], false);
      }
      var overridden := ComputeOverrides(matched.value);
      var effective := Without(matched.value, overridden);
      if effective == [] {
        return Resolution(Allow, matched.value, false);
      }
      var (effect, conflict) := Resolve(effective);
      return Resolution(effect, matched.value, conflict);
    }
  }

  lemma EffectListEmpty(ps: seq<Policy>, e: Effect)
    ensures WithEffect(ps, e) == [] <==> !AnyWithEffect(ps, e)
  {
    if ps != [] {
      EffectListEmpty(ps[..|ps| - 1], e);
    }
  }
}
