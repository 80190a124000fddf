/** The limits of a plan: those it is given must lie within its parent's, and those in force
    are the least along the way up. */
module AccountLimits {
  import opened Wrappers
  import opened Accounts
  import opened AccountSteps
  import opened AccountQuotas
  import opened AccountDeletion

  /** A maximum that stands for no bound. */
  const UNBOUNDED: int := -1

  const UNLIMITED_PLAN := "Unlimited"

  /** Bound a is not looser than bound b. */
  predicate AtMost(a: int, b: int) {
    b == UNBOUNDED || (a != UNBOUNDED && a <= b)
  }

  // ----- what a new plan may be given

  /** A maximum that is asked for is more than the parent's; a parent without one, or with
      zero, is not looked at. */
  predicate Exceeds(parent: PlanOpts, opts: PlanOpts, field: string) {
    && field in opts.planMaximums && field in parent.planMaximums && parent.planMaximums[field] != 0
    && opts.planMaximums[field] > parent.planMaximums[field]
    && opts.planMaximums[field] != UNBOUNDED && parent.planMaximums[field] != UNBOUNDED
  }

  ghost predicate MayAdd(parent: PlanOpts, opts: PlanOpts) {
    && parent.canCreatePlan && (opts.canCreateUser ==> parent.canCreateUser)
    && opts.maxUserCount <= parent.maxUserCount && opts.maxDomainCount <= parent.maxDomainCount
    && forall field :: field in opts.planMaximums ==> !Exceeds(parent, opts, field)
  }

  /** Every plan was allowed by the plan above it. */
  ghost predicate Nested(s: Accounts)
    requires Climbs(s)
  {
    forall p :: p in s.plans && s.plans[p].owner in s.users ==>
      MayAdd(s.plans[s.users[s.plans[p].owner].plan].opts, s.plans[p].opts)
  }

  lemma {:induction false} CountsNested(s: Accounts, u: string, p: string)
    requires Climbs(s) && Nested(s) && u in s.users && Under(s, u, p, true)
    ensures p in s.plans && s.users[u].plan in s.plans
    ensures s.plans[s.users[u].plan].opts.maxUserCount <= s.plans[p].opts.maxUserCount
    ensures s.plans[s.users[u].plan].opts.maxDomainCount <= s.plans[p].opts.maxDomainCount
    ensures s.plans[s.users[u].plan].opts.canCreateUser ==> s.plans[p].opts.canCreateUser
    ensures s.users[u].plan != p ==> s.plans[p].opts.canCreatePlan
    decreases s.depth[s.users[u].plan]
  {
    var q := s.users[u].plan;
    if q != p {
      CountsNested(s, s.plans[q].owner, p);
      assert MayAdd(s.plans[s.users[s.plans[q].owner].plan].opts, s.plans[q].opts);
    }
  }

  /** Nesting is kept when users and plans that stay keep their plan, owner and options. */
  lemma NestedStays(s: Accounts, t: Accounts)
    requires Climbs(s) && Climbs(t) && PlansLinked(s) && Nested(s) && SUPER_USER !in t.users
    requires forall u :: u in t.users && u in s.users ==> t.users[u].plan == s.users[u].plan
    requires forall p :: p in t.plans ==>
      p in s.plans && t.plans[p].owner == s.plans[p].owner && t.plans[p].opts == s.plans[p].opts
    ensures Nested(t)
  {
    hide MayAdd;
    forall p | p in t.plans && t.plans[p].owner in t.users
      ensures MayAdd(t.plans[t.users[t.plans[p].owner].plan].opts, t.plans[p].opts)
    {
      OwnersKnown(s, p);
    }
  }

  lemma PlanKeepsNested(s: Accounts, owner: Option<string>, name: string, opts: PlanOpts)
    requires Climbs(s) && PlansLinked(s) && Nested(s) && name !in s.plans && (owner.Some? ==> owner.value in s.users)
    requires owner.Some? ==>
      s.users[owner.value].plan in s.plans && MayAdd(s.plans[s.users[owner.value].plan].opts, opts)
    requires Climbs(WithPlan(s, owner, name, opts))
    ensures Nested(WithPlan(s, owner, name, opts))
  {
  }

  // ----- what is in force

  function ParentPlanName(s: Accounts, name: string): Option<string> {
    if name !in s.plans || s.plans[name].owner !in s.users || name == s.users[s.plans[name].owner].plan then None
    else Some(s.users[s.plans[name].owner].plan)
  }

  /** The plan whose limits bind a plan besides its own; an empty name stands for none. */
  function Parent(s: Accounts, p: string): (parent: Option<string>)
    requires Climbs(s) && p in s.plans
    ensures parent.Some? ==> parent.value in s.plans && s.depth[parent.value] < s.depth[p]
    ensures parent.Some? ==> s.plans[p].owner in s.users && parent.value == s.users[s.plans[p].owner].plan
  {
    var name := ParentPlanName(s, p);
    if s.plans[p].owner == "" || name == None || name.value == "" || name.value !in s.plans then None else name
  }

  ghost predicate AllHave(s: Accounts, field: string) {
    forall p :: p in s.plans ==> field in s.plans[p].opts.planMaximums
  }

  /** The maximum in force for a plan. */
  function GetMaximum(s: Accounts, p: string, field: string): int
    requires Climbs(s) && p in s.plans && AllHave(s, field)
    decreases s.depth[p]
  {
    if p == UNLIMITED_PLAN then UNBOUNDED
    else
      var val, parent := s.plans[p].opts.planMaximums[field], Parent(s, p);
      if parent == None then val
      else
        var parentVal := GetMaximum(s, parent.value, field);
        if parentVal == UNBOUNDED then val
        else if val == UNBOUNDED then parentVal
        else if parentVal < val then parentVal
        else val
  }

  function Flag(s: Accounts, p: string, field: string): bool
    requires p in s.plans
  {
    field in s.plans[p].opts.flags && s.plans[p].opts.flags[field]
  }

  /** Whether a permission is in force for a plan. */
  function GetBool(s: Accounts, p: string, field: string): bool
    requires Climbs(s) && p in s.plans
    decreases s.depth[p]
  {
    if p == UNLIMITED_PLAN then true
    else
      var parent := Parent(s, p);
      if parent == None || GetBool(s, parent.value, field) then Flag(s, p, field) else false
  }

  /** Plan q is met on the way up from p, which ends at the plan without limits. */
  ghost predicate OnChain(s: Accounts, p: string, q: string)
    requires Climbs(s) && p in s.plans
    decreases s.depth[p]
  {
    q == p || (p != UNLIMITED_PLAN && Parent(s, p).Some? && OnChain(s, Parent(s, p).value, q))
  }

  ghost function OwnMaximum(s: Accounts, q: string, field: string): int
    requires q in s.plans && AllHave(s, field)
  {
    if q == UNLIMITED_PLAN then UNBOUNDED else s.plans[q].opts.planMaximums[field]
  }

  lemma {:induction false} ChainIsAbove(s: Accounts, p: string, q: string)
    requires Climbs(s) && p in s.plans && OnChain(s, p, q)
    ensures q in s.plans && AtOrAbove(s, p, q)
    decreases s.depth[p]
  {
    if q != p {
      ChainIsAbove(s, s.users[s.plans[p].owner].plan, q);
    }
  }

  /** The way up goes on from a plan with an owner: the plan is not the unlimited one, and
      neither the owner nor the owner's plan has an empty name. */
  ghost predicate GoesOn(s: Accounts, q: string)
    requires q in s.plans
  {
    s.plans[q].owner in s.users ==>
      q != UNLIMITED_PLAN && s.plans[q].owner != "" && s.users[s.plans[q].owner].plan != ""
  }

  ghost predicate GoesOnAbove(s: Accounts, p: string)
    requires Climbs(s)
  {
    forall q :: q in s.plans && AtOrAbove(s, p, q) ==> GoesOn(s, q)
  }

  /** The way up from a plan meets every plan above it exactly when it goes on from each of them. */
  lemma {:induction false} ChainIsAllAbove(s: Accounts, p: string)
    requires Climbs(s) && p in s.plans
    ensures (forall q :: AtOrAbove(s, p, q) ==> OnChain(s, p, q)) <==> GoesOnAbove(s, p)
    decreases s.depth[p]
  {
    var o := s.plans[p].owner;
    if o in s.users {
      var parent := s.users[o].plan;
      ChainIsAllAbove(s, parent);
      ParentIs(s, p);
      NotAboveParent(s, p);
      hide Climbs, Under, GoesOn, Parent, OnChain;
      assert AtOrAbove(s, p, parent) && AtOrAbove(s, p, p);
      assert forall q :: AtOrAbove(s, p, q) <==> q == p || AtOrAbove(s, parent, q);
    }
  }

  lemma ParentIs(s: Accounts, p: string)
    requires Climbs(s) && p in s.plans && s.plans[p].owner in s.users
    ensures var parent := s.users[s.plans[p].owner].plan;
      parent in s.plans && parent != p
      && forall q :: OnChain(s, p, q) <==> q == p || (GoesOn(s, p) && OnChain(s, parent, q))
  {
  }

  lemma NotAboveParent(s: Accounts, p: string)
    requires Climbs(s) && p in s.plans && s.plans[p].owner in s.users
    ensures var parent := s.users[s.plans[p].owner].plan;
      && !AtOrAbove(s, parent, p) && AtOrAbove(s, p, parent)
      && forall q :: AtOrAbove(s, p, q) <==> q == p || AtOrAbove(s, parent, q)
  {
    var o := s.plans[p].owner;
    OwnPlanIsBelow(s, p);
    assert forall q :: Under(s, o, q, true) <==> AtOrAbove(s, s.users[o].plan, q);
  }

  /** The maximum in force is the least on the way up. */
  lemma {:induction false} MaximumIsLeast(s: Accounts, p: string, field: string) returns (least: string)
    requires Climbs(s) && p in s.plans && AllHave(s, field)
    ensures least in s.plans && OnChain(s, p, least) && GetMaximum(s, p, field) == OwnMaximum(s, least, field)
    ensures forall q :: q in s.plans && OnChain(s, p, q) ==> AtMost(GetMaximum(s, p, field), OwnMaximum(s, q, field))
    decreases s.depth[p]
  {
    least := p;
    if p != UNLIMITED_PLAN && Parent(s, p).Some? {
      var above := MaximumIsLeast(s, Parent(s, p).value, field);
      if GetMaximum(s, p, field) != s.plans[p].opts.planMaximums[field] {
        least := above;
      }
    }
  }

  /** When the way up goes on to the root, nothing above a plan is tighter than the maximum in force. */
  lemma MaximumIsLeastAbove(s: Accounts, p: string, field: string, q: string)
    requires Climbs(s) && p in s.plans && AllHave(s, field) && q in s.plans && AtOrAbove(s, p, q)
    requires GoesOnAbove(s, p)
    ensures AtMost(GetMaximum(s, p, field), OwnMaximum(s, q, field))
  {
    ChainIsAllAbove(s, p);
    var least := MaximumIsLeast(s, p, field);
  }

  /** What is in force for a plan is within what is in force for its parent, exactly unless
      the plan is the unlimited one below a bounded one. */
  lemma ChildWithinParent(s: Accounts, p: string, field: string)
    requires Climbs(s) && p in s.plans && AllHave(s, field) && Parent(s, p).Some?
    ensures AtMost(GetMaximum(s, p, field), GetMaximum(s, Parent(s, p).value, field)) <==>
      p != UNLIMITED_PLAN || GetMaximum(s, Parent(s, p).value, field) == UNBOUNDED
  {
  }

  /** A permission is in force when every plan on the way up has it. */
  lemma {:induction false} BoolIsConjunction(s: Accounts, p: string, field: string)
    requires Climbs(s) && p in s.plans
    ensures GetBool(s, p, field) <==>
      forall q :: q in s.plans && OnChain(s, p, q) && q != UNLIMITED_PLAN ==>
        var flags := s.plans[q].opts.flags;
        field in flags && flags[field]
    decreases s.depth[p]
  {
    assert OnChain(s, p, p);
    if p != UNLIMITED_PLAN && Parent(s, p).Some? {
      var parent := Parent(s, p).value;
      BoolIsConjunction(s, parent, field);
      assert forall q :: OnChain(s, p, q) <==> q == p || OnChain(s, parent, q);
    }
  }
}
