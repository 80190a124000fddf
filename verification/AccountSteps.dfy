/** What each operation on the account tables does to them, and that the tables stay a
    forest in which no plan has more users or domains below it than it may have. */
module AccountSteps {
  import opened Wrappers
  import opened Accounts

  // ----- keys of an object, in the order in which they were added

  function With(keys: seq<string>, x: string): seq<string> {
    if x in keys then keys else keys + [x]
  }

  function Without(keys: seq<string>, x: string): seq<string> {
    if |keys| == 0 then []
    else Without(keys[..|keys| - 1], x) + if keys[|keys| - 1] == x then [] else [keys[|keys| - 1]]
  }

  lemma WithIs(keys: seq<string>, x: string)
    requires NoDup(keys)
    ensures NoDup(With(keys, x)) && forall y :: y in With(keys, x) <==> y in keys || y == x
  {
  }

  lemma {:induction false} WithoutIs(keys: seq<string>, x: string)
    requires NoDup(keys)
    ensures NoDup(Without(keys, x)) && forall y :: y in Without(keys, x) <==> y in keys && y != x
  {
    if |keys| > 0 {
      FrontNoDup(keys);
      WithoutIs(keys[..|keys| - 1], x);
    }
  }

  // ----- the operations

  /** A new plan, below the plan of its owner. */
  function WithPlan(s: Accounts, owner: Option<string>, name: string, opts: PlanOpts): Accounts {
    if owner.Some? && owner.value in s.users then
      var o := owner.value;
      var d := if s.users[o].plan in s.depth then s.depth[s.users[o].plan] + 1 else 0;
      s.(plans := s.plans[name := Plan(o, [], [], opts)],
         users := s.users[o := s.users[o].(subPlans := With(s.users[o].subPlans, name))],
         depth := s.depth[name := d], height := if d > s.height then d else s.height)
    else
      s.(plans := s.plans[name := Plan(SUPER_USER, [], [], opts)], roots := With(s.roots, name),
         depth := s.depth[name := 0])
  }

  function WithUser(s: Accounts, plan: string, name: string): Accounts
    requires plan in s.plans
  {
    s.(plans := s.plans[plan := s.plans[plan].(users := With(s.plans[plan].users, name))],
       users := s.users[name := User(plan, [], [])])
  }

  function WithDomain(s: Accounts, owner: string, name: string): Accounts
    requires owner in s.users
  {
    s.(users := s.users[owner := s.users[owner].(domains := With(s.users[owner].domains, name))],
       domains := s.domains[name := Domain(owner)])
  }

  function WithoutDomain(s: Accounts, name: string): Accounts
    requires name in s.domains && s.domains[name].Domain? && s.domains[name].owner in s.users
  {
    var o := s.domains[name].owner;
    s.(domains := s.domains - {name},
       users := s.users[o := s.users[o].(domains := Without(s.users[o].domains, name))])
  }

  /** A domain is given to another user. */
  function MovedDomain(s: Accounts, name: string, owner: string): Accounts
    requires name in s.domains && s.domains[name].Domain? && s.domains[name].owner in s.users && owner in s.users
  {
    WithDomain(WithoutDomain(s, name), owner, name)
  }

  function Suspended(s: Accounts, plan: string, reason: string): Accounts
    requires plan in s.plans
  {
    s.(plans := s.plans[plan := s.plans[plan].(suspended := With(s.plans[plan].suspended, reason))])
  }

  /** The keys without the first x. */
  function WithoutFirst(keys: seq<string>, x: string): seq<string> {
    if |keys| == 0 then []
    else if keys[0] == x then keys[1..]
    else [keys[0]] + WithoutFirst(keys[1..], x)
  }

  /** A reason for which a plan is suspended is taken back, or all of them. */
  function Resumed(s: Accounts, plan: string, reason: string): Accounts
    requires plan in s.plans
  {
    var reasons := s.plans[plan].suspended;
    s.(plans := s.plans[plan := s.plans[plan].(suspended :=
         if reason == "" then [] else WithoutFirst(reasons, reason))])
  }

  // ----- what the links depend on

  lemma SameUsersLinked(s: Accounts, t: Accounts)
    requires UsersLinked(s) && s.users.Keys == t.users.Keys && s.plans.Keys == t.plans.Keys
    requires forall u :: u in s.users ==> t.users[u].plan == s.users[u].plan
    requires forall p :: p in s.plans ==> t.plans[p].users == s.plans[p].users
    ensures UsersLinked(t)
  {
  }

  lemma SamePlansLinked(s: Accounts, t: Accounts)
    requires PlansLinked(s) && s.users.Keys == t.users.Keys && s.plans.Keys == t.plans.Keys && s.roots == t.roots
    requires forall u :: u in s.users ==> t.users[u].subPlans == s.users[u].subPlans
    requires forall p :: p in s.plans ==> t.plans[p].owner == s.plans[p].owner
    ensures PlansLinked(t)
  {
  }

  /** The domains stay linked when users come, without domains, or do not change theirs. */
  lemma MoreUsersDomainsLinked(s: Accounts, t: Accounts)
    requires DomainsLinked(s) && s.domains == t.domains && s.users.Keys <= t.users.Keys
    requires forall u :: u in t.users ==> t.users[u].domains == if u in s.users then s.users[u].domains else []
    ensures DomainsLinked(t)
  {
  }

  /** Removing users and plans, or changing neither, leaves the ways up as they are. */
  lemma FewerClimb(s: Accounts, t: Accounts)
    requires Climbs(s) && t.users.Keys <= s.users.Keys && t.plans.Keys <= s.plans.Keys
    requires t.depth == s.depth && t.height == s.height
    requires forall u :: u in t.users ==> t.users[u].plan == s.users[u].plan && t.users[u].plan in t.plans
    requires forall p :: p in t.plans ==> t.plans[p].owner == s.plans[p].owner
    ensures Climbs(t)
  {
  }

  // ----- each operation keeps the forest

  lemma PlanKeepsForest(s: Accounts, owner: Option<string>, name: string, opts: PlanOpts)
    requires Forest(s) && name !in s.plans && (owner.Some? ==> owner.value in s.users)
    ensures Forest(WithPlan(s, owner, name, opts))
  {
    var t := WithPlan(s, owner, name, opts);
    PlanKeepsOwners(s, owner, name, opts);
    PlanKeepsUsers(s, owner, name, opts);
    PlanKeepsClimb(s, owner, name, opts);
    hide UsersLinked, PlansLinked, Climbs, WithPlan;
    MoreUsersDomainsLinked(s, t);
  }

  lemma PlanKeepsOwners(s: Accounts, owner: Option<string>, name: string, opts: PlanOpts)
    requires PlansLinked(s) && Climbs(s) && name !in s.plans && (owner.Some? ==> owner.value in s.users)
    ensures PlansLinked(WithPlan(s, owner, name, opts))
  {
    SuperIsNoUser(s);
    if owner.Some? {
      OwnedPlan(s, owner.value, name, opts, WithPlan(s, owner, name, opts));
    } else {
      RootPlan(s, name, opts, WithPlan(s, owner, name, opts));
    }
  }

  lemma OwnedPlan(s: Accounts, o: string, name: string, opts: PlanOpts, t: Accounts)
    requires PlansLinked(s) && name !in s.plans && o in s.users && t.roots == s.roots
    requires t.plans == s.plans[name := Plan(o, [], [], opts)]
    requires t.users == s.users[o := s.users[o].(subPlans := With(s.users[o].subPlans, name))]
    ensures PlansLinked(t)
  {
  }

  lemma RootPlan(s: Accounts, name: string, opts: PlanOpts, t: Accounts)
    requires PlansLinked(s) && name !in s.plans && SUPER_USER !in s.users && t.users == s.users
    requires t.plans == s.plans[name := Plan(SUPER_USER, [], [], opts)] && t.roots == With(s.roots, name)
    ensures PlansLinked(t)
  {
    hide NoDup, PlansLinked, With;
    RootsAre(s);
    WithIs(s.roots, name);
    forall p | p in t.plans
      ensures if t.plans[p].owner in t.users then p in t.users[t.plans[p].owner].subPlans
        else t.plans[p].owner == SUPER_USER && p in t.roots
    {
      if p != name {
        PlanOwner(s, p);
      }
    }
    forall u | u in t.users
      ensures NoDup(t.users[u].subPlans)
      ensures forall p :: p in t.users[u].subPlans ==> p in t.plans && t.plans[p].owner == u
    {
      OwnPlans(s, u);
    }
    PlansLinkedFrom(t);
  }

  lemma PlanKeepsUsers(s: Accounts, owner: Option<string>, name: string, opts: PlanOpts)
    requires UsersLinked(s) && name !in s.plans && (owner.Some? ==> owner.value in s.users)
    ensures UsersLinked(WithPlan(s, owner, name, opts))
    ensures var t := WithPlan(s, owner, name, opts);
      && s.domains == t.domains && s.users.Keys == t.users.Keys
      && forall u :: u in t.users ==> t.users[u].domains == s.users[u].domains
  {
    hide UsersLinked, With;
    var t := WithPlan(s, owner, name, opts);
    assert s.users.Keys == t.users.Keys;
    PlanWithoutUsers(s, t, name);
  }

  lemma PlanWithoutUsers(s: Accounts, t: Accounts, name: string)
    requires UsersLinked(s) && name !in s.plans && t.users.Keys == s.users.Keys && t.plans.Keys == s.plans.Keys + {name}
    requires forall u :: u in s.users ==> t.users[u].plan == s.users[u].plan
    requires t.plans[name].users == [] && forall p :: p in s.plans ==> t.plans[p].users == s.plans[p].users
    ensures UsersLinked(t)
  {
  }

  lemma RootClimbs(s: Accounts, name: string, opts: PlanOpts)
    requires Climbs(s) && SUPER_USER !in s.users && name !in s.plans
    ensures Climbs(WithPlan(s, None, name, opts))
  {
    hide With;
  }

  lemma OwnedClimbs(s: Accounts, o: string, name: string, opts: PlanOpts)
    requires Climbs(s) && name !in s.plans && o in s.users
    ensures Climbs(WithPlan(s, Some(o), name, opts))
  {
    hide With;
  }

  lemma PlanKeepsClimb(s: Accounts, owner: Option<string>, name: string, opts: PlanOpts)
    requires Climbs(s) && PlansLinked(s) && name !in s.plans && (owner.Some? ==> owner.value in s.users)
    ensures Climbs(WithPlan(s, owner, name, opts))
  {
    SuperIsNoUser(s);
    hide PlansLinked, Climbs, WithPlan;
    if owner == None {
      RootClimbs(s, name, opts);
    } else {
      OwnedClimbs(s, owner.value, name, opts);
    }
  }

  /** A new user keeps the forest, exactly when it does not have the name that stands for
      no owner. */
  lemma UserKeepsForest(s: Accounts, plan: string, name: string)
    requires Forest(s) && plan in s.plans && name !in s.users
    ensures name != SUPER_USER ==> Forest(WithUser(s, plan, name))
    ensures name == SUPER_USER ==>
      forall depth, height :: !Forest(WithUser(s, plan, name).(depth := depth, height := height))
  {
    if name != SUPER_USER {
      UserKeepsPlans(s, plan, name);
      UserKeepsUsers(s, plan, name);
      MoreUsersDomainsLinked(s, WithUser(s, plan, name));
    } else {
      forall depth, height ensures !Forest(WithUser(s, plan, name).(depth := depth, height := height)) {
        NoSuperUser(WithUser(s, plan, name).(depth := depth, height := height));
      }
    }
  }

  lemma NoSuperUser(t: Accounts)
    requires SUPER_USER in t.users
    ensures !Forest(t)
  {
    if Forest(t) {
      SuperIsNoUser(t);
    }
  }

  lemma UserKeepsPlans(s: Accounts, plan: string, name: string)
    requires PlansLinked(s) && Climbs(s) && plan in s.plans && name !in s.users && name != SUPER_USER
    ensures PlansLinked(WithUser(s, plan, name)) && Climbs(WithUser(s, plan, name))
  {
    SuperIsNoUser(s);
    UserKeepsOwners(s, WithUser(s, plan, name), plan, name);
    UserKeepsClimb(s, WithUser(s, plan, name), plan, name);
  }

  /** The tables with one more user, who owns nothing. */
  ghost predicate OneMoreUser(s: Accounts, t: Accounts, plan: string, name: string) {
    && plan in s.plans && name !in s.users && t.roots == s.roots && t.depth == s.depth && t.height == s.height
    && t.users == s.users[name := User(plan, [], [])] && t.plans.Keys == s.plans.Keys
    && forall p :: p in s.plans ==> t.plans[p].owner == s.plans[p].owner
  }

  lemma PlansLinkedFrom(t: Accounts)
    requires forall q :: q in t.plans ==>
      if t.plans[q].owner in t.users then q in t.users[t.plans[q].owner].subPlans
      else t.plans[q].owner == SUPER_USER && q in t.roots
    requires forall u :: u in t.users ==> NoDup(t.users[u].subPlans)
    requires forall u, q :: u in t.users && q in t.users[u].subPlans ==> q in t.plans && t.plans[q].owner == u
    requires NoDup(t.roots) && forall q :: q in t.roots ==> q in t.plans && t.plans[q].owner == SUPER_USER
    ensures PlansLinked(t)
  {
  }

  lemma PlanOwner(s: Accounts, p: string)
    requires PlansLinked(s) && p in s.plans
    ensures if s.plans[p].owner in s.users then p in s.users[s.plans[p].owner].subPlans
      else s.plans[p].owner == SUPER_USER && p in s.roots
  {
  }

  lemma RootsAre(s: Accounts)
    requires PlansLinked(s)
    ensures NoDup(s.roots) && forall p :: p in s.roots ==> p in s.plans && s.plans[p].owner == SUPER_USER
  {
  }

  lemma UserKeepsOwners(s: Accounts, t: Accounts, plan: string, name: string)
    requires PlansLinked(s) && OneMoreUser(s, t, plan, name) && name != SUPER_USER
    ensures PlansLinked(t)
  {
    hide NoDup, PlansLinked;
    EmptyNoDup();
    RootsAre(s);
    forall p | p in t.plans
      ensures if t.plans[p].owner in t.users then p in t.users[t.plans[p].owner].subPlans
        else t.plans[p].owner == SUPER_USER && p in t.roots
    {
      PlanOwner(s, p);
    }
    forall u | u in t.users ensures NoDup(t.users[u].subPlans) {
      if u != name {
        OwnPlans(s, u);
      }
    }
    forall u, p | u in t.users && p in t.users[u].subPlans ensures p in t.plans && t.plans[p].owner == u {
      OwnPlans(s, u);
    }
    PlansLinkedFrom(t);
  }

  lemma EmptyNoDup()
    ensures NoDup<string>([])
  {
  }

  lemma UserKeepsClimb(s: Accounts, t: Accounts, plan: string, name: string)
    requires PlansLinked(s) && Climbs(s) && OneMoreUser(s, t, plan, name) && name != SUPER_USER
    ensures Climbs(t)
  {
  }

  lemma UserKeepsUsers(s: Accounts, plan: string, name: string)
    requires UsersLinked(s) && plan in s.plans && name !in s.users
    ensures UsersLinked(WithUser(s, plan, name))
  {
  }

  lemma DomainKeepsForest(s: Accounts, owner: string, name: string)
    requires Forest(s) && owner in s.users && name !in s.domains
    ensures Forest(WithDomain(s, owner, name))
  {
    WithIs(s.users[owner].domains, name);
    DomainsChange(s, owner, With(s.users[owner].domains, name), s.domains[name := Domain(owner)], name);
  }

  lemma LosingDomainKeepsForest(s: Accounts, name: string)
    requires Forest(s) && name in s.domains
    ensures Forest(WithoutDomain(s, name))
  {
    var o := s.domains[name].owner;
    WithoutIs(s.users[o].domains, name);
    DomainsChange(s, o, Without(s.users[o].domains, name), s.domains - {name}, name);
  }

  lemma MovingDomainKeepsForest(s: Accounts, name: string, owner: string)
    requires Forest(s) && name in s.domains && owner in s.users
    ensures Forest(MovedDomain(s, name, owner))
  {
    LosingDomainKeepsForest(s, name);
    DomainKeepsForest(WithoutDomain(s, name), owner, name);
  }

  lemma PlansOfUsers(s: Accounts)
    requires Climbs(s)
    ensures forall u :: u in s.users ==> s.users[u].plan in s.plans
  {
  }

  /** One user gets or loses one domain. */
  lemma DomainsChange(s: Accounts, u: string, ds: seq<string>, domains: map<string, Domain>, name: string)
    requires Forest(s) && u in s.users && NoDup(ds)
    requires forall d :: d in ds && d != name <==> d in s.users[u].domains && d != name
    requires forall d :: d in domains && d != name <==> d in s.domains && d != name
    requires forall d :: d in domains && d != name ==> domains[d] == s.domains[d]
    requires name in s.domains ==> s.domains[name] == Domain(u)
    requires if name in domains then name in ds && domains[name] == Domain(u) else name !in ds
    ensures Forest(s.(users := s.users[u := s.users[u].(domains := ds)], domains := domains))
  {
    hide UsersLinked, PlansLinked, DomainsLinked, Climbs, NoDup;
    var t := s.(users := s.users[u := s.users[u].(domains := ds)], domains := domains);
    assert t.users.Keys == s.users.Keys;
    DomainLinksChange(s, u, ds, domains, name);
    assert forall v :: v in t.users ==>
      t.users[v].plan == s.users[v].plan && t.users[v].subPlans == s.users[v].subPlans;
    PlansOfUsers(s);
    FewerClimb(s, t);
    SameUsersLinked(s, t);
    SamePlansLinked(s, t);
  }

  lemma DomainLinksChange(s: Accounts, u: string, ds: seq<string>, domains: map<string, Domain>, name: string)
    requires DomainsLinked(s) && u in s.users && NoDup(ds)
    requires forall d :: d in ds && d != name <==> d in s.users[u].domains && d != name
    requires forall d :: d in domains && d != name <==> d in s.domains && d != name
    requires forall d :: d in domains && d != name ==> domains[d] == s.domains[d]
    requires name in s.domains ==> s.domains[name] == Domain(u)
    requires if name in domains then name in ds && domains[name] == Domain(u) else name !in ds
    ensures DomainsLinked(s.(users := s.users[u := s.users[u].(domains := ds)], domains := domains))
  {
  }

  lemma ResumeKeepsForest(s: Accounts, plan: string, reason: string)
    requires Forest(s) && plan in s.plans
    ensures Forest(Resumed(s, plan, reason))
  {
    hide UsersLinked, PlansLinked, DomainsLinked, Climbs;
    var t := Resumed(s, plan, reason);
    PlansOfUsers(s);
    FewerClimb(s, t);
    SameUsersLinked(s, t);
    SamePlansLinked(s, t);
    MoreUsersDomainsLinked(s, t);
  }

  lemma SuspendKeepsForest(s: Accounts, plan: string, reason: string)
    requires Forest(s) && plan in s.plans
    ensures Forest(Suspended(s, plan, reason))
  {
    hide UsersLinked, PlansLinked, DomainsLinked, Climbs;
    var t := Suspended(s, plan, reason);
    PlansOfUsers(s);
    FewerClimb(s, t);
    SameUsersLinked(s, t);
    SamePlansLinked(s, t);
    MoreUsersDomainsLinked(s, t);
  }
}
