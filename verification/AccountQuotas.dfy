/** No plan has more users or domains below it than it may have, whatever is added,
    removed, suspended or given away. */
module AccountQuotas {
  import opened Wrappers
  import opened Accounts
  import opened AccountSteps

  function Cap(max: int): nat {
    if max < 0 then 0 else max
  }

  ghost predicate WithinQuota(s: Accounts, p: string)
    requires Climbs(s) && p in s.plans
  {
    && |CountedUsers(s, p, false)| <= Cap(s.plans[p].opts.maxUserCount)
    && |CountedDomains(s, p)| <= Cap(s.plans[p].opts.maxDomainCount)
  }

  ghost predicate Quotas(s: Accounts)
    requires Climbs(s)
  {
    forall p :: p in s.plans ==> WithinQuota(s, p)
  }

  // ----- when the way up from a user is the same in two states

  /** The users in U have the same way up in s as in t, with no plan on it suspended in s
      that is not in t. */
  ghost predicate Agrees(t: Accounts, s: Accounts, U: set<string>, all: bool) {
    forall u :: u in U ==> AgreesOn(t, s, u, U, all)
  }

  ghost predicate AgreesOn(t: Accounts, s: Accounts, u: string, U: set<string>, all: bool) {
    && u in t.users && u in s.users && t.users[u].plan == s.users[u].plan
    && PlanAgrees(t, s, t.users[u].plan, U, all)
  }

  ghost predicate PlanAgrees(t: Accounts, s: Accounts, q: string, U: set<string>, all: bool) {
    && q in t.plans && q in s.plans && t.plans[q].owner == s.plans[q].owner
    && (t.plans[q].owner in t.users ==> t.plans[q].owner in U)
    && (all || t.plans[q].suspended != [] || s.plans[q].suspended == [])
  }

  lemma {:induction false} UnderAgrees(t: Accounts, s: Accounts, U: set<string>, u: string, p: string, all: bool)
    requires Climbs(t) && Climbs(s) && Agrees(t, s, U, all) && u in U && u in t.users && Under(t, u, p, all)
    ensures u in s.users && Under(s, u, p, all)
    decreases t.depth[t.users[u].plan]
  {
    assert AgreesOn(t, s, u, U, all);
    var o := t.plans[t.users[u].plan].owner;
    if t.users[u].plan != p {
      UnderAgrees(t, s, U, o, p, all);
    }
  }

  lemma SubsetSize<T>(a: set<T>, b: set<T>)
    requires a <= b
    ensures |a| <= |b|
  {
    assert b == a + (b - a);
  }

  /** Fewer counted users and domains keep within the quota. */
  lemma FewerKeepQuota(s: Accounts, t: Accounts, p: string)
    requires Climbs(s) && Climbs(t) && p in s.plans && p in t.plans && t.plans[p].opts == s.plans[p].opts
    requires WithinQuota(s, p)
    requires CountedUsers(t, p, false) <= CountedUsers(s, p, false) && CountedDomains(t, p) <= CountedDomains(s, p)
    ensures WithinQuota(t, p)
  {
    SubsetSize(CountedUsers(t, p, false), CountedUsers(s, p, false));
    SubsetSize(CountedDomains(t, p), CountedDomains(s, p));
  }

  /** Nothing new is counted below p. */
  lemma NothingNew(s: Accounts, t: Accounts, p: string)
    requires Climbs(s) && Climbs(t) && Agrees(t, s, t.users.Keys, false)
    requires forall d :: d in t.domains ==> d in s.domains && t.domains[d] == s.domains[d]
    ensures CountedUsers(t, p, false) <= CountedUsers(s, p, false) && CountedDomains(t, p) <= CountedDomains(s, p)
  {
    forall u | u in t.users && Under(t, u, p, false) ensures u in s.users && Under(s, u, p, false) {
      UnderAgrees(t, s, t.users.Keys, u, p, false);
    }
  }

  /** Taking away, and suspending, keeps the quotas. */
  lemma LessKeepsQuotas(s: Accounts, t: Accounts)
    requires Climbs(s) && Climbs(t) && Quotas(s) && Agrees(t, s, t.users.Keys, false)
    requires forall d :: d in t.domains ==> d in s.domains && t.domains[d] == s.domains[d]
    requires forall p :: p in t.plans ==> p in s.plans && t.plans[p].opts == s.plans[p].opts
    ensures Quotas(t)
  {
    forall p | p in t.plans ensures WithinQuota(t, p) {
      assert WithinQuota(s, p);
      NothingNew(s, t, p);
      FewerKeepQuota(s, t, p);
    }
  }

  // ----- adding

  /** Plan p is plan q or above it. */
  ghost predicate AtOrAbove(s: Accounts, q: string, p: string)
    requires Climbs(s)
  {
    q in s.plans && (q == p || (s.plans[q].owner in s.users && Under(s, s.plans[q].owner, p, true)))
  }

  /** What is in plan q counts for plan p: p is q, or above it with no plan suspended on the
      way up from q to it. */
  ghost predicate CountsFor(s: Accounts, q: string, p: string)
    requires Climbs(s)
  {
    q in s.plans && (q == p || (Open(s, q, false) && s.plans[q].owner in s.users
      && Under(s, s.plans[q].owner, p, false)))
  }

  /** There is room for one more user of a plan wherever it counts. */
  ghost predicate RoomForUser(s: Accounts, plan: string)
    requires Climbs(s)
  {
    forall p :: p in s.plans && CountsFor(s, plan, p) ==> UserTotal(s, p) < s.plans[p].opts.maxUserCount
  }

  /** There is room for a domain of a user of the plan wherever it counts and did not before. */
  ghost predicate RoomForDomain(s: Accounts, plan: string, name: string)
    requires Climbs(s)
  {
    forall p :: p in s.plans && CountsFor(s, plan, p) && name !in CountedDomains(s, p) ==>
      DomainTotal(s, p) < s.plans[p].opts.maxDomainCount
  }

  lemma {:induction false} CountedIsBelow(s: Accounts, u: string, p: string)
    requires Climbs(s) && u in s.users && Under(s, u, p, false)
    ensures Under(s, u, p, true)
    decreases s.depth[s.users[u].plan]
  {
    if s.users[u].plan != p {
      CountedIsBelow(s, s.plans[s.users[u].plan].owner, p);
    }
  }

  lemma CountsForAbove(s: Accounts, q: string, p: string)
    requires Climbs(s) && CountsFor(s, q, p)
    ensures AtOrAbove(s, q, p)
  {
    if q != p {
      CountedIsBelow(s, s.plans[q].owner, p);
    }
  }

  /** One more fits exactly where there is room for it. */
  lemma OneMore<T>(before: set<T>, after: set<T>, x: T, counts: bool, max: int)
    requires |before| <= Cap(max) && if counts then after == before + {x} else after <= before
    ensures |after| <= Cap(max) <==> (counts && x !in before ==> |before| < max)
  {
    if !counts {
      SubsetSize(after, before);
    } else if x in before {
      assert after == before;
    }
  }

  /** A new user keeps every plan within its quota exactly when there is room for it. */
  lemma UserKeepsQuotas(s: Accounts, plan: string, name: string)
    requires Forest(s) && Quotas(s) && plan in s.plans && name !in s.users && name != SUPER_USER
    ensures var t := WithUser(s, plan, name); Climbs(t) && (Quotas(t) <==> RoomForUser(s, plan))
  {
    hide UsersLinked, PlansLinked, DomainsLinked, Climbs, WithinQuota, CountsFor, UserTotal, With;
    var t := WithUser(s, plan, name);
    UserKeepsForest(s, plan, name);
    DepthsKnown(s);
    assert t.plans.Keys == s.plans.Keys;
    forall p | p in s.plans
      ensures p in t.plans
      ensures WithinQuota(t, p) <==> (CountsFor(s, plan, p) ==> UserTotal(s, p) < s.plans[p].opts.maxUserCount)
    {
      UserKeepsQuota(s, plan, name, p);
    }
  }

  /** Owners are users, or the name that stands for none. */
  lemma OwnersKnown(s: Accounts, p: string)
    requires PlansLinked(s) && p in s.plans
    ensures s.plans[p].owner in s.users || s.plans[p].owner == SUPER_USER
  {
  }

  lemma NewUserAgrees(s: Accounts, plan: string, name: string)
    requires PlansLinked(s) && Climbs(s) && plan in s.plans && name !in s.users && name != SUPER_USER
    ensures Agrees(WithUser(s, plan, name), s, s.users.Keys, false)
    ensures Agrees(s, WithUser(s, plan, name), s.users.Keys, false)
  {
    hide PlansLinked, Climbs, WithUser, AgreesOn;
    var t := WithUser(s, plan, name);
    forall u | u in s.users
      ensures AgreesOn(t, s, u, s.users.Keys, false) && AgreesOn(s, t, u, s.users.Keys, false)
    {
      OldUserAgrees(s, plan, name, u);
    }
  }

  lemma OldUserAgrees(s: Accounts, plan: string, name: string, u: string)
    requires PlansLinked(s) && Climbs(s) && plan in s.plans && name !in s.users && name != SUPER_USER && u in s.users
    ensures var t := WithUser(s, plan, name);
      AgreesOn(t, s, u, s.users.Keys, false) && AgreesOn(s, t, u, s.users.Keys, false)
  {
    hide PlansLinked, Climbs, With;
    PlanOfUser(s, u);
    OwnersKnown(s, s.users[u].plan);
  }

  lemma OldUserCounts(s: Accounts, plan: string, name: string, u: string, p: string)
    requires PlansLinked(s) && Climbs(s) && plan in s.plans && name !in s.users && name != SUPER_USER
    requires Climbs(WithUser(s, plan, name)) && u in s.users
    ensures u in WithUser(s, plan, name).users
      && (Under(WithUser(s, plan, name), u, p, false) <==> Under(s, u, p, false))
  {
    var t := WithUser(s, plan, name);
    NewUserAgrees(s, plan, name);
    hide PlansLinked, Climbs, Agrees;
    if Under(t, u, p, false) {
      UnderAgrees(t, s, s.users.Keys, u, p, false);
    }
    if Under(s, u, p, false) {
      UnderAgrees(s, t, s.users.Keys, u, p, false);
    }
  }

  lemma NewUserCounts(s: Accounts, plan: string, name: string, p: string)
    requires PlansLinked(s) && Climbs(s) && plan in s.plans && name !in s.users && name != SUPER_USER
    requires Climbs(WithUser(s, plan, name))
    ensures Under(WithUser(s, plan, name), name, p, false) <==> CountsFor(s, plan, p)
  {
    var t := WithUser(s, plan, name);
    OwnersKnown(s, plan);
    var o := s.plans[plan].owner;
    if o in s.users {
      OldUserCounts(s, plan, name, o, p);
    }
    hide PlansLinked, Climbs;
    assert t.users[name].plan == plan && t.plans[plan].owner == o && t.plans[plan].suspended == s.plans[plan].suspended;
    assert o in t.users <==> o in s.users;
  }

  lemma UserSets(s: Accounts, plan: string, name: string, p: string)
    requires Forest(s) && plan in s.plans && name !in s.users && name != SUPER_USER && Climbs(WithUser(s, plan, name))
    ensures var t := WithUser(s, plan, name);
      && CountedUsers(t, p, false) == CountedUsers(s, p, false) + (if CountsFor(s, plan, p) then {name} else {})
      && CountedDomains(t, p) == CountedDomains(s, p) && name !in CountedUsers(s, p, false)
  {
    hide UsersLinked, PlansLinked, DomainsLinked, Climbs, CountsFor, Under, WithUser;
    var t := WithUser(s, plan, name);
    OneUserMore(s, plan, name);
    DomainsHaveOwners(s);
    NewUserCounts(s, plan, name, p);
    forall u | u in s.users ensures u in t.users && (Under(t, u, p, false) <==> Under(s, u, p, false)) {
      OldUserCounts(s, plan, name, u, p);
    }
  }

  lemma OneUserMore(s: Accounts, plan: string, name: string)
    requires plan in s.plans
    ensures var t := WithUser(s, plan, name); t.users.Keys == s.users.Keys + {name} && t.domains == s.domains
  {
  }

  lemma DomainsHaveOwners(s: Accounts)
    requires DomainsLinked(s)
    ensures forall d :: d in s.domains ==> s.domains[d].Domain? && s.domains[d].owner in s.users
  {
  }

  lemma DepthsKnown(s: Accounts)
    requires Climbs(s)
    ensures forall p :: p in s.plans ==> p in s.depth
  {
  }

  lemma UserKeepsQuota(s: Accounts, plan: string, name: string, p: string)
    requires Forest(s) && plan in s.plans && name !in s.users && name != SUPER_USER && Forest(WithUser(s, plan, name))
    requires p in s.plans && WithinQuota(s, p)
    ensures p in WithUser(s, plan, name).plans
    ensures WithinQuota(WithUser(s, plan, name), p) <==>
      (CountsFor(s, plan, p) ==> UserTotal(s, p) < s.plans[p].opts.maxUserCount)
  {
    hide UsersLinked, PlansLinked, DomainsLinked, Climbs, CountsFor, CountedUsers, CountedDomains, UserTotal, Under;
    var t := WithUser(s, plan, name);
    TotalsAreCounts(s, p);
    UserSets(s, plan, name, p);
    OneMore(CountedUsers(s, p, false), CountedUsers(t, p, false), name, CountsFor(s, plan, p),
      s.plans[p].opts.maxUserCount);
  }

  /** The tables differ at most in domains, in who is suspended and in new plans without users. */
  ghost predicate SameUsers(s: Accounts, t: Accounts) {
    && t.users.Keys == s.users.Keys && (forall u :: u in s.users ==> t.users[u].plan == s.users[u].plan)
    && forall p :: p in s.plans ==> p in t.plans && SamePlan(s.plans[p], t.plans[p])
  }

  predicate SamePlan(a: Plan, b: Plan) {
    a.owner == b.owner && a.suspended == b.suspended && a.opts == b.opts
  }

  lemma SameUsersAgree(s: Accounts, t: Accounts, all: bool)
    requires Climbs(s) && SameUsers(s, t)
    ensures Agrees(t, s, s.users.Keys, all) && Agrees(s, t, s.users.Keys, all)
  {
  }

  lemma SameUnder(s: Accounts, t: Accounts, u: string, p: string, all: bool)
    requires Climbs(s) && Climbs(t) && SameUsers(s, t) && u in s.users
    ensures u in t.users && (Under(s, u, p, all) <==> Under(t, u, p, all))
  {
    SameUsersAgree(s, t, all);
    hide Climbs, SameUsers, Agrees;
    if Under(s, u, p, all) {
      UnderAgrees(s, t, s.users.Keys, u, p, all);
    }
    if u in t.users && Under(t, u, p, all) {
      UnderAgrees(t, s, s.users.Keys, u, p, all);
    }
  }

  lemma SameUnderAll(s: Accounts, t: Accounts, p: string)
    requires Climbs(s) && Climbs(t) && SameUsers(s, t)
    ensures t.users.Keys == s.users.Keys
    ensures forall u :: u in s.users ==> u in t.users && (Under(s, u, p, false) <==> Under(t, u, p, false))
  {
    forall u | u in s.users ensures u in t.users && (Under(s, u, p, false) <==> Under(t, u, p, false)) {
      SameUnder(s, t, u, p, false);
    }
  }

  lemma SameCountedUsers(s: Accounts, t: Accounts, p: string)
    requires Climbs(s) && Climbs(t) && SameUsers(s, t)
    ensures CountedUsers(t, p, false) == CountedUsers(s, p, false)
  {
    hide Climbs, Under, SameUsers;
    SameUnderAll(s, t, p);
  }

  lemma PlanKeepsQuotas(s: Accounts, owner: Option<string>, name: string, opts: PlanOpts)
    requires Forest(s) && Quotas(s) && name !in s.plans && (owner.Some? ==> owner.value in s.users)
    ensures var t := WithPlan(s, owner, name, opts); Climbs(t) && Quotas(t)
  {
    hide WithPlan, SameUsers, UsersLinked, PlansLinked, DomainsLinked, Climbs, WithinQuota;
    var t := WithPlan(s, owner, name, opts);
    PlanKeepsForest(s, owner, name, opts);
    PlanShape(s, owner, name, opts);
    forall p | p in t.plans ensures WithinQuota(t, p) {
      SameOpts(s, t, p);
      SameQuota(s, t, p);
    }
  }

  lemma PlanShape(s: Accounts, owner: Option<string>, name: string, opts: PlanOpts)
    requires name !in s.plans && (owner.Some? ==> owner.value in s.users)
    ensures var t := WithPlan(s, owner, name, opts);
      SameUsers(s, t) && t.domains == s.domains && t.plans.Keys == s.plans.Keys + {name}
  {
  }

  lemma DomainShape(s: Accounts, owner: string, name: string)
    requires owner in s.users
    ensures var t := WithDomain(s, owner, name);
      SameUsers(s, t) && t.plans == s.plans && t.domains == s.domains[name := Domain(owner)]
  {
  }

  lemma LosingShape(s: Accounts, name: string)
    requires name in s.domains && s.domains[name].Domain? && s.domains[name].owner in s.users
    ensures var t := WithoutDomain(s, name);
      SameUsers(s, t) && t.plans == s.plans && t.domains == s.domains - {name} && t.users.Keys == s.users.Keys
      && forall u :: u in s.users ==> t.users[u].plan == s.users[u].plan
  {
  }

  lemma SameQuota(s: Accounts, t: Accounts, p: string)
    requires Climbs(s) && Climbs(t) && SameUsers(s, t) && t.domains == s.domains && p in t.plans
    requires p in s.plans ==> WithinQuota(s, p)
    requires p in s.plans ==> t.plans[p].opts == s.plans[p].opts
    ensures WithinQuota(t, p)
  {
    hide SameUsers, Climbs, CountedUsers, CountedDomains;
    SameCountedUsers(s, t, p);
    SameCountedDomains(s, t, p);
    if p !in s.plans {
      NobodyBelow(s, p);
    }
  }

  lemma SameOpts(s: Accounts, t: Accounts, p: string)
    requires SameUsers(s, t)
    ensures p in s.plans ==> p in t.plans && t.plans[p].opts == s.plans[p].opts
  {
  }

  lemma SameCountedDomains(s: Accounts, t: Accounts, p: string)
    requires Climbs(s) && Climbs(t) && SameUsers(s, t) && t.domains == s.domains
    ensures CountedDomains(t, p) == CountedDomains(s, p)
  {
    hide Climbs, Under, SameUsers;
    SameUnderAll(s, t, p);
  }

  lemma NobodyBelow(s: Accounts, p: string)
    requires Climbs(s) && p !in s.plans
    ensures CountedUsers(s, p, false) == {} && CountedDomains(s, p) == {}
  {
    forall u | u in s.users ensures !Under(s, u, p, false) {
      if Under(s, u, p, false) {
        UnderIsDeeper(s, u, p, false);
      }
    }
  }

  /** A new domain keeps every plan within its quota exactly when there is room for it. */
  lemma DomainKeepsQuotas(s: Accounts, owner: string, name: string)
    requires Forest(s) && Quotas(s) && owner in s.users && name !in s.domains
    ensures var t := WithDomain(s, owner, name);
      Climbs(t) && (Quotas(t) <==> RoomForDomain(s, s.users[owner].plan, name))
  {
    hide WithDomain, SameUsers, UsersLinked, PlansLinked, DomainsLinked, Climbs, WithinQuota;
    DomainKeepsForest(s, owner, name);
    DomainShape(s, owner, name);
    DomainQuotas(s, WithDomain(s, owner, name), owner, name);
  }

  /** The same for any tables in which the domain is the owner's. */
  lemma DomainQuotas(s: Accounts, t: Accounts, owner: string, name: string)
    requires Forest(s) && Quotas(s) && Climbs(t) && owner in s.users
    requires SameUsers(s, t) && t.plans == s.plans && t.domains == s.domains[name := Domain(owner)]
    ensures Quotas(t) <==> RoomForDomain(s, s.users[owner].plan, name)
  {
    hide SameUsers, UsersLinked, PlansLinked, DomainsLinked, Climbs, WithinQuota, CountsFor, CountedDomains,
      DomainTotal;
    DepthsKnown(s);
    forall p | p in s.plans ensures WithinQuota(t, p) <==>
      (CountsFor(s, s.users[owner].plan, p) && name !in CountedDomains(s, p) ==>
        DomainTotal(s, p) < s.plans[p].opts.maxDomainCount)
    {
      DomainKeepsQuota(s, t, owner, name, p);
    }
  }

  lemma DomainKeepsQuota(s: Accounts, t: Accounts, owner: string, name: string, p: string)
    requires Forest(s) && Climbs(t) && SameUsers(s, t) && owner in s.users
      && t.domains == s.domains[name := Domain(owner)]
    requires p in s.plans && p in t.plans && t.plans[p] == s.plans[p] && WithinQuota(s, p)
    ensures WithinQuota(t, p) <==>
      (CountsFor(s, s.users[owner].plan, p) && name !in CountedDomains(s, p) ==>
        DomainTotal(s, p) < s.plans[p].opts.maxDomainCount)
  {
    hide UsersLinked, PlansLinked, DomainsLinked, Climbs, CountedUsers, CountedDomains, CountsFor;
    SameCountedUsers(s, t, p);
    TotalsAreCounts(s, p);
    OneMoreDomain(s, t, owner, name, p);
    OneMore(CountedDomains(s, p), CountedDomains(t, p), name, CountsFor(s, s.users[owner].plan, p),
      s.plans[p].opts.maxDomainCount);
  }

  lemma OneMoreDomain(s: Accounts, t: Accounts, owner: string, name: string, p: string)
    requires Climbs(s) && Climbs(t) && SameUsers(s, t) && owner in s.users
      && t.domains == s.domains[name := Domain(owner)]
    ensures if CountsFor(s, s.users[owner].plan, p) then CountedDomains(t, p) == CountedDomains(s, p) + {name}
      else CountedDomains(t, p) <= CountedDomains(s, p)
  {
    OwnPlanCounts(s, owner, p);
    hide Climbs, Under, SameUsers, CountsFor;
    SameUnderAll(s, t, p);
  }

  lemma OwnPlanCounts(s: Accounts, u: string, p: string)
    requires Climbs(s) && u in s.users
    ensures Under(s, u, p, false) <==> CountsFor(s, s.users[u].plan, p)
  {
  }

  lemma LosingDomainKeepsQuotas(s: Accounts, name: string)
    requires Forest(s) && Quotas(s) && name in s.domains
    ensures var t := WithoutDomain(s, name); Climbs(t) && Quotas(t)
    ensures forall p :: CountedDomains(WithoutDomain(s, name), p) <= CountedDomains(s, p)
  {
    LosingIsLinked(s, name);
    hide WithoutDomain, SameUsers, UsersLinked, PlansLinked, DomainsLinked, Climbs, Quotas, Agrees, CountedDomains;
    var t := WithoutDomain(s, name);
    LosingDomainKeepsForest(s, name);
    LosingShape(s, name);
    SameUsersAgree(s, t, false);
    LessKeepsQuotas(s, t);
    forall p ensures CountedDomains(t, p) <= CountedDomains(s, p) {
      NothingNew(s, t, p);
    }
  }

  lemma LosingIsLinked(s: Accounts, name: string)
    requires DomainsLinked(s) && name in s.domains
    ensures s.domains[name].Domain? && s.domains[name].owner in s.users
  {
  }

  /** Giving a domain away keeps every plan within its quota exactly when there is room for
      it wherever it did not count before. */
  lemma MovingDomainKeepsQuotas(s: Accounts, name: string, owner: string)
    requires Forest(s) && Quotas(s) && name in s.domains && owner in s.users
    ensures s.domains[name].Domain? && s.domains[name].owner in s.users
    ensures var t := MovedDomain(s, name, owner);
      Climbs(t) && (Quotas(t) <==> RoomForDomain(s, s.users[owner].plan, name))
  {
    hide SameUsers, UsersLinked, PlansLinked, DomainsLinked, Climbs, Quotas, RoomForDomain, MovedDomain;
    LosingIsLinked(s, name);
    MovingDomainKeepsForest(s, name, owner);
    MovedShape(s, name, owner);
    DomainQuotas(s, MovedDomain(s, name, owner), owner, name);
  }

  lemma MovedShape(s: Accounts, name: string, owner: string)
    requires name in s.domains && s.domains[name].Domain? && s.domains[name].owner in s.users && owner in s.users
    ensures var t := MovedDomain(s, name, owner);
      SameUsers(s, t) && t.plans == s.plans && t.domains == s.domains[name := Domain(owner)]
  {
    hide SameUsers, WithoutDomain, WithDomain;
    LosingShape(s, name);
    DomainShape(WithoutDomain(s, name), owner, name);
    SameUsersTwice(s, WithoutDomain(s, name), MovedDomain(s, name, owner));
    assert (s.domains - {name})[name := Domain(owner)] == s.domains[name := Domain(owner)];
  }

  lemma SameUsersTwice(s: Accounts, r: Accounts, t: Accounts)
    requires SameUsers(s, r) && SameUsers(r, t)
    ensures SameUsers(s, t)
  {
  }

  lemma PlanOfUser(s: Accounts, u: string)
    requires Climbs(s) && u in s.users
    ensures s.users[u].plan in s.plans
  {
  }

  lemma SuspendKeepsQuotas(s: Accounts, plan: string, reason: string)
    requires Forest(s) && Quotas(s) && plan in s.plans
    ensures var t := Suspended(s, plan, reason); Climbs(t) && Quotas(t)
  {
    hide Suspended, UsersLinked, PlansLinked, DomainsLinked, Climbs, Quotas, Agrees;
    SuspendKeepsForest(s, plan, reason);
    SuspendAgrees(s, plan, reason);
    LessKeepsQuotas(s, Suspended(s, plan, reason));
  }

  lemma SuspendAgrees(s: Accounts, plan: string, reason: string)
    requires Climbs(s) && plan in s.plans
    ensures var t := Suspended(s, plan, reason);
      Agrees(t, s, t.users.Keys, false) && t.domains == s.domains
      && forall p :: p in t.plans ==> p in s.plans && t.plans[p].opts == s.plans[p].opts
  {
  }

  // ----- suspending and un-suspending one plan

  /** Plan q is above plan p, not p itself. */
  ghost predicate StrictlyAbove(s: Accounts, p: string, q: string)
    requires Climbs(s)
  {
    q != p && AtOrAbove(s, p, q)
  }

  /** Who owns which plan, and which plan is suspended, is the same but for one plan, which is
      suspended in t. */
  ghost predicate OnlySuspends(s: Accounts, t: Accounts, plan: string) {
    && t.users == s.users && t.domains == s.domains && t.plans.Keys == s.plans.Keys && plan in s.plans
    && (forall p :: p in s.plans ==> t.plans[p].owner == s.plans[p].owner)
    && (forall p :: p in s.plans && p != plan ==> t.plans[p].suspended == s.plans[p].suspended)
    && t.plans[plan].suspended != []
  }

  lemma {:induction false} UnderSuspended(s: Accounts, t: Accounts, plan: string, u: string, q: string)
    requires Climbs(s) && Climbs(t) && OnlySuspends(s, t, plan) && u in s.users
    ensures Under(t, u, q, true) <==> Under(s, u, q, true)
    ensures Under(t, u, q, false) <==>
      Under(s, u, q, false) && !(StrictlyAbove(s, plan, q) && Under(s, u, plan, false))
    decreases s.depth[s.users[u].plan]
  {
    var p := s.users[u].plan;
    var o := s.plans[p].owner;
    if p == q {
      if StrictlyAbove(s, plan, q) && Under(s, u, plan, false) {
        UnderIsDeeper(s, u, plan, false);
        UnderIsDeeper(s, s.plans[plan].owner, q, true);
        assert false;
      }
    } else if o in s.users {
      UnderSuspended(s, t, plan, o, q);
      if p == plan && Under(s, o, q, false) {
        CountedIsBelow(s, o, q);
      }
    }
  }

  /** What is below a plan does not count for the plans above it when it is suspended, and
      for no other plan anything changes. */
  lemma ClosedCounts(s: Accounts, t: Accounts, plan: string, q: string)
    requires Climbs(s) && Climbs(t) && OnlySuspends(s, t, plan)
    ensures var above := StrictlyAbove(s, plan, q);
      && CountedUsers(t, q, true) == CountedUsers(s, q, true)
      && CountedUsers(t, q, false) ==
         CountedUsers(s, q, false) - (if above then CountedUsers(s, plan, false) else {})
      && CountedDomains(t, q) == CountedDomains(s, q) - (if above then CountedDomains(s, plan) else {})
  {
    hide Under, AtOrAbove, Climbs;
    forall u | u in s.users
      ensures Under(t, u, q, true) <==> Under(s, u, q, true)
      ensures Under(t, u, q, false) <==>
        Under(s, u, q, false) && !(StrictlyAbove(s, plan, q) && Under(s, u, plan, false))
    {
      UnderSuspended(s, t, plan, u, q);
    }
  }

  /** What counts for a plan counts for the plans above it for which it counts itself, and
      for no other plan above it. */
  lemma CountedThrough(s: Accounts, plan: string, q: string)
    requires Climbs(s) && plan in s.plans && q in s.plans && q != plan
    ensures CountsFor(s, plan, q) ==> StrictlyAbove(s, plan, q)
    ensures CountsFor(s, plan, q) ==>
      CountedUsers(s, plan, false) <= CountedUsers(s, q, false) && CountedDomains(s, plan) <= CountedDomains(s, q)
    ensures StrictlyAbove(s, plan, q) && !CountsFor(s, plan, q) ==>
      CountedUsers(s, plan, false) !! CountedUsers(s, q, false) && CountedDomains(s, plan) !! CountedDomains(s, q)
  {
    hide Under, AtOrAbove, CountsFor, Climbs;
    if CountsFor(s, plan, q) {
      CountsForAbove(s, plan, q);
    }
    if StrictlyAbove(s, plan, q) {
      forall u | u in s.users && Under(s, u, plan, false) ensures Under(s, u, q, false) <==> CountsFor(s, plan, q) {
        UnderThrough(s, plan, u, q);
      }
    }
  }

  lemma {:induction false} UnderThrough(s: Accounts, plan: string, u: string, q: string)
    requires Climbs(s) && StrictlyAbove(s, plan, q) && u in s.users && Under(s, u, plan, false)
    ensures Under(s, u, q, false) <==> CountsFor(s, plan, q)
    decreases s.depth[s.users[u].plan]
  {
    if s.users[u].plan == q {
      UnderIsDeeper(s, u, plan, false);
      UnderIsDeeper(s, s.plans[plan].owner, q, true);
      assert false;
    } else if s.users[u].plan != plan {
      UnderThrough(s, plan, s.plans[s.users[u].plan].owner, q);
    }
  }

  /** What is in a plan counts for q once the plan is not suspended: it does for q what its
      owner does. */
  ghost predicate Through(s: Accounts, plan: string, q: string)
    requires Climbs(s) && plan in s.plans
  {
    q in s.plans && s.plans[plan].owner in s.users && Under(s, s.plans[plan].owner, q, false)
  }

  /** There is room for all that is below a suspended plan wherever it would count. */
  ghost predicate RoomToResume(s: Accounts, plan: string)
    requires Climbs(s) && plan in s.plans
  {
    forall q :: Through(s, plan, q) ==>
      && UserTotal(s, q) + UserTotal(s, plan) <= Cap(s.plans[q].opts.maxUserCount)
      && DomainTotal(s, q) + DomainTotal(s, plan) <= Cap(s.plans[q].opts.maxDomainCount)
  }

  lemma ThroughIsCounted(s: Accounts, t: Accounts, plan: string, q: string)
    requires Climbs(s) && Climbs(t) && OnlySuspends(t, s, plan) && t.plans[plan].suspended == []
    ensures Through(s, plan, q) <==> q in t.plans && q != plan && CountsFor(t, plan, q)
  {
    var o := s.plans[plan].owner;
    if o in s.users {
      UnderSuspended(t, s, plan, o, q);
      if Under(t, o, plan, false) {
        UnderIsDeeper(t, o, plan, false);
        assert false;
      }
    }
  }

  lemma SumOfSizes<T>(whole: set<T>, part: set<T>)
    requires part <= whole
    ensures |whole| == |whole - part| + |part|
  {
    assert whole == (whole - part) + part;
  }

  /** Taking the reason back un-suspends the plan: it is the only one, or all are taken back. */
  predicate LastReason(s: Accounts, plan: string, reason: string)
    requires plan in s.plans
  {
    s.plans[plan].suspended != [] && (reason == "" || s.plans[plan].suspended == [reason])
  }

  lemma LastReasonIs(s: Accounts, plan: string, reason: string)
    requires plan in s.plans
    ensures LastReason(s, plan, reason) <==>
      s.plans[plan].suspended != [] && Resumed(s, plan, reason).plans[plan].suspended == []
  {
    var reasons := s.plans[plan].suspended;
    if |reasons| > 0 && reasons[0] == reason {
      assert reasons == [reason] + reasons[1..];
    }
  }

  /** Un-suspending a plan keeps the quotas exactly when there is room for what is below it,
      unless it stays suspended or was not suspended. */
  lemma ResumeKeepsQuotas(s: Accounts, plan: string, reason: string)
    requires Forest(s) && Quotas(s) && plan in s.plans
    ensures var t := Resumed(s, plan, reason);
      && Climbs(t)
      && (Quotas(t) <==> (LastReason(s, plan, reason) ==> RoomToResume(s, plan)))
  {
    LastReasonIs(s, plan, reason);
    var t := Resumed(s, plan, reason);
    ResumeKeepsForest(s, plan, reason);
    ResumedShape(s, plan, reason);
    hide Resumed, UsersLinked, PlansLinked, DomainsLinked, Climbs, Quotas, Agrees, RoomToResume, LastReason;
    if s.plans[plan].suspended != [] && t.plans[plan].suspended == [] {
      OpenedQuotas(s, t, plan);
    } else {
      LessKeepsQuotas(s, t);
    }
  }

  lemma ResumedShape(s: Accounts, plan: string, reason: string)
    requires Climbs(s) && plan in s.plans
    ensures var t := Resumed(s, plan, reason);
      && t.plans.Keys == s.plans.Keys && t.domains == s.domains
      && (forall p :: p in t.plans ==> p in s.plans && t.plans[p].opts == s.plans[p].opts)
      && (if s.plans[plan].suspended != [] && t.plans[plan].suspended == [] then OnlySuspends(t, s, plan)
          else Agrees(t, s, t.users.Keys, false))
  {
  }

  lemma OpenedQuotas(s: Accounts, t: Accounts, plan: string)
    requires Forest(s) && Climbs(t) && Quotas(s) && OnlySuspends(t, s, plan) && t.plans[plan].suspended == []
    requires forall p :: p in t.plans ==> t.plans[p].opts == s.plans[p].opts
    ensures Quotas(t) <==> RoomToResume(s, plan)
  {
    hide UsersLinked, PlansLinked, DomainsLinked, Climbs, Through, WithinQuota, UserTotal, DomainTotal;
    DepthsKnown(s);
    forall q | q in s.plans
      ensures WithinQuota(t, q) <==> (Through(s, plan, q) ==>
        && UserTotal(s, q) + UserTotal(s, plan) <= Cap(s.plans[q].opts.maxUserCount)
        && DomainTotal(s, q) + DomainTotal(s, plan) <= Cap(s.plans[q].opts.maxDomainCount))
    {
      OpenedQuota(s, t, plan, q);
    }
    assert forall q :: Through(s, plan, q) ==> q in s.plans by {
      ThroughIsPlan(s, plan);
    }
  }

  lemma ThroughIsPlan(s: Accounts, plan: string)
    requires Climbs(s) && plan in s.plans
    ensures forall q :: Through(s, plan, q) ==> q in s.plans
  {
  }

  lemma OpenedQuota(s: Accounts, t: Accounts, plan: string, q: string)
    requires Forest(s) && Climbs(t) && OnlySuspends(t, s, plan) && t.plans[plan].suspended == []
    requires q in s.plans && WithinQuota(s, q) && t.plans[q].opts == s.plans[q].opts
    ensures q in s.depth && plan in s.depth
    ensures WithinQuota(t, q) <==> (Through(s, plan, q) ==>
      && UserTotal(s, q) + UserTotal(s, plan) <= Cap(s.plans[q].opts.maxUserCount)
      && DomainTotal(s, q) + DomainTotal(s, plan) <= Cap(s.plans[q].opts.maxDomainCount))
  {
    hide UsersLinked, PlansLinked, DomainsLinked, Climbs, Through, UserTotal, DomainTotal, CountedUsers, CountedDomains,
      AtOrAbove, CountsFor, StrictlyAbove;
    DepthsKnown(s);
    TotalsAreCounts(s, q);
    TotalsAreCounts(s, plan);
    ClosedCounts(t, s, plan, q);
    ClosedCounts(t, s, plan, plan);
    NotAboveItself(t, plan);
    ThroughIsCounted(s, t, plan, q);
    if q != plan {
      CountedThrough(t, plan, q);
    }
    if Through(s, plan, q) {
      SumOfSizes(CountedUsers(t, q, false), CountedUsers(t, plan, false));
      SumOfSizes(CountedDomains(t, q), CountedDomains(t, plan));
    }
  }

  lemma NotAboveItself(s: Accounts, plan: string)
    requires Climbs(s)
    ensures !StrictlyAbove(s, plan, plan)
  {
  }
}
