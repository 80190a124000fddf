/** What an operation that is carried out does to the accounts: what is there afterwards, who
    is below which plan, and what counts for which plan. */
module AccountEffects {
  import opened Wrappers
  import opened Accounts
  import opened AccountSteps
  import opened AccountQuotas
  import opened AccountLimits
  import opened AccountRuns

  // ----- when an operation is carried out

  /** A plan is added when it is new, may have something, and its owner's plan may have plans
      below it and offers all that is asked for. */
  lemma PlanIsAccepted(s: Accounts, owner: Option<string>, name: string, opts: PlanOpts)
    requires Climbs(s)
    ensures Accepted(s, AddPlan(owner, name, opts)) <==>
      && name !in s.plans && opts.maxDomainCount != 0 && opts.maxUserCount != 0
      && (owner == None || (owner.value in s.users && Offers(s.plans[s.users[owner.value].plan].opts, opts)))
  {
  }

  ghost predicate Offers(parent: PlanOpts, opts: PlanOpts) {
    && parent.canCreatePlan && (parent.canCreateUser || !opts.canCreateUser)
    && parent.maxUserCount >= opts.maxUserCount && parent.maxDomainCount >= opts.maxDomainCount
    && forall field :: field in opts.planMaximums && field in parent.planMaximums ==>
         var most, asked := parent.planMaximums[field], opts.planMaximums[field];
         asked <= most || asked == UNBOUNDED || most == UNBOUNDED || most == 0
  }

  /** The plan and every plan above it have fewer users, or domains, than they may. */
  ghost predicate RoomAbove(s: Accounts, plan: string, kind: Kind)
    requires Climbs(s)
  {
    forall p :: p in s.plans && AtOrAbove(s, plan, p) ==>
      if kind == AUser then |CountedUsers(s, p, false)| < s.plans[p].opts.maxUserCount
      else |CountedDomains(s, p)| < s.plans[p].opts.maxDomainCount
  }

  /** Without empty names, the check for room finds it exactly when there is room all the
      way up. */
  lemma RoomIsFound(s: Accounts, plan: string, kind: Kind)
    requires Forest(s) && Named(s) && plan in s.plans
    ensures ChainHasRoom(s, plan, kind) <==> RoomAbove(s, plan, kind)
  {
    ChainRoomIs(s, plan, kind);
    LooksAtAll(s, plan);
    hide Climbs, UsersLinked, PlansLinked, DomainsLinked, LooksAt, AtOrAbove, CountedUsers, CountedDomains, UserTotal,
      DomainTotal, ChainHasRoom;
    DepthsKnown(s);
    forall p | p in s.plans ensures LooksAt(s, plan, p) <==> AtOrAbove(s, plan, p) {
      LooksAbove(s, plan, p);
    }
    forall p | p in s.plans
      ensures UserTotal(s, p) == |CountedUsers(s, p, false)| && DomainTotal(s, p) == |CountedDomains(s, p)|
    {
      TotalsAreCounts(s, p);
    }
  }

  lemma LooksAbove(s: Accounts, plan: string, p: string)
    requires Climbs(s)
    ensures LooksAt(s, plan, p) ==> AtOrAbove(s, plan, p)
  {
    if plan in s.plans && Sees(s, s.plans[plan].owner, p) {
      SeenIsAbove(s, s.plans[plan].owner, p);
    }
  }

  /** A user is added when it is new, and its plan exists, is not suspended, may have users
      and has room all the way up. */
  lemma UserIsAccepted(s: Accounts, plan: string, name: string)
    requires Forest(s) && Named(s)
    ensures Accepted(s, AddUser(plan, name)) <==>
      && name !in s.users && plan in s.plans && s.plans[plan].suspended == [] && s.plans[plan].opts.canCreateUser
      && RoomAbove(s, plan, AUser)
  {
    if plan in s.plans {
      RoomIsFound(s, plan, AUser);
    }
    hide Climbs, UsersLinked, PlansLinked, DomainsLinked, RoomAbove, ChainHasRoom;
  }

  lemma GiftIsAccepted(s: Accounts, u: string, name: string)
    requires Climbs(s) && forall d :: d in s.domains ==> s.domains[d].Domain?
    ensures Accepted(s, GiveDomain(name, u)) <==>
      && name in s.domains && s.domains[name] != Domain(u) && u in s.users
      && MayHave(s, s.users[u].plan, ADomain)
  {
    hide MayHave, Climbs;
    PlansOfUsers(s);
  }

  /** A domain is added when it is new, and the plan of its owner is not suspended and has
      room all the way up; and it is given to somebody else under the same conditions. */
  lemma DomainIsAccepted(s: Accounts, u: string, name: string)
    requires Forest(s) && Named(s)
    ensures var fits := u in s.users && s.users[u].plan in s.plans && s.plans[s.users[u].plan].suspended == []
        && RoomAbove(s, s.users[u].plan, ADomain);
      && (Accepted(s, AddDomain(u, name)) <==> name !in s.domains && fits)
      && (Accepted(s, GiveDomain(name, u)) <==> name in s.domains && s.domains[name] != Domain(u) && fits)
  {
    hide Climbs, UsersLinked, PlansLinked, DomainsLinked, RoomAbove, ChainHasRoom;
    AllDomainsOwned(s);
    PlansOfUsers(s);
    if u in s.users {
      RoomIsFound(s, s.users[u].plan, ADomain);
    }
    GiftIsAccepted(s, u, name);
  }

  // ----- suspending

  /** The plan is suspended for one more reason, and nothing else changes. */
  ghost predicate OneMoreReason(s: Accounts, t: Accounts, plan: string, reason: string)
    requires plan in s.plans
  {
    && t.plans.Keys == s.plans.Keys && t.users == s.users && t.domains == s.domains && t.roots == s.roots
    && (forall p :: p in s.plans && p != plan ==> t.plans[p] == s.plans[p])
    && t.plans[plan].(suspended := []) == s.plans[plan].(suspended := [])
    && s.plans[plan].suspended <= t.plans[plan].suspended
    && forall r :: r in t.plans[plan].suspended <==> r in s.plans[plan].suspended || r == reason
  }

  /** A suspended plan is closed: no user can be added to it, and no domain be added for, or
      given to, a user of it. */
  lemma SuspendedIsClosed(s: Accounts, plan: string, reason: string, name: string, u: string)
    requires Forest(s) && plan in s.plans
    ensures var t := After(s, SuspendPlan(plan, reason));
      && Climbs(t) && OneMoreReason(s, t, plan, reason)
      && !Accepted(t, AddUser(plan, name))
      && (u in t.users && t.users[u].plan == plan ==>
            !Accepted(t, AddDomain(u, name)) && !Accepted(t, GiveDomain(name, u)))
  {
    hide UsersLinked, PlansLinked, DomainsLinked, Climbs;
    SuspendKeepsForest(s, plan, reason);
    assert reason in Suspended(s, plan, reason).plans[plan].suspended;
  }

  /** What is below a suspended plan no longer counts for the plans above it, and for no
      other plan anything changes. */
  lemma SuspendedCounts(s: Accounts, plan: string, reason: string, q: string)
    requires Forest(s) && plan in s.plans
    ensures var t := After(s, SuspendPlan(plan, reason));
      var above := StrictlyAbove(s, plan, q);
      && Climbs(t) && CountedUsers(t, q, true) == CountedUsers(s, q, true)
      && CountedUsers(t, q, false) ==
         CountedUsers(s, q, false) - (if above then CountedUsers(s, plan, false) else {})
      && CountedDomains(t, q) == CountedDomains(s, q) - (if above then CountedDomains(s, plan) else {})
  {
    hide Suspended, StrictlyAbove, UsersLinked, PlansLinked, DomainsLinked, Climbs, CountedUsers, CountedDomains;
    SuspendKeepsForest(s, plan, reason);
    SuspendedShape(s, plan, reason);
    ClosedCounts(s, Suspended(s, plan, reason), plan, q);
  }

  lemma SuspendedShape(s: Accounts, plan: string, reason: string)
    requires plan in s.plans
    ensures OnlySuspends(s, Suspended(s, plan, reason), plan)
  {
    assert reason in Suspended(s, plan, reason).plans[plan].suspended;
  }

  /** The totals the program computes: a plan for which the suspended one counted loses what
      that one has. */
  lemma SuspendedTotals(s: Accounts, plan: string, reason: string, q: string)
    requires Forest(s) && plan in s.plans && q in s.plans && q != plan
    ensures var t := After(s, SuspendPlan(plan, reason));
      var counted := CountsFor(s, plan, q);
      && Forest(t) && q in t.plans && q in t.depth && q in s.depth && plan in s.depth
      && UserTotal(t, q) == UserTotal(s, q) - (if counted then UserTotal(s, plan) else 0)
      && DomainTotal(t, q) == DomainTotal(s, q) - (if counted then DomainTotal(s, plan) else 0)
  {
    hide Under, Suspended, AtOrAbove, CountsFor, UserTotal, DomainTotal, UsersLinked, PlansLinked, DomainsLinked,
      Climbs, CountedUsers, CountedDomains;
    var t := Suspended(s, plan, reason);
    SuspendKeepsForest(s, plan, reason);
    SuspendedShape(s, plan, reason);
    DepthsKnown(s);
    DepthsKnown(t);
    SuspendedCounts(s, plan, reason, q);
    TotalsAreCounts(s, q);
    TotalsAreCounts(s, plan);
    TotalsAreCounts(t, q);
    CountedThrough(s, plan, q);
  }

  /** Only this plan changes, and only in the reasons for which it is suspended. */
  ghost predicate OnlyReasons(s: Accounts, t: Accounts, plan: string)
    requires plan in s.plans
  {
    && t.plans.Keys == s.plans.Keys && t.users == s.users && t.domains == s.domains && t.roots == s.roots
    && (forall p :: p in s.plans && p != plan ==> t.plans[p] == s.plans[p])
    && t.plans[plan].(suspended := []) == s.plans[plan].(suspended := [])
  }

  /** Un-suspending takes back one reason, or without one all of them; taking back a reason
      that was new when the plan was suspended for it leads back to the tables before. */
  lemma ResumedIs(s: Accounts, plan: string, reason: string)
    requires Forest(s) && plan in s.plans
    ensures var t := After(s, UnSuspendPlan(plan, reason));
      && Forest(t) && OnlyReasons(s, t, plan)
      && (t.plans[plan].suspended == [] <==> s.plans[plan].suspended == [] || LastReason(s, plan, reason))
      && multiset(t.plans[plan].suspended) ==
         if reason == "" then multiset{} else multiset(s.plans[plan].suspended) - multiset{reason}
    ensures reason != "" && reason !in s.plans[plan].suspended ==>
      var r := After(s, SuspendPlan(plan, reason));
      Forest(r) && After(r, UnSuspendPlan(plan, reason)) == s
  {
    hide UsersLinked, PlansLinked, DomainsLinked, Climbs, Resumed, Suspended, LastReason, OnlyReasons;
    ResumeKeepsForest(s, plan, reason);
    SuspendKeepsForest(s, plan, reason);
    ReasonsLeft(s, plan, reason);
    if reason != "" && reason !in s.plans[plan].suspended {
      SuspendedAndResumed(s, plan, reason);
    }
  }

  lemma OnlyReasonsChange(s: Accounts, plan: string, reason: string)
    requires plan in s.plans
    ensures OnlyReasons(s, Resumed(s, plan, reason), plan)
  {
    hide WithoutFirst;
  }

  lemma ReasonsLeft(s: Accounts, plan: string, reason: string)
    requires plan in s.plans
    ensures var t := Resumed(s, plan, reason);
      && OnlyReasons(s, t, plan)
      && (t.plans[plan].suspended == [] <==> s.plans[plan].suspended == [] || LastReason(s, plan, reason))
      && multiset(t.plans[plan].suspended) ==
         if reason == "" then multiset{} else multiset(s.plans[plan].suspended) - multiset{reason}
  {
    hide LastReason, WithoutFirst;
    WithoutFirstIs(s.plans[plan].suspended, reason);
    WithoutFirstIs([], reason);
    LastReasonIs(s, plan, reason);
    OnlyReasonsChange(s, plan, reason);
  }

  lemma SuspendedAndResumed(s: Accounts, plan: string, reason: string)
    requires plan in s.plans && reason != "" && reason !in s.plans[plan].suspended
    ensures plan in Suspended(s, plan, reason).plans && Resumed(Suspended(s, plan, reason), plan, reason) == s
  {
    hide WithoutFirst;
    var reasons := s.plans[plan].suspended;
    TakenBack(reasons, reason);
    var r := Suspended(s, plan, reason);
    assert r.plans[plan].suspended == reasons + [reason];
    assert Resumed(r, plan, reason).plans == s.plans;
  }

  lemma {:induction false} WithoutFirstIs(keys: seq<string>, x: string)
    ensures multiset(WithoutFirst(keys, x)) == multiset(keys) - multiset{x}
  {
    if |keys| > 0 {
      assert keys == [keys[0]] + keys[1..];
      WithoutFirstIs(keys[1..], x);
    }
  }

  lemma {:induction false} TakenBack(keys: seq<string>, x: string)
    requires x !in keys
    ensures WithoutFirst(keys + [x], x) == keys
  {
    if |keys| > 0 {
      assert (keys + [x])[1..] == keys[1..] + [x];
      TakenBack(keys[1..], x);
    }
  }

  lemma OpenedCounts(s: Accounts, t: Accounts, plan: string, q: string)
    requires Climbs(s) && Climbs(t) && OnlySuspends(t, s, plan) && t.plans[plan].suspended == [] && q in s.plans
    ensures var counts := Through(s, plan, q);
      && CountedUsers(t, q, false) ==
         CountedUsers(s, q, false) + (if counts then CountedUsers(s, plan, false) else {})
      && CountedDomains(t, q) == CountedDomains(s, q) + (if counts then CountedDomains(s, plan) else {})
  {
    hide StrictlyAbove, Climbs, CountedUsers, CountedDomains, CountsFor, Through;
    ClosedCounts(t, s, plan, q);
    ClosedCounts(t, s, plan, plan);
    NotAboveItself(t, plan);
    ThroughIsCounted(s, t, plan, q);
    if q != plan {
      CountedThrough(t, plan, q);
    }
  }

  /** When the last reason is taken back, what is below the plan counts for all plans its owner
      counts for, and for no other plan anything changes. */
  lemma ResumedCounts(s: Accounts, plan: string, reason: string, q: string)
    requires Forest(s) && plan in s.plans && q in s.plans && LastReason(s, plan, reason)
    ensures var t := After(s, UnSuspendPlan(plan, reason));
      var counts := Through(s, plan, q);
      && Climbs(t)
      && CountedUsers(t, q, false) ==
         CountedUsers(s, q, false) + (if counts then CountedUsers(s, plan, false) else {})
      && CountedDomains(t, q) == CountedDomains(s, q) + (if counts then CountedDomains(s, plan) else {})
  {
    hide Resumed, LastReason, StrictlyAbove, UsersLinked, PlansLinked, DomainsLinked, Climbs, CountedUsers,
      CountedDomains, CountsFor, Through;
    ResumeKeepsForest(s, plan, reason);
    LastReasonIs(s, plan, reason);
    ResumedShape(s, plan, reason);
    OpenedCounts(s, Resumed(s, plan, reason), plan, q);
  }

  // ----- adding a plan or a user

  /** A new plan has what was asked for and nobody in it; above it is what its owner is
      below; and it changes nothing for who is there already. */
  lemma AddedPlanIs(s: Accounts, owner: Option<string>, name: string, opts: PlanOpts, q: string)
    requires Forest(s) && Accepted(s, AddPlan(owner, name, opts))
    ensures var t := After(s, AddPlan(owner, name, opts));
      && Climbs(t) && SameUsers(s, t) && t.domains == s.domains && name !in s.plans
      && t.plans.Keys == s.plans.Keys + {name} && (q in s.plans ==> t.plans[q].users == s.plans[q].users)
      && t.plans[name].opts == opts && t.plans[name].suspended == [] && t.plans[name].users == []
      && (AtOrAbove(t, name, q) <==> q == name || (owner.Some? && Under(s, owner.value, q, true)))
      && CountedUsers(t, q, false) == CountedUsers(s, q, false) && CountedDomains(t, q) == CountedDomains(s, q)
  {
    hide UsersLinked, PlansLinked, DomainsLinked, Climbs, Under, WithPlan, SameUsers, CountedUsers,
      CountedDomains;
    var t := WithPlan(s, owner, name, opts);
    PlanKeepsForest(s, owner, name, opts);
    PlanShape(s, owner, name, opts);
    NewPlanIs(s, owner, name, opts);
    SuperIsNoUser(s);
    SameCountedUsers(s, t, q);
    SameCountedDomains(s, t, q);
    if owner.Some? {
      SameUnder(s, t, owner.value, q, true);
    } else {
      NoSuperIn(s, t);
    }
  }

  lemma NewPlanIs(s: Accounts, owner: Option<string>, name: string, opts: PlanOpts)
    requires name !in s.plans && (owner.Some? ==> owner.value in s.users)
    ensures var t := WithPlan(s, owner, name, opts);
      && name in t.plans && (forall q :: q in s.plans ==> q in t.plans && t.plans[q] == s.plans[q])
      && t.plans[name] == Plan(if owner.Some? then owner.value else SUPER_USER, [], [], opts)
  {
  }

  lemma NoSuperIn(s: Accounts, t: Accounts)
    requires SUPER_USER !in s.users && SameUsers(s, t)
    ensures SUPER_USER !in t.users
  {
  }

  /** A new user is in its plan, counts for the plans the plan counts for, and owns nothing. */
  lemma AddedUserIs(s: Accounts, plan: string, name: string, q: string)
    requires Forest(s) && Accepted(s, AddUser(plan, name)) && name != SUPER_USER
    ensures var t := After(s, AddUser(plan, name));
      && Climbs(t) && name !in s.users && t.users == s.users[name := User(plan, [], [])] && t.domains == s.domains
      && t.plans.Keys == s.plans.Keys && (q in s.plans ==> SamePlan(s.plans[q], t.plans[q]))
      && CountedUsers(t, q, false) == CountedUsers(s, q, false) + (if CountsFor(s, plan, q) then {name} else {})
      && CountedDomains(t, q) == CountedDomains(s, q)
  {
    hide UsersLinked, PlansLinked, DomainsLinked, Climbs, Under, MayHave, CountsFor, CountedUsers, CountedDomains,
      WithUser;
    UserKeepsForest(s, plan, name);
    UserSets(s, plan, name, q);
    UserShape(s, plan, name, q);
  }

  lemma UserShape(s: Accounts, plan: string, name: string, q: string)
    requires plan in s.plans
    ensures var t := WithUser(s, plan, name);
      && t.users == s.users[name := User(plan, [], [])] && t.domains == s.domains && t.plans.Keys == s.plans.Keys
      && (q in s.plans ==> SamePlan(s.plans[q], t.plans[q]))
  {
  }

  // ----- domains

  /** Which domains count for a plan, told from the users and plans before. */
  lemma DomainsCounted(s: Accounts, t: Accounts, q: string)
    requires Climbs(s) && Climbs(t) && SameUsers(s, t)
    ensures CountedUsers(t, q, false) == CountedUsers(s, q, false)
    ensures forall d :: d in CountedDomains(t, q) <==>
      && d in t.domains && t.domains[d].Domain? && t.domains[d].owner in s.users
      && CountsFor(s, s.users[t.domains[d].owner].plan, q)
  {
    hide Climbs, Under, SameUsers, CountsFor;
    SameUnderAll(s, t, q);
    forall u | u in s.users ensures Under(s, u, q, false) <==> CountsFor(s, s.users[u].plan, q) {
      OwnPlanCounts(s, u, q);
    }
  }

  /** A new domain is its owner's, and counts for the plans the owner's plan counts for. */
  lemma AddedDomainIs(s: Accounts, holder: string, name: string, q: string)
    requires Forest(s) && Accepted(s, AddDomain(holder, name))
    ensures holder in s.users
    ensures var t := After(s, AddDomain(holder, name));
      && Climbs(t) && SameUsers(s, t) && t.plans == s.plans
      && name !in s.domains && t.domains == s.domains[name := Domain(holder)]
      && CountedUsers(t, q, false) == CountedUsers(s, q, false)
      && CountedDomains(t, q) ==
         CountedDomains(s, q) + (if CountsFor(s, s.users[holder].plan, q) then {name} else {})
  {
    hide UsersLinked, PlansLinked, DomainsLinked, Climbs, WithDomain, SameUsers, MayHave, CountsFor, CountedUsers,
      CountedDomains;
    AllDomainsOwned(s);
    DomainKeepsForest(s, holder, name);
    DomainShape(s, holder, name);
    SameAsItself(s);
    DomainsCounted(s, s, q);
    DomainsCounted(s, After(s, AddDomain(holder, name)), q);
  }

  lemma SameAsItself(s: Accounts)
    ensures SameUsers(s, s)
  {
  }

  /** A deleted domain counts nowhere any more. */
  lemma DeletedDomainIs(s: Accounts, name: string, q: string)
    requires Forest(s) && Accepted(s, DeleteDomain(name))
    ensures var t := After(s, DeleteDomain(name));
      && Climbs(t) && SameUsers(s, t) && t.plans == s.plans && t.domains == s.domains - {name}
      && CountedUsers(t, q, false) == CountedUsers(s, q, false)
      && CountedDomains(t, q) == CountedDomains(s, q) - {name}
  {
    hide UsersLinked, PlansLinked, DomainsLinked, Climbs, WithoutDomain, SameUsers, CountsFor, CountedUsers,
      CountedDomains;
    AllDomainsOwned(s);
    LosingDomainKeepsForest(s, name);
    LosingShape(s, name);
    SameAsItself(s);
    DomainsCounted(s, s, q);
    DomainsCounted(s, After(s, DeleteDomain(name)), q);
  }

  /** A domain given away counts for the plans the new owner's plan counts for, and for no
      others. */
  lemma GivenDomainIs(s: Accounts, name: string, taker: string, q: string)
    requires Forest(s) && Accepted(s, GiveDomain(name, taker))
    ensures taker in s.users
    ensures var t := After(s, GiveDomain(name, taker));
      && Climbs(t) && SameUsers(s, t) && t.plans == s.plans && t.domains == s.domains[name := Domain(taker)]
      && CountedUsers(t, q, false) == CountedUsers(s, q, false)
      && CountedDomains(t, q) ==
         CountedDomains(s, q) - {name} + (if CountsFor(s, s.users[taker].plan, q) then {name} else {})
  {
    hide UsersLinked, PlansLinked, DomainsLinked, Climbs, MovedDomain, SameUsers, MayHave, CountsFor, CountedUsers,
      CountedDomains;
    AllDomainsOwned(s);
    MovingDomainKeepsForest(s, name, taker);
    MovedShape(s, name, taker);
    SameAsItself(s);
    DomainsCounted(s, s, q);
    DomainsCounted(s, After(s, GiveDomain(name, taker)), q);
  }
}
