/** Deleting a plan or a user together with everything below it. */
module AccountDeletion {
  import opened Wrappers
  import opened Accounts
  import opened AccountSteps
  import opened AccountQuotas

  /** How many levels of plans a cascading deletion looks through. */
  const DEEP: int := 100000

  function AtLeastOne(deep: int): int {
    if deep < 1 then 1 else deep
  }

  /** User v is user u, or below a plan of u, less than `deep` levels down. */
  ghost predicate UserWithin(s: Accounts, v: string, u: string, deep: int)
    requires Climbs(s) && u in s.users
  {
    v in s.users && UnderUser(s, v, u, true) && Level(s, v, s.users[u].plan) < AtLeastOne(deep)
  }

  ghost function UsersWithin(s: Accounts, p: string, deep: int): (U: set<string>)
    requires Climbs(s) && p in s.plans
    ensures U <= s.users.Keys
  {
    set v | v in s.users && Under(s, v, p, true) && Level(s, v, p) < AtLeastOne(deep)
  }

  ghost predicate OwnedWithin(s: Accounts, owner: string, U: set<string>, deep: int)
    requires Climbs(s) && U <= s.users.Keys
  {
    exists u :: u in U && UserWithin(s, owner, u, deep)
  }

  ghost function PlansGone(s: Accounts, p: string, U: set<string>): set<string>
    requires Climbs(s) && U <= s.users.Keys
  {
    set q | q in s.plans && (q == p || OwnedWithin(s, s.plans[q].owner, U, DEEP))
  }

  ghost function DomainsGone(s: Accounts, U: set<string>): set<string>
    requires Climbs(s) && U <= s.users.Keys
  {
    set d | d in s.domains && s.domains[d].Domain? && OwnedWithin(s, s.domains[d].owner, U, DEEP)
  }

  /** The tables without these plans, users and domains, and without p among its owner's plans. */
  ghost function Erased(s: Accounts, p: string, P: set<string>, U: set<string>, D: set<string>): Accounts
    requires p in s.plans && s.plans[p].owner in s.users
  {
    var o := s.plans[p].owner;
    s.(plans := s.plans - P, domains := s.domains - D,
       users := s.users[o := s.users[o].(subPlans := Without(s.users[o].subPlans, p))] - U)
  }

  ghost function WithoutPlan(s: Accounts, p: string): Accounts
    requires Climbs(s) && p in s.plans && s.plans[p].owner in s.users
  {
    var U := UsersWithin(s, p, DEEP);
    Erased(s, p, PlansGone(s, p, U), U, DomainsGone(s, U))
  }

  /** Nobody is too many levels below the plan for the deletion to reach. */
  ghost predicate Shallow(s: Accounts, p: string)
    requires Climbs(s) && p in s.plans
  {
    forall v :: v in s.users && Under(s, v, p, true) ==> Level(s, v, p) < DEEP
  }

  lemma {:induction false} BelowOwned(s: Accounts, v: string, i: string, p: string)
    requires Climbs(s) && v in s.users && i in s.plans && s.plans[i].owner in s.users
    requires Under(s, v, i, true) && Under(s, s.plans[i].owner, p, true)
    ensures Under(s, v, p, true)
    decreases s.depth[s.users[v].plan]
  {
    if s.users[v].plan != i {
      BelowOwned(s, s.plans[s.users[v].plan].owner, i, p);
    }
  }

  lemma BelowUser(s: Accounts, v: string, u: string, p: string)
    requires Climbs(s) && v in s.users && u in s.users && UnderUser(s, v, u, true) && Under(s, u, p, true)
    ensures Under(s, v, p, true)
  {
    if v != u {
      var i :| ViaPlan(s, v, i, u, true);
      BelowOwned(s, v, i, p);
    }
  }

  /** Whoever is in the reach of a user below p is below p, and a user is in its own reach. */
  lemma ReachIsBelow(s: Accounts, p: string, o: string)
    requires Climbs(s) && p in s.plans && o in s.users
    ensures o in UsersWithin(s, p, DEEP) ==> OwnedWithin(s, o, UsersWithin(s, p, DEEP), DEEP)
    ensures OwnedWithin(s, o, UsersWithin(s, p, DEEP), DEEP) ==> Under(s, o, p, true)
  {
    hide Under;
    var U := UsersWithin(s, p, DEEP);
    if o in U {
      assert UserWithin(s, o, o, DEEP);
    }
    if OwnedWithin(s, o, U, DEEP) {
      var u :| u in U && UserWithin(s, o, u, DEEP);
      BelowUser(s, o, u, p);
    }
  }

  /** The deletion takes the plan and exactly what is below it. */
  ghost predicate Takes(s: Accounts, p: string, P: set<string>, U: set<string>, D: set<string>)
    requires Climbs(s)
  {
    && (forall v :: v in U <==> v in s.users && Under(s, v, p, true))
    && (forall q :: q in P <==> q in s.plans && (q == p || s.plans[q].owner in U))
    && (forall d :: d in D <==> d in s.domains && s.domains[d].Domain? && s.domains[d].owner in U)
  }

  lemma DeletionTakesAll(s: Accounts, p: string)
    requires Climbs(s) && p in s.plans && Shallow(s, p)
    ensures var U := UsersWithin(s, p, DEEP); Takes(s, p, PlansGone(s, p, U), U, DomainsGone(s, U))
  {
    hide Under, UnderUser;
    var U := UsersWithin(s, p, DEEP);
    forall o | o in s.users ensures OwnedWithin(s, o, U, DEEP) <==> o in U {
      ReachIsBelow(s, p, o);
    }
    forall o | o !in s.users ensures !OwnedWithin(s, o, U, DEEP) {
    }
  }

  // ----- what is left is a forest

  /** What is taken and what is left do not point at each other, but for p and its owner. */
  ghost predicate Closed(s: Accounts, p: string, P: set<string>, U: set<string>, D: set<string>) {
    && p in s.plans && p in P && s.plans[p].owner in s.users && s.plans[p].owner !in U
    && (forall u :: u in s.users ==> s.users[u].plan in s.plans && (u in U <==> s.users[u].plan in P))
    && (forall q :: q in s.plans && q != p ==> (q in P <==> s.plans[q].owner in U))
    && (forall d :: d in s.domains && s.domains[d].Domain? ==> (d in D <==> s.domains[d].owner in U))
    && U <= s.users.Keys
  }

  lemma TakesIsClosed(s: Accounts, p: string, P: set<string>, U: set<string>, D: set<string>)
    requires Climbs(s) && p in s.plans && s.plans[p].owner in s.users && Takes(s, p, P, U, D)
    ensures Closed(s, p, P, U, D)
  {
    forall u | u in s.users ensures u in U <==> s.users[u].plan in P {
    }
    if s.plans[p].owner in U {
      UnderIsDeeper(s, s.plans[p].owner, p, true);
    }
  }

  /** The tables t are what is left of s. */
  ghost predicate Left(s: Accounts, t: Accounts, p: string, P: set<string>, U: set<string>, D: set<string>) {
    && t.plans == s.plans - P && t.domains == s.domains - D && t.users.Keys == s.users.Keys - U
    && t.roots == s.roots && t.depth == s.depth && t.height == s.height
    && (forall u :: u in t.users ==>
      u in s.users && t.users[u].plan == s.users[u].plan && t.users[u].domains == s.users[u].domains)
    && p in s.plans
    && (forall u :: u in t.users ==>
      t.users[u].subPlans == if u == s.plans[p].owner then Without(s.users[u].subPlans, p) else s.users[u].subPlans)
  }

  lemma ErasedIsLeft(s: Accounts, p: string, P: set<string>, U: set<string>, D: set<string>)
    requires p in s.plans && s.plans[p].owner in s.users
    ensures Left(s, Erased(s, p, P, U, D), p, P, U, D)
  {
  }

  lemma KeptUser(s: Accounts, p: string, P: set<string>, U: set<string>, D: set<string>, u: string)
    requires UsersLinked(s) && Closed(s, p, P, U, D) && u in s.users && u !in U
    ensures s.users[u].plan in s.plans && s.users[u].plan !in P && u in s.plans[s.users[u].plan].users
  {
  }

  lemma KeptPlanUser(s: Accounts, p: string, P: set<string>, U: set<string>, D: set<string>, q: string, u: string)
    requires UsersLinked(s) && Closed(s, p, P, U, D) && q in s.plans && q !in P && u in s.plans[q].users
    ensures u in s.users && u !in U && s.users[u].plan == q
  {
  }

  lemma LeftUsersLinked(s: Accounts, t: Accounts, p: string, P: set<string>, U: set<string>, D: set<string>)
    requires UsersLinked(s) && Left(s, t, p, P, U, D) && Closed(s, p, P, U, D)
    ensures UsersLinked(t)
  {
    hide NoDup, Without, Closed;
    forall u | u in t.users ensures t.users[u].plan in t.plans && u in t.plans[t.users[u].plan].users {
      KeptUser(s, p, P, U, D, u);
    }
    forall q, u | q in t.plans && u in t.plans[q].users ensures u in t.users && t.users[u].plan == q {
      KeptPlanUser(s, p, P, U, D, q, u);
    }
  }

  lemma LeftClimbs(s: Accounts, t: Accounts, p: string, P: set<string>, U: set<string>, D: set<string>)
    requires Climbs(s) && Left(s, t, p, P, U, D) && Closed(s, p, P, U, D)
    ensures Climbs(t)
  {
  }

  /** Users that are left own what they owned, but for p. */
  lemma LeftSubPlans(s: Accounts, t: Accounts, p: string, P: set<string>, U: set<string>, D: set<string>, u: string)
    requires PlansLinked(s) && Left(s, t, p, P, U, D) && u in t.users
    ensures u in s.users && NoDup(t.users[u].subPlans)
    ensures forall q :: q in t.users[u].subPlans <==> q in s.users[u].subPlans && q != p
  {
    OwnPlans(s, u);
    WithoutIs(s.users[u].subPlans, p);
  }

  lemma LeftPlansLinked(s: Accounts, t: Accounts, p: string, P: set<string>, U: set<string>, D: set<string>)
    requires PlansLinked(s) && Climbs(s) && Left(s, t, p, P, U, D) && Closed(s, p, P, U, D)
    ensures PlansLinked(t)
  {
    SuperIsNoUser(s);
    forall u | u in t.users ensures OwnsButOne(s, t, p, u) {
      LeftSubPlans(s, t, p, P, U, D, u);
    }
    LeftShape(s, t, p, P, U, D);
    LeftOwners(s, t, p, P, U, D);
  }

  lemma LeftShape(s: Accounts, t: Accounts, p: string, P: set<string>, U: set<string>, D: set<string>)
    requires Left(s, t, p, P, U, D)
    ensures t.plans == s.plans - P && t.users.Keys == s.users.Keys - U && t.roots == s.roots
  {
  }

  lemma KeptPlan(s: Accounts, p: string, P: set<string>, U: set<string>, D: set<string>, q: string)
    requires PlansLinked(s) && Closed(s, p, P, U, D) && q in s.plans && q !in P
    ensures var o := s.plans[q].owner;
      q != p && if o in s.users then o !in U && q in s.users[o].subPlans else o == SUPER_USER && q in s.roots
  {
  }

  lemma KeptSubPlan(s: Accounts, p: string, P: set<string>, U: set<string>, D: set<string>, u: string, q: string)
    requires PlansLinked(s) && Closed(s, p, P, U, D) && u in s.users && u !in U && q in s.users[u].subPlans && q != p
    ensures q in s.plans && q !in P && s.plans[q].owner == u
  {
  }

  lemma KeptRoot(s: Accounts, p: string, P: set<string>, U: set<string>, D: set<string>, q: string)
    requires PlansLinked(s) && SUPER_USER !in s.users && Closed(s, p, P, U, D) && q in s.roots
    ensures q in s.plans && q !in P && s.plans[q].owner == SUPER_USER
  {
  }

  /** User u of t owns what it owns in s, but for p. */
  ghost predicate OwnsButOne(s: Accounts, t: Accounts, p: string, u: string) {
    && u in t.users && u in s.users && NoDup(t.users[u].subPlans)
    && forall q :: q in t.users[u].subPlans <==> q in s.users[u].subPlans && q != p
  }

  lemma LeftOwners(s: Accounts, t: Accounts, p: string, P: set<string>, U: set<string>, D: set<string>)
    requires PlansLinked(s) && SUPER_USER !in s.users && Closed(s, p, P, U, D)
    requires t.plans == s.plans - P && t.users.Keys == s.users.Keys - U && t.roots == s.roots
    requires forall u :: u in t.users ==> OwnsButOne(s, t, p, u)
    ensures PlansLinked(t)
  {
    hide NoDup, PlansLinked, Closed;
    RootsNoDup(s);
    assert forall u :: u in t.users ==> NoDup(t.users[u].subPlans) by {
      assert forall u :: u in t.users ==> OwnsButOne(s, t, p, u);
    }
    hide OwnsButOne;
    forall u, q | u in t.users && q in t.users[u].subPlans ensures q in t.plans && t.plans[q].owner == u {
      ButOne(s, t, p, u, q);
      KeptSubPlan(s, p, P, U, D, u, q);
    }
    forall q | q in t.roots ensures q in t.plans && t.plans[q].owner == SUPER_USER {
      KeptRoot(s, p, P, U, D, q);
    }
    forall q | q in t.plans ensures
      if t.plans[q].owner in t.users then q in t.users[t.plans[q].owner].subPlans
      else t.plans[q].owner == SUPER_USER && q in t.roots
    {
      KeptPlan(s, p, P, U, D, q);
      if t.plans[q].owner in t.users {
        ButOne(s, t, p, t.plans[q].owner, q);
      }
    }
    PlansLinkedFrom(t);
  }

  lemma ButOne(s: Accounts, t: Accounts, p: string, u: string, q: string)
    requires OwnsButOne(s, t, p, u)
    ensures u in t.users && u in s.users && (q in t.users[u].subPlans <==> q in s.users[u].subPlans && q != p)
  {
  }

  lemma RootsNoDup(s: Accounts)
    requires PlansLinked(s)
    ensures NoDup(s.roots)
  {
  }

  lemma KeptDomain(s: Accounts, p: string, P: set<string>, U: set<string>, D: set<string>, d: string)
    requires DomainsLinked(s) && Closed(s, p, P, U, D) && d in s.domains && d !in D
    ensures s.domains[d].Domain? && s.domains[d].owner in s.users && s.domains[d].owner !in U
    ensures d in s.users[s.domains[d].owner].domains
  {
  }

  lemma KeptUserDomain(s: Accounts, p: string, P: set<string>, U: set<string>, D: set<string>, u: string, d: string)
    requires DomainsLinked(s) && Closed(s, p, P, U, D) && u in s.users && u !in U && d in s.users[u].domains
    ensures d in s.domains && d !in D && s.domains[d] == Domain(u)
  {
  }

  lemma LeftDomainsLinked(s: Accounts, t: Accounts, p: string, P: set<string>, U: set<string>, D: set<string>)
    requires DomainsLinked(s) && Left(s, t, p, P, U, D) && Closed(s, p, P, U, D)
    ensures DomainsLinked(t)
  {
    hide NoDup, Closed, Without;
    forall d | d in t.domains
      ensures t.domains[d].Domain? && t.domains[d].owner in t.users && d in t.users[t.domains[d].owner].domains
    {
      KeptDomain(s, p, P, U, D, d);
    }
    forall u, d | u in t.users && d in t.users[u].domains ensures d in t.domains && t.domains[d] == Domain(u) {
      KeptUserDomain(s, p, P, U, D, u, d);
    }
  }

  lemma LeftAgrees(s: Accounts, t: Accounts, p: string, P: set<string>, U: set<string>, D: set<string>)
    requires Climbs(s) && Left(s, t, p, P, U, D) && Closed(s, p, P, U, D)
    ensures Agrees(t, s, t.users.Keys, false)
    ensures forall d :: d in t.domains ==> d in s.domains && t.domains[d] == s.domains[d]
    ensures forall q :: q in t.plans ==> q in s.plans && t.plans[q].opts == s.plans[q].opts
  {
  }

  /** Deleting a plan takes it and exactly what is below it, and leaves a forest within its
      quotas, when nobody is too far below the plan. */
  lemma DeletionKeepsForest(s: Accounts, p: string)
    requires Forest(s) && p in s.plans && s.plans[p].owner in s.users && Shallow(s, p)
    ensures Forest(WithoutPlan(s, p)) && (Quotas(s) ==> Quotas(WithoutPlan(s, p)))
    ensures var U := UsersWithin(s, p, DEEP);
      Left(s, WithoutPlan(s, p), p, PlansGone(s, p, U), U, DomainsGone(s, U))
      && Takes(s, p, PlansGone(s, p, U), U, DomainsGone(s, U))
  {
    SuperIsNoUser(s);
    hide UsersLinked, PlansLinked, DomainsLinked, Climbs, Takes, Closed, Left, Erased, Agrees, Quotas,
      UsersWithin, PlansGone, DomainsGone;
    var U := UsersWithin(s, p, DEEP);
    var P, D := PlansGone(s, p, U), DomainsGone(s, U);
    var t := WithoutPlan(s, p);
    DeletionTakesAll(s, p);
    TakesIsClosed(s, p, P, U, D);
    ErasedIsLeft(s, p, P, U, D);
    LeftUsersLinked(s, t, p, P, U, D);
    LeftClimbs(s, t, p, P, U, D);
    LeftPlansLinked(s, t, p, P, U, D);
    LeftDomainsLinked(s, t, p, P, U, D);
    LeftAgrees(s, t, p, P, U, D);
    if Quotas(s) {
      LessKeepsQuotas(s, t);
    }
  }

  // ----- and when somebody is too far below

  lemma {:induction false} AtLevel(s: Accounts, v: string, p: string, level: nat) returns (u: string)
    requires Climbs(s) && v in s.users && Under(s, v, p, true) && p in s.plans && level <= Level(s, v, p)
    ensures u in s.users && Under(s, u, p, true) && Level(s, u, p) == level
    decreases s.depth[s.users[v].plan]
  {
    if level == Level(s, v, p) {
      u := v;
    } else {
      u := AtLevel(s, s.plans[s.users[v].plan].owner, p, level);
    }
  }

  /** Otherwise a user is left whose plan is gone. */
  lemma DeepDeletionBreaks(s: Accounts, p: string)
    requires Forest(s) && p in s.plans && s.plans[p].owner in s.users && !Shallow(s, p)
    ensures !UsersLinked(WithoutPlan(s, p))
  {
    var u := FoundTooDeep(s, p);
    LeftWithoutPlan(s, p, u);
  }

  lemma FoundTooDeep(s: Accounts, p: string) returns (u: string)
    requires Forest(s) && p in s.plans && s.plans[p].owner in s.users && !Shallow(s, p)
    ensures u in s.users && Under(s, u, p, true) && u !in UsersWithin(s, p, DEEP)
    ensures s.users[u].plan in PlansGone(s, p, UsersWithin(s, p, DEEP))
  {
    hide UsersLinked, PlansLinked, DomainsLinked, Under;
    var v :| v in s.users && Under(s, v, p, true) && Level(s, v, p) >= DEEP;
    u := AtLevel(s, v, p, DEEP);
    OwnerAbove(s, u, p);
    ReachIsBelow(s, p, s.plans[s.users[u].plan].owner);
  }

  lemma OwnerAbove(s: Accounts, u: string, p: string)
    requires Climbs(s) && u in s.users && p in s.plans && Under(s, u, p, true) && Level(s, u, p) > 0
    ensures var q := s.users[u].plan;
      q in s.plans && s.plans[q].owner in s.users && Under(s, s.plans[q].owner, p, true)
      && Level(s, s.plans[q].owner, p) == Level(s, u, p) - 1
  {
  }

  lemma LeftWithoutPlan(s: Accounts, p: string, u: string)
    requires Climbs(s) && p in s.plans && s.plans[p].owner in s.users && u in s.users
    requires u !in UsersWithin(s, p, DEEP) && s.users[u].plan in PlansGone(s, p, UsersWithin(s, p, DEEP))
    ensures !UsersLinked(WithoutPlan(s, p))
  {
    hide UsersWithin, PlansGone, DomainsGone, Climbs;
    var t := WithoutPlan(s, p);
    assert u in t.users && t.users[u].plan == s.users[u].plan && t.users[u].plan !in t.plans;
  }

  // ----- deleting a user

  /** The user is taken out of the plans' lists, and goes with its domains. */
  ghost function WithoutUser(s: Accounts, name: string): Accounts {
    s.(plans := map p | p in s.plans :: s.plans[p].(users := Without(s.plans[p].users, name)),
       domains := map d | d in s.domains && !(s.domains[d].Domain? && s.domains[d].owner == name) :: s.domains[d],
       users := s.users - {name})
  }

  /** The tables r without what the deletion of p finds in the tables s. */
  ghost function ErasedBelow(s: Accounts, r: Accounts, p: string): Accounts
    requires Climbs(s) && p in s.plans && p in r.plans && r.plans[p].owner in r.users
  {
    var U := UsersWithin(s, p, DEEP);
    Erased(r, p, PlansGone(s, p, U), U, DomainsGone(s, U))
  }

  /** First the plans of the user are deleted, one by one; what each deletion finds is what
      it would have found at the beginning. */
  ghost function WithoutPlans(s: Accounts, ps: seq<string>): Accounts
    requires Climbs(s)
  {
    if |ps| == 0 then s
    else
      var r := WithoutPlans(s, ps[..|ps| - 1]);
      var p := ps[|ps| - 1];
      if p in s.plans && p in r.plans && r.plans[p].owner in r.users then ErasedBelow(s, r, p) else r
  }

  ghost predicate BelowAny(s: Accounts, v: string, ps: seq<string>)
    requires Climbs(s) && v in s.users
  {
    exists i :: i in ps && Under(s, v, i, true)
  }

  ghost predicate ReducedUsers(s: Accounts, r: Accounts, ps: seq<string>)
    requires Climbs(s)
  {
    && (forall v :: v in r.users ==> v in s.users)
    && forall v :: v in s.users ==> (v in r.users <==> !BelowAny(s, v, ps))
  }

  ghost predicate ReducedPlans(s: Accounts, r: Accounts, ps: seq<string>) {
    forall q :: q in r.plans <==>
      q in s.plans && q !in ps && (s.plans[q].owner in s.users ==> s.plans[q].owner in r.users)
  }

  ghost predicate ReducedDomains(s: Accounts, r: Accounts) {
    forall d :: d in r.domains <==>
      d in s.domains && (s.domains[d].Domain? && s.domains[d].owner in s.users ==> s.domains[d].owner in r.users)
  }

  ghost predicate ReducedOwned(s: Accounts, r: Accounts, name: string, ps: seq<string>) {
    && name in r.users && name in s.users
    && forall q :: q in r.users[name].subPlans <==> q in s.users[name].subPlans && q !in ps
  }

  /** The tables r are s without these plans of a user and what is below them. */
  ghost predicate Reduced(s: Accounts, r: Accounts, name: string, ps: seq<string>)
    requires Climbs(s)
  {
    && ReducedUsers(s, r, ps) && ReducedPlans(s, r, ps) && ReducedDomains(s, r)
    && ReducedValues(s, r) && ReducedOwned(s, r, name, ps)
  }

  /** What is left is as it was, but for the plans of the user. */
  ghost predicate ReducedValues(s: Accounts, r: Accounts) {
    && r.depth == s.depth
    && (forall v :: v in r.users ==>
      v in s.users && r.users[v].plan == s.users[v].plan && r.users[v].domains == s.users[v].domains)
    && (forall q :: q in r.plans ==> q in s.plans && r.plans[q] == s.plans[q])
    && (forall d :: d in r.domains ==> d in s.domains && r.domains[d] == s.domains[d])
  }

  lemma ReducedAgrees(s: Accounts, r: Accounts)
    requires Climbs(s) && PlansLinked(s) && Forest(r) && ReducedValues(s, r)
    ensures Agrees(r, s, r.users.Keys, true) && Agrees(s, r, r.users.Keys, true)
  {
    SuperIsNoUser(s);
    forall u | u in r.users
      ensures AgreesOn(r, s, u, r.users.Keys, true) && AgreesOn(s, r, u, r.users.Keys, true)
    {
      PlanOfUser(r, u);
      OwnersKnown(r, r.users[u].plan);
    }
  }

  lemma ReducedUnder(s: Accounts, r: Accounts, v: string, p: string)
    requires Climbs(s) && PlansLinked(s) && Forest(r) && ReducedValues(s, r) && v in r.users
    ensures v in s.users && (Under(r, v, p, true) <==> Under(s, v, p, true))
  {
    ReducedAgrees(s, r);
    hide UsersLinked, PlansLinked, DomainsLinked, Climbs, Agrees;
    if Under(r, v, p, true) {
      UnderAgrees(r, s, r.users.Keys, v, p, true);
    }
    if v in s.users && Under(s, v, p, true) {
      UnderAgrees(s, r, r.users.Keys, v, p, true);
    }
  }

  lemma ReducedShallow(s: Accounts, r: Accounts, p: string)
    requires Forest(s) && Forest(r) && ReducedValues(s, r) && p in r.plans && p in s.plans && Shallow(s, p)
    ensures Shallow(r, p)
  {
    hide UsersLinked, PlansLinked, DomainsLinked, Under;
    forall v | v in r.users && Under(r, v, p, true) ensures Level(r, v, p) < DEEP {
      ReducedUnder(s, r, v, p);
    }
  }

  /** Deleting one more plan of the user. */
  lemma ReducedMore(s: Accounts, r: Accounts, t: Accounts, name: string, ps: seq<string>, p: string,
      P: set<string>, U: set<string>, D: set<string>)
    requires Forest(s) && Forest(r) && Reduced(s, r, name, ps) && p in r.plans && r.plans[p].owner == name
    requires Takes(r, p, P, U, D) && Left(r, t, p, P, U, D) && name !in U
    ensures Reduced(s, t, name, ps + [p])
  {
    hide UsersLinked, PlansLinked, DomainsLinked, Climbs, ReducedUsers, ReducedPlans, ReducedDomains, ReducedValues,
      ReducedOwned, Takes, Left;
    MoreUsersGone(s, r, t, ps, p, P, U, D);
    MorePlansGone(s, r, t, ps, p, P, U, D);
    MoreDomainsGone(s, r, t, p, P, U, D);
    ValuesStay(s, r, t, p, P, U, D);
    MoreOwnedGone(s, r, t, name, ps, p, P, U, D);
  }

  lemma MoreUsersGone(s: Accounts, r: Accounts, t: Accounts, ps: seq<string>, p: string,
      P: set<string>, U: set<string>, D: set<string>)
    requires Climbs(s) && PlansLinked(s) && Forest(r) && ReducedUsers(s, r, ps) && ReducedValues(s, r)
    requires Takes(r, p, P, U, D) && Left(r, t, p, P, U, D)
    ensures ReducedUsers(s, t, ps + [p])
  {
    hide PlansLinked, UsersLinked, DomainsLinked, Climbs, ReducedValues, Under, BelowAny, Without;
    forall v | v in s.users ensures v in t.users <==> !BelowAny(s, v, ps + [p]) {
      OneMorePlan(s, v, ps, p);
      if v in r.users {
        ReducedUnder(s, r, v, p);
      }
    }
  }

  lemma MorePlansGone(s: Accounts, r: Accounts, t: Accounts, ps: seq<string>, p: string,
      P: set<string>, U: set<string>, D: set<string>)
    requires Climbs(r) && ReducedPlans(s, r, ps) && ReducedValues(s, r) && Takes(r, p, P, U, D)
      && Left(r, t, p, P, U, D)
    requires p in r.plans
    ensures ReducedPlans(s, t, ps + [p])
  {
  }

  lemma MoreDomainsGone(s: Accounts, r: Accounts, t: Accounts, p: string,
      P: set<string>, U: set<string>, D: set<string>)
    requires Climbs(r) && ReducedDomains(s, r) && ReducedValues(s, r) && Takes(r, p, P, U, D) && Left(r, t, p, P, U, D)
    ensures ReducedDomains(s, t)
  {
  }

  lemma ValuesStay(s: Accounts, r: Accounts, t: Accounts, p: string, P: set<string>, U: set<string>, D: set<string>)
    requires ReducedValues(s, r) && Left(r, t, p, P, U, D)
    ensures ReducedValues(s, t)
  {
  }

  lemma MoreOwnedGone(s: Accounts, r: Accounts, t: Accounts, name: string, ps: seq<string>, p: string,
      P: set<string>, U: set<string>, D: set<string>)
    requires PlansLinked(r) && ReducedOwned(s, r, name, ps) && Left(r, t, p, P, U, D) && name !in U
    ensures ReducedOwned(s, t, name, ps + [p])
  {
    LeftSubPlans(r, t, p, P, U, D, name);
  }

  lemma OneMorePlan(s: Accounts, v: string, ps: seq<string>, p: string)
    requires Climbs(s) && v in s.users
    ensures BelowAny(s, v, ps + [p]) <==> BelowAny(s, v, ps) || Under(s, v, p, true)
  {
  }

  /** Everything below each of the user's plans can be reached. */
  ghost predicate ShallowUser(s: Accounts, name: string)
    requires Climbs(s) && PlansLinked(s) && name in s.users
  {
    forall p :: p in s.users[name].subPlans ==> p in s.plans && Shallow(s, p)
  }

  lemma OwnPlanIsBelow(s: Accounts, p: string)
    requires Climbs(s) && p in s.plans && s.plans[p].owner in s.users
    ensures !Under(s, s.plans[p].owner, p, true)
  {
    if Under(s, s.plans[p].owner, p, true) {
      UnderIsDeeper(s, s.plans[p].owner, p, true);
    }
  }

  lemma StillThere(s: Accounts, r: Accounts, name: string, ps: seq<string>, p: string)
    requires Climbs(s) && PlansLinked(s) && Reduced(s, r, name, ps) && p in s.users[name].subPlans && p !in ps
    ensures p in s.plans && p in r.plans && r.plans[p].owner == name && name in r.users
  {
    hide BelowAny;
  }

  lemma NothingDeleted(s: Accounts, name: string)
    requires Climbs(s) && name in s.users
    ensures Reduced(s, s, name, [])
  {
  }

  lemma OnePlanMore(s: Accounts, r: Accounts, name: string, ps: seq<string>, p: string)
    requires Forest(s) && Forest(r) && name in s.users && Reduced(s, r, name, ps)
    requires p in s.users[name].subPlans && p !in ps && p in s.plans && Shallow(s, p)
    ensures p in r.plans && r.plans[p].owner in r.users && Forest(WithoutPlan(r, p))
    ensures Reduced(s, WithoutPlan(r, p), name, ps + [p]) && (Quotas(r) ==> Quotas(WithoutPlan(r, p)))
  {
    hide UsersLinked, PlansLinked, DomainsLinked, Climbs, Reduced, Takes, Left, Quotas, Shallow,
      UsersWithin, PlansGone, DomainsGone, Erased;
    StillThere(s, r, name, ps, p);
    ReducedValuesOf(s, r, name, ps);
    ReducedShallow(s, r, p);
    DeletionKeepsForest(r, p);
    OwnPlanIsBelow(r, p);
    var U := UsersWithin(r, p, DEEP);
    NotTaken(r, p, PlansGone(r, p, U), U, DomainsGone(r, U), name);
    ReducedMore(s, r, WithoutPlan(r, p), name, ps, p, PlansGone(r, p, U), U, DomainsGone(r, U));
  }

  /** When everything below p can be reached, the tables r themselves lead to the same. */
  lemma SameErased(s: Accounts, r: Accounts, name: string, ps: seq<string>, p: string)
    requires Forest(s) && Forest(r) && Reduced(s, r, name, ps) && p in s.plans && Shallow(s, p)
    requires p in r.plans && r.plans[p].owner in r.users
    ensures WithoutPlan(r, p) == ErasedBelow(s, r, p)
  {
    hide UsersLinked, PlansLinked, DomainsLinked, Climbs, Under, UsersWithin, PlansGone, DomainsGone, Shallow,
      ReducedUsers, ReducedPlans, ReducedDomains, ReducedValues, ReducedOwned, OwnersStay, Takes;
    ReducedOwnersStay(s, r, ps);
    ReducedShallow(s, r, p);
    DeletionTakesAll(s, p);
    DeletionTakesAll(r, p);
    var U, V := UsersWithin(s, p, DEEP), UsersWithin(r, p, DEEP);
    SameTaken(s, r, p, PlansGone(s, p, U), U, DomainsGone(s, U), PlansGone(r, p, V), V, DomainsGone(r, V));
    var o := r.plans[p].owner;
    var users := r.users[o := r.users[o].(subPlans := Without(r.users[o].subPlans, p))];
    assert users.Keys == r.users.Keys;
    assert users - U == users - V;
  }

  /** Owners of what is left are left. */
  ghost predicate OwnersStay(s: Accounts, r: Accounts) {
    && (forall q :: q in r.plans && r.plans[q].owner in s.users ==> r.plans[q].owner in r.users)
    && (forall d :: d in r.domains && r.domains[d].Domain? && r.domains[d].owner in s.users ==>
      r.domains[d].owner in r.users)
  }

  lemma ReducedOwnersStay(s: Accounts, r: Accounts, ps: seq<string>)
    requires ReducedPlans(s, r, ps) && ReducedDomains(s, r) && ReducedValues(s, r)
    ensures OwnersStay(s, r)
  {
  }

  lemma SameTaken(s: Accounts, r: Accounts, p: string, P: set<string>, U: set<string>, D: set<string>,
      Q: set<string>, V: set<string>, E: set<string>)
    requires Climbs(s) && PlansLinked(s) && Forest(r) && ReducedValues(s, r) && OwnersStay(s, r) && p in r.plans
    requires Takes(s, p, P, U, D) && Takes(r, p, Q, V, E)
    ensures forall v :: v in r.users ==> (v in U <==> v in V)
    ensures r.plans - P == r.plans - Q && r.domains - D == r.domains - E
  {
    hide UsersLinked, PlansLinked, DomainsLinked, Climbs, Under, Takes, OwnersStay, ReducedValues;
    forall v | v in r.users ensures v in U <==> v in V {
      TakenUser(s, p, P, U, D, v);
      TakenUser(r, p, Q, V, E, v);
      ReducedUnder(s, r, v, p);
    }
    OwnersTaken(s, r, p, P, U, D, Q, V, E);
    assert r.plans - P == r.plans - Q;
    assert r.domains - D == r.domains - E;
  }

  lemma TakenUser(s: Accounts, p: string, P: set<string>, U: set<string>, D: set<string>, v: string)
    requires Climbs(s) && Takes(s, p, P, U, D)
    ensures v in U <==> v in s.users && Under(s, v, p, true)
  {
  }

  lemma OwnersTaken(s: Accounts, r: Accounts, p: string, P: set<string>, U: set<string>, D: set<string>,
      Q: set<string>, V: set<string>, E: set<string>)
    requires Climbs(s) && Climbs(r) && Takes(s, p, P, U, D) && Takes(r, p, Q, V, E)
    requires ReducedValues(s, r) && OwnersStay(s, r) && forall v :: v in r.users ==> (v in U <==> v in V)
    ensures forall q :: q in r.plans ==> (q in P <==> q in Q)
    ensures forall d :: d in r.domains ==> (d in D <==> d in E)
  {
    hide Climbs, Under;
  }

  lemma {:induction false} PlansDeleted(s: Accounts, name: string, ps: seq<string>)
    requires Forest(s) && name in s.users && NoDup(ps)
    requires forall p :: p in ps ==> p in s.plans && p in s.users[name].subPlans && Shallow(s, p)
    ensures var r := WithoutPlans(s, ps);
      Forest(r) && Reduced(s, r, name, ps) && (Quotas(s) ==> Quotas(r))
    decreases |ps|
  {
    hide UsersLinked, PlansLinked, DomainsLinked, Climbs, Reduced, Quotas, Shallow, WithoutPlan, NoDup;
    if |ps| == 0 {
      NothingDeleted(s, name);
    } else {
      FrontNoDup(ps);
      var front, p := ps[..|ps| - 1], ps[|ps| - 1];
      PlansDeleted(s, name, front);
      OnePlanMore(s, WithoutPlans(s, front), name, front, p);
      SameErased(s, WithoutPlans(s, front), name, front, p);
    }
  }

  lemma NotTaken(r: Accounts, p: string, P: set<string>, U: set<string>, D: set<string>, name: string)
    requires Climbs(r) && Takes(r, p, P, U, D) && name in r.users && !Under(r, name, p, true)
    ensures name !in U
  {
  }

  lemma ReducedValuesOf(s: Accounts, r: Accounts, name: string, ps: seq<string>)
    requires Climbs(s) && Reduced(s, r, name, ps)
    ensures ReducedValues(s, r)
  {
  }

  // ----- deleting plans of a user one by one, however deep

  ghost predicate UserGone(s: Accounts, v: string, ps: seq<string>)
    requires Climbs(s)
  {
    exists i :: i in ps && i in s.plans && v in UsersWithin(s, i, DEEP)
  }

  ghost predicate PlanGone(s: Accounts, q: string, ps: seq<string>)
    requires Climbs(s)
  {
    exists i :: i in ps && i in s.plans && q in PlansGone(s, i, UsersWithin(s, i, DEEP))
  }

  ghost predicate DomainGone(s: Accounts, d: string, ps: seq<string>)
    requires Climbs(s)
  {
    exists i :: i in ps && i in s.plans && d in DomainsGone(s, UsersWithin(s, i, DEEP))
  }

  /** Users that are left keep everything, but for plans in the list. */
  ghost predicate SameButPlans(a: User, b: User, ps: seq<string>) {
    a.plan == b.plan && a.domains == b.domains && forall q :: q in b.subPlans <==> q in a.subPlans && q !in ps
  }

  /** What is left of s when these plans of a user were deleted. */
  ghost predicate LeftWithout(s: Accounts, r: Accounts, name: string, ps: seq<string>)
    requires Climbs(s)
  {
    && (forall v :: v in r.users <==> v in s.users && !UserGone(s, v, ps))
    && (forall v :: v in r.users && v != name ==> r.users[v] == s.users[v])
    && name in r.users && SameButPlans(s.users[name], r.users[name], ps)
    && (forall q :: q in r.plans <==> q in s.plans && !PlanGone(s, q, ps))
    && (forall q :: q in r.plans ==> r.plans[q] == s.plans[q])
    && (forall d :: d in r.domains <==> d in s.domains && !DomainGone(s, d, ps))
    && (forall d :: d in r.domains ==> r.domains[d] == s.domains[d])
  }

  /** Whoever is below one plan of a user is in reach of no other one, and neither is the
      user itself. */
  lemma OtherBranch(s: Accounts, i: string, j: string, v: string)
    requires Climbs(s) && i in s.plans && j in s.plans && i != j && s.plans[i].owner == s.plans[j].owner
    requires s.plans[i].owner in s.users && v in s.users && (v == s.plans[i].owner || Under(s, v, j, true))
    ensures !Under(s, v, i, true) && v !in UsersWithin(s, i, DEEP) && !OwnedWithin(s, v, UsersWithin(s, i, DEEP), DEEP)
  {
    ReachIsBelow(s, i, v);
    OwnPlanIsBelow(s, i);
    if Under(s, v, i, true) && Under(s, v, j, true) {
      UnderOnePlan(s, v, i, j, true);
    }
  }

  lemma OtherPlan(s: Accounts, i: string, j: string, q: string)
    requires Climbs(s) && i in s.plans && j in s.plans && i != j && s.plans[i].owner == s.plans[j].owner
    requires s.plans[i].owner in s.users && AtOrAbove(s, q, j)
    ensures q !in PlansGone(s, i, UsersWithin(s, i, DEEP))
  {
    OtherBranch(s, i, j, s.plans[q].owner);
    OwnPlanIsBelow(s, j);
  }

  lemma NextLeft(s: Accounts, r: Accounts, name: string, ps: seq<string>, p: string)
    requires Climbs(s) && LeftWithout(s, r, name, ps) && NoDup(r.users[name].subPlans)
    requires p in s.plans && p in r.plans && r.plans[p].owner == name
    requires name !in UsersWithin(s, p, DEEP)
    ensures var t := ErasedBelow(s, r, p); LeftWithout(s, t, name, ps + [p]) && NoDup(t.users[name].subPlans)
  {
    hide Climbs, UsersWithin, PlansGone, DomainsGone, NoDup, Without, Erased, UserGone, PlanGone, DomainGone;
    WithoutIs(r.users[name].subPlans, p);
    var U := UsersWithin(s, p, DEEP);
    var t := ErasedBelow(s, r, p);
    ErasedShape(r, p, PlansGone(s, p, U), U, DomainsGone(s, U));
    OneMoreGone(s, ps, p);
  }

  lemma ErasedShape(r: Accounts, p: string, P: set<string>, U: set<string>, D: set<string>)
    requires p in r.plans && r.plans[p].owner in r.users
    ensures var t, o := Erased(r, p, P, U, D), r.plans[p].owner;
      && (forall v :: v in t.users <==> v in r.users && v !in U)
      && (forall v :: v in t.users && v != o ==> t.users[v] == r.users[v])
      && (o in t.users ==> t.users[o] == r.users[o].(subPlans := Without(r.users[o].subPlans, p)))
      && (forall q :: q in t.plans <==> q in r.plans && q !in P)
        && (forall q :: q in t.plans ==> t.plans[q] == r.plans[q])
      && (forall d :: d in t.domains <==> d in r.domains && d !in D)
        && (forall d :: d in t.domains ==> t.domains[d] == r.domains[d])
  {
  }

  lemma OneMoreGone(s: Accounts, ps: seq<string>, p: string)
    requires Climbs(s) && p in s.plans
    ensures forall v :: UserGone(s, v, ps + [p]) <==> UserGone(s, v, ps) || v in UsersWithin(s, p, DEEP)
    ensures forall q :: PlanGone(s, q, ps + [p]) <==>
      PlanGone(s, q, ps) || q in PlansGone(s, p, UsersWithin(s, p, DEEP))
    ensures forall d :: DomainGone(s, d, ps + [p]) <==>
      DomainGone(s, d, ps) || d in DomainsGone(s, UsersWithin(s, p, DEEP))
  {
    hide UsersWithin, PlansGone, DomainsGone, Climbs;
  }

  /** Deleting these plans one by one leaves exactly what none of the deletions finds. */
  lemma {:induction false} PlansErased(s: Accounts, name: string, ps: seq<string>)
    requires Forest(s) && name in s.users && NoDup(ps) && forall p :: p in ps ==> p in s.users[name].subPlans
    ensures var r := WithoutPlans(s, ps); LeftWithout(s, r, name, ps) && NoDup(r.users[name].subPlans)
    decreases |ps|
  {
    OwnPlans(s, name);
    hide UsersLinked, PlansLinked, DomainsLinked, Climbs, LeftWithout, ErasedBelow, UsersWithin, NoDup;
    if |ps| == 0 {
      NothingErased(s, name);
    } else {
      FrontNoDup(ps);
      var front, p := ps[..|ps| - 1], ps[|ps| - 1];
      PlansErased(s, name, front);
      StillLeft(s, WithoutPlans(s, front), name, front, p);
      NextLeft(s, WithoutPlans(s, front), name, front, p);
    }
  }

  lemma NoneGone(s: Accounts)
    requires Climbs(s)
    ensures forall x :: !UserGone(s, x, []) && !PlanGone(s, x, []) && !DomainGone(s, x, [])
  {
  }

  lemma NothingErased(s: Accounts, name: string)
    requires Forest(s) && name in s.users
    ensures LeftWithout(s, s, name, []) && NoDup(s.users[name].subPlans)
  {
    hide UsersLinked, PlansLinked, DomainsLinked, Climbs, UserGone, PlanGone, DomainGone, NoDup;
    OwnPlans(s, name);
    NoneGone(s);
  }

  lemma StillLeft(s: Accounts, r: Accounts, name: string, ps: seq<string>, p: string)
    requires Climbs(s) && PlansLinked(s) && name in s.users && LeftWithout(s, r, name, ps)
    requires p in s.users[name].subPlans && p !in ps && forall i :: i in ps ==> i in s.users[name].subPlans
    ensures p in s.plans && p in r.plans && r.plans[p].owner == name && name !in UsersWithin(s, p, DEEP)
  {
    OwnPlans(s, name);
    OwnPlanIsBelow(s, p);
    hide PlansLinked, Under, PlansGone;
    forall i | i in ps ensures p !in PlansGone(s, i, UsersWithin(s, i, DEEP)) {
      OtherPlan(s, i, p, p);
    }
  }

  // ----- the user itself

  lemma OwnsNothing(r: Accounts, name: string)
    requires PlansLinked(r) && name in r.users && forall q :: q !in r.users[name].subPlans
    ensures forall q :: q in r.plans ==> r.plans[q].owner != name
  {
  }

  lemma WithoutUserClimbs(r: Accounts, name: string)
    requires Climbs(r) && name in r.users
    ensures Climbs(WithoutUser(r, name))
  {
  }

  lemma WithoutUserLinked(r: Accounts, name: string)
    requires UsersLinked(r) && name in r.users
    ensures UsersLinked(WithoutUser(r, name))
  {
    var t := WithoutUser(r, name);
    assert t.users == r.users - {name};
    forall q | q in r.plans
      ensures q in t.plans && NoDup(t.plans[q].users)
      ensures forall u :: u in t.plans[q].users <==> u in r.plans[q].users && u != name
    {
      WithoutIs(r.plans[q].users, name);
    }
    assert t.plans.Keys == r.plans.Keys;
    hide WithoutUser, Without, NoDup;
    ListsWithout(r, t, name);
  }

  lemma ListsWithout(r: Accounts, t: Accounts, name: string)
    requires UsersLinked(r) && t.users == r.users - {name} && t.plans.Keys == r.plans.Keys
    requires forall q :: q in r.plans ==> NoDup(t.plans[q].users)
    requires forall q, u :: q in r.plans ==> (u in t.plans[q].users <==> u in r.plans[q].users && u != name)
    ensures UsersLinked(t)
  {
  }

  lemma WithoutUserOwners(r: Accounts, name: string)
    requires PlansLinked(r) && name in r.users && forall q :: q in r.plans ==> r.plans[q].owner != name
    ensures PlansLinked(WithoutUser(r, name))
  {
  }

  lemma WithoutUserDomains(r: Accounts, name: string)
    requires DomainsLinked(r) && name in r.users
    ensures DomainsLinked(WithoutUser(r, name))
  {
  }

  lemma WithoutUserAgrees(r: Accounts, name: string)
    requires Climbs(r) && name in r.users && forall q :: q in r.plans ==> r.plans[q].owner != name
    ensures var t := WithoutUser(r, name);
      && Agrees(t, r, t.users.Keys, false) && (forall d :: d in t.domains ==>
        d in r.domains && t.domains[d] == r.domains[d])
      && (forall p :: p in t.plans ==> p in r.plans && t.plans[p].opts == r.plans[p].opts)
  {
  }

  /** Deleting a user takes exactly the user and what is below it, and leaves a forest
      within its quotas. */
  lemma UserDeletion(s: Accounts, name: string)
    requires Forest(s) && name in s.users && ShallowUser(s, name)
    ensures var t := WithoutUser(WithoutPlans(s, s.users[name].subPlans), name);
      && Forest(t) && (Quotas(s) ==> Quotas(t))
      && (forall v :: v in t.users <==> v in s.users && !UnderUser(s, v, name, true))
      && (forall q :: q in t.plans <==>
            q in s.plans && !(s.plans[q].owner in s.users && UnderUser(s, s.plans[q].owner, name, true)))
      && (forall d :: d in t.domains <==> d in s.domains && !UnderUser(s, s.domains[d].owner, name, true))
  {
    hide UsersLinked, PlansLinked, DomainsLinked, Climbs, Reduced, Quotas, Agrees, WithoutUser, WithoutPlans, UnderUser;
    var sub := s.users[name].subPlans;
    var r := WithoutPlans(s, sub);
    OwnPlans(s, name);
    PlansDeleted(s, name, sub);
    AllGone(s, r, name);
    OwnsNothing(r, name);
    WithoutUserLinked(r, name);
    WithoutUserClimbs(r, name);
    WithoutUserOwners(r, name);
    WithoutUserDomains(r, name);
    WithoutUserAgrees(r, name);
    if Quotas(s) {
      LessKeepsQuotas(r, WithoutUser(r, name));
    }
    UserAndBelow(s, r, name);
    DomainsOfUserAndBelow(s, r, name);
  }

  lemma AllGone(s: Accounts, r: Accounts, name: string)
    requires Climbs(s) && name in s.users && Reduced(s, r, name, s.users[name].subPlans)
    ensures name in r.users && forall q :: q !in r.users[name].subPlans
  {
  }

  /** A user below another is it, or below one of its plans. */
  lemma BelowUserIs(s: Accounts, v: string, name: string)
    requires Climbs(s) && PlansLinked(s) && v in s.users && name in s.users
    ensures UnderUser(s, v, name, true) <==> v == name || BelowAny(s, v, s.users[name].subPlans)
  {
    OwnPlans(s, name);
    hide PlansLinked, Under;
    if v != name && UnderUser(s, v, name, true) {
      var i :| ViaPlan(s, v, i, name, true);
      assert i in s.users[name].subPlans;
    }
    if BelowAny(s, v, s.users[name].subPlans) {
      var i :| i in s.users[name].subPlans && Under(s, v, i, true);
      assert ViaPlan(s, v, i, name, true);
    }
  }

  lemma UserAndBelow(s: Accounts, r: Accounts, name: string)
    requires Climbs(s) && PlansLinked(s) && name in s.users && Reduced(s, r, name, s.users[name].subPlans)
    ensures var t := WithoutUser(r, name);
      && (forall v :: v in t.users <==> v in s.users && !UnderUser(s, v, name, true))
      && (forall q :: q in t.plans <==>
            q in s.plans && !(s.plans[q].owner in s.users && UnderUser(s, s.plans[q].owner, name, true)))
  {
    OwnPlans(s, name);
    var sub := s.users[name].subPlans;
    hide PlansLinked, Climbs, BelowAny, UnderUser, Without, ReducedValues, ReducedOwned, ReducedDomains;
    forall v | v in s.users ensures UnderUser(s, v, name, true) <==> v == name || v !in r.users {
      BelowUserIs(s, v, name);
    }
  }

  lemma DomainsOfUserAndBelow(s: Accounts, r: Accounts, name: string)
    requires Climbs(s) && PlansLinked(s) && DomainsLinked(s) && name in s.users
    requires Reduced(s, r, name, s.users[name].subPlans)
    ensures var t := WithoutUser(r, name);
      forall d :: d in t.domains <==> d in s.domains && !UnderUser(s, s.domains[d].owner, name, true)
  {
    assert forall d :: d in s.domains ==> s.domains[d].Domain? && s.domains[d].owner in s.users;
    hide PlansLinked, DomainsLinked, Climbs, BelowAny, UnderUser, Without, ReducedOwned, ReducedPlans;
    forall v | v in s.users ensures UnderUser(s, v, name, true) <==> v == name || v !in r.users {
      BelowUserIs(s, v, name);
    }
  }

  // ----- and when somebody is too far below one of the user's plans

  /** Otherwise a user is left whose plan is gone. */
  lemma DeepUserDeletionBreaks(s: Accounts, name: string)
    requires Forest(s) && name in s.users && !ShallowUser(s, name)
    ensures !UsersLinked(WithoutUser(WithoutPlans(s, s.users[name].subPlans), name))
  {
    OwnPlans(s, name);
    hide UsersLinked, PlansLinked, DomainsLinked, Climbs, Under, LeftWithout, UsersWithin, PlansGone;
    var sub := s.users[name].subPlans;
    var p :| p in sub && !Shallow(s, p);
    var u := FoundTooDeep(s, p);
    forall i | i in sub && i != p ensures u !in UsersWithin(s, i, DEEP) {
      OtherBranch(s, i, p, u);
    }
    OwnPlanIsBelow(s, p);
    PlansErased(s, name, sub);
    LeftAlone(s, WithoutPlans(s, sub), name, sub, p, u);
  }

  lemma StillAlone(r: Accounts, name: string, u: string)
    requires u in r.users && u != name && r.users[u].plan !in r.plans
    ensures !UsersLinked(WithoutUser(r, name))
  {
    hide Without;
    var t := WithoutUser(r, name);
    assert u in t.users && t.users[u].plan !in t.plans;
  }

  lemma LeftAlone(s: Accounts, r: Accounts, name: string, ps: seq<string>, p: string, u: string)
    requires Climbs(s) && LeftWithout(s, r, name, ps) && u in s.users && u != name
    requires p in ps && p in s.plans && s.users[u].plan in PlansGone(s, p, UsersWithin(s, p, DEEP))
    requires forall i :: i in ps && i in s.plans ==> u !in UsersWithin(s, i, DEEP)
    ensures !UsersLinked(WithoutUser(r, name))
  {
    hide Climbs, UsersWithin, PlansGone, DomainsGone, Without, DomainGone, SameButPlans, WithoutUser, UsersLinked;
    assert PlanGone(s, s.users[u].plan, ps) && !UserGone(s, u, ps);
    assert u in r.users && r.users[u].plan == s.users[u].plan && r.users[u].plan !in r.plans;
    StillAlone(r, name, u);
  }
}
