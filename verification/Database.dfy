/** The account tables as the panel keeps them, updated in place. */
module Database {
  import opened Wrappers
  import opened Accounts
  import opened AccountSteps
  import opened AccountQuotas
  import opened AccountDeletion
  import opened AccountLimits
  import opened AccountRuns
  import opened AccountEffects

  datatype Refusal =
    | PlanCannotAddPlans
    | PlanCannotAddUsers
    | PlanCannotAddMoreUsers(max: int)
    | PlanCannotAddMoreDomains(max: int)
    | PlanCannotAddMore(what: string, most: int)
    | PlanParentCannotAddMore(kind: Kind)
    | UserSuspended

  /** An operation is carried out, refused with a message, or fails with an exception. */
  datatype Result = Done | Refused(why: Refusal) | Thrown

  /** The links that the walks follow are right. */
  ghost predicate Walkable(s: Accounts) {
    UsersLinked(s) && PlansLinked(s) && Climbs(s)
  }

  lemma SubPlanFuel(s: Accounts, u: string, i: string)
    requires Walkable(s) && u in s.users && i in s.users[u].subPlans
    ensures i in s.plans && i in s.depth && s.users[u].plan in s.depth
    ensures Fuel(s, i) == Fuel(s, s.users[u].plan) - 1 && Fuel(s, i) >= 1
  {
  }

  lemma UserFuel(s: Accounts, u: string)
    requires Walkable(s) && u in s.users
    ensures s.users[u].plan in s.plans && s.users[u].plan in s.depth && Fuel(s, s.users[u].plan) >= 1
  {
  }

  lemma PlanFuel(s: Accounts, p: string)
    requires Walkable(s) && p in s.plans
    ensures p in s.depth && Fuel(s, p) >= 1
  {
  }

  lemma TakeMore<T>(xs: seq<T>, k: nat)
    requires k < |xs|
    ensures xs[..k + 1] == xs[..k] + [xs[k]] && xs[..k + 1][..k] == xs[..k] && xs[k] in xs
  {
  }

  /** The next plan of a user adds its own list, if it is not suspended. */
  lemma NextPlan(s: Accounts, u: string, k: nat)
    requires Walkable(s) && u in s.users && k < |s.users[u].subPlans|
    ensures var ps, deep := s.users[u].subPlans, Fuel(s, s.users[u].plan);
      var i := ps[k];
      && i in s.plans && i in s.depth && s.depth[i] == s.depth[s.users[u].plan] + 1 && s.depth[i] <= s.height
      && PlanList(s, ps[..k + 1], false, deep - 1) == PlanList(s, ps[..k], false, deep - 1)
        + if s.plans[i].suspended == [] then UserList(s, s.plans[i].users, false, Fuel(s, i)) else []
  {
    var ps := s.users[u].subPlans;
    TakeMore(ps, k);
    SubPlanFuel(s, u, ps[k]);
    hide UsersLinked, PlansLinked, UserList;
  }

  lemma NoPlans(s: Accounts, deep: int)
    ensures PlanList(s, [], false, deep) == [] && DomainSum(s, []) == 0
  {
  }

  /** All plans of a user are in its branch. */
  lemma WholeBranch(s: Accounts, u: string)
    requires Walkable(s) && u in s.users
    ensures UserBranch(s, u, false, Fuel(s, s.users[u].plan)) ==
      [u] + PlanList(s, s.users[u].subPlans, false, Fuel(s, s.users[u].plan) - 1)
  {
  }

  lemma {:induction false} DomainSumCat(s: Accounts, a: seq<string>, b: seq<string>)
    ensures DomainSum(s, a + b) == DomainSum(s, a) + DomainSum(s, b)
    decreases |b|
  {
    if |b| == 0 {
      assert a + b == a;
    } else {
      assert (a + b)[..|a + b| - 1] == a + b[..|b| - 1];
      DomainSumCat(s, a, b[..|b| - 1]);
    }
  }

  lemma DomainSumOne(s: Accounts, u: string)
    ensures DomainSum(s, [u]) == DomainCount(s, u)
  {
  }

  // ----- what the traversals find

  ghost predicate PlanBelowUser(s: Accounts, q: string, u: string, deep: int)
    requires Climbs(s) && u in s.users
  {
    q in s.plans && s.plans[q].owner in s.users && UserWithin(s, s.plans[q].owner, u, deep)
  }

  ghost predicate PlanVia(s: Accounts, q: string, o: string, deep: int)
    requires Climbs(s) && o in s.plans
  {
    q == o || (deep > 1 && BelowOneOf(s, q, s.plans[o].users, deep - 1))
  }

  ghost predicate ViaAny(s: Accounts, q: string, ps: seq<string>, deep: int)
    requires Climbs(s)
  {
    exists o :: o in ps && o in s.plans && PlanVia(s, q, o, deep)
  }

  lemma ViaNone(s: Accounts, q: string, deep: int)
    requires Climbs(s)
    ensures !ViaAny(s, q, [], deep)
  {
  }

  lemma ViaOneMore(s: Accounts, q: string, ps: seq<string>, p: string, deep: int)
    requires Climbs(s) && p in s.plans
    ensures ViaAny(s, q, ps + [p], deep) <==> ViaAny(s, q, ps, deep) || PlanVia(s, q, p, deep)
  {
  }

  ghost predicate BelowOneOf(s: Accounts, q: string, us: seq<string>, deep: int)
    requires Climbs(s)
  {
    exists i :: i in us && i in s.users && PlanBelowUser(s, q, i, deep)
  }

  lemma BelowNone(s: Accounts, q: string, deep: int)
    requires Climbs(s)
    ensures !BelowOneOf(s, q, [], deep)
  {
  }

  lemma BelowOneMore(s: Accounts, q: string, us: seq<string>, u: string, deep: int)
    requires Climbs(s) && u in s.users
    ensures BelowOneOf(s, q, us + [u], deep) <==> BelowOneOf(s, q, us, deep) || PlanBelowUser(s, q, u, deep)
  {
  }

  /** The plans below a user are its own and those below the users of its own. */
  lemma PlanBelowIs(s: Accounts, q: string, u: string, deep: int)
    requires Walkable(s) && u in s.users
    ensures forall o :: o in s.users[u].subPlans ==> o in s.plans
    ensures PlanBelowUser(s, q, u, deep) <==> ViaAny(s, q, s.users[u].subPlans, deep)
  {
    hide UsersLinked, PlansLinked, Climbs, Under, UnderUser;
    OwnPlans(s, u);
    if PlanBelowUser(s, q, u, deep) {
      var o := FoundVia(s, q, u, deep);
    }
    if ViaAny(s, q, s.users[u].subPlans, deep) {
      var o :| o in s.users[u].subPlans && PlanVia(s, q, o, deep);
      ViaIsBelow(s, q, u, o, deep);
    }
  }

  lemma FoundVia(s: Accounts, q: string, u: string, deep: int) returns (o: string)
    requires Walkable(s) && u in s.users && PlanBelowUser(s, q, u, deep)
    ensures o in s.users[u].subPlans && o in s.plans && PlanVia(s, q, o, deep)
  {
    OwnPlans(s, u);
    hide UsersLinked, PlansLinked, Under;
    var w := s.plans[q].owner;
    if w == u {
      o := q;
    } else {
      o :| ViaPlan(s, w, o, u, true);
      UnderIsDeeper(s, w, o, true);
      var i := UnderAUser(s, w, o, true);
      OwnUsers(s, o);
      assert PlanBelowUser(s, q, i, deep - 1);
    }
  }

  lemma ViaIsBelow(s: Accounts, q: string, u: string, o: string, deep: int)
    requires Walkable(s) && u in s.users && o in s.users[u].subPlans && o in s.plans && PlanVia(s, q, o, deep)
    ensures PlanBelowUser(s, q, u, deep)
  {
    OwnPlans(s, u);
    hide UsersLinked, PlansLinked, Under;
    if q != o {
      var i :| i in s.plans[o].users && i in s.users && PlanBelowUser(s, q, i, deep - 1);
      OwnUsers(s, o);
      var w := s.plans[q].owner;
      UserIsUnder(s, w, i, o, true);
      assert ViaPlan(s, w, o, u, true);
    }
  }

  ghost function Elements(xs: seq<string>): set<string> {
    set x | x in xs
  }

  ghost predicate DomainBelowUser(s: Accounts, d: string, u: string, deep: int)
    requires Climbs(s) && u in s.users
  {
    d in s.domains && s.domains[d].Domain? && s.domains[d].owner in s.users
      && UserWithin(s, s.domains[d].owner, u, deep)
  }

  ghost predicate PlanOfAny(s: Accounts, q: string, us: seq<string>)
    requires Climbs(s) && forall u :: u in us ==> u in s.users
  {
    exists u :: u in us && PlanBelowUser(s, q, u, DEEP)
  }

  ghost predicate DomainBelowAny(s: Accounts, d: string, us: seq<string>)
    requires Climbs(s) && forall u :: u in us ==> u in s.users
  {
    exists u :: u in us && DomainBelowUser(s, d, u, DEEP)
  }

  lemma OfNone(s: Accounts, q: string)
    requires Climbs(s)
    ensures !PlanOfAny(s, q, []) && !DomainBelowAny(s, q, [])
  {
  }

  lemma OfOneMore(s: Accounts, q: string, us: seq<string>, u: string)
    requires Climbs(s) && (forall v :: v in us ==> v in s.users) && u in s.users
    ensures PlanOfAny(s, q, us + [u]) <==> PlanOfAny(s, q, us) || PlanBelowUser(s, q, u, DEEP)
    ensures DomainBelowAny(s, q, us + [u]) <==> DomainBelowAny(s, q, us) || DomainBelowUser(s, q, u, DEEP)
  {
  }

  ghost predicate DomainOfAny(s: Accounts, d: string, us: seq<string>) {
    exists v :: v in us && v in s.users && d in s.users[v].domains
  }

  /** The users found in the plans of a user are those below it. */
  lemma InSubPlans(s: Accounts, u: string, deep: int, v: string)
    requires Walkable(s) && u in s.users && deep >= 1
    ensures v in PlanList(s, s.users[u].subPlans, true, deep) <==>
      v in s.users && v != u && UserWithin(s, v, u, deep + 1)
  {
    OwnPlans(s, u);
    UserFuel(s, u);
    hide UsersLinked, PlansLinked, Under, UnderUser, PlanList;
    InPlanList(s, s.users[u].subPlans, true, deep, v);
    if v in s.users && v != u {
      BelowPlans(s, s.users[u].plan, u, true, deep + 1, v);
    }
    if u in PlanList(s, s.users[u].subPlans, true, deep) {
      InPlanList(s, s.users[u].subPlans, true, deep, u);
      var i :| i in s.users[u].subPlans && InOpenPlan(s, u, i, true, deep);
      UnderIsDeeper(s, u, i, true);
    }
  }

  lemma DomainBelowIs(s: Accounts, d: string, u: string, deep: int)
    requires Walkable(s) && DomainsLinked(s) && u in s.users
    ensures DomainBelowUser(s, d, u, deep) <==>
      d in s.users[u].domains || (deep > 1 && DomainOfAny(s, d, PlanList(s, s.users[u].subPlans, true, deep - 1)))
  {
    HasDomains(s, u);
    UserIsWithin(s, u, deep);
    if deep > 1 {
      if DomainOfAny(s, d, PlanList(s, s.users[u].subPlans, true, deep - 1)) {
        var v :| v in PlanList(s, s.users[u].subPlans, true, deep - 1) && v in s.users && d in s.users[v].domains;
        HasDomains(s, v);
        InSubPlans(s, u, deep - 1, v);
      }
    }
    if DomainBelowUser(s, d, u, deep) && s.domains[d].owner != u {
      var v := s.domains[d].owner;
      HasDomains(s, v);
      OtherIsDeeper(s, v, u, deep);
      InSubPlans(s, u, deep - 1, v);
    }
  }

  lemma UserIsWithin(s: Accounts, u: string, deep: int)
    requires Climbs(s) && u in s.users
    ensures UserWithin(s, u, u, deep)
  {
  }

  lemma OtherIsDeeper(s: Accounts, v: string, u: string, deep: int)
    requires Climbs(s) && u in s.users && v != u && UserWithin(s, v, u, deep)
    ensures deep > 1
  {
    var i :| ViaPlan(s, v, i, u, true);
    UnderIsDeeper(s, v, i, true);
  }

  /** The users the deletion finds. */
  lemma Gathered(s: Accounts, p: string, us: seq<string>)
    requires Walkable(s) && p in s.plans && us == UserList(s, s.plans[p].users, true, DEEP)
    ensures Elements(us) == UsersWithin(s, p, DEEP) && forall u :: u in us ==> u in s.users
  {
    hide UsersLinked, PlansLinked, Under, UserList;
    forall v ensures v in us <==> v in s.users && Under(s, v, p, true) && Level(s, v, p) < DEEP {
      InPlan(s, p, true, DEEP, v);
    }
  }

  /** The plans and domains the deletion finds. */
  lemma GatheredBelow(s: Accounts, p: string, us: seq<string>, ps: seq<string>, ds: seq<string>)
    requires Forest(s) && p in s.plans && (forall u :: u in us ==> u in s.users)
      && Elements(us) == UsersWithin(s, p, DEEP)
    requires forall q :: q in ps <==> PlanOfAny(s, q, us)
    requires forall d :: d in ds <==> DomainBelowAny(s, d, us)
    ensures {p} + Elements(ps) == PlansGone(s, p, UsersWithin(s, p, DEEP))
    ensures Elements(ds) == DomainsGone(s, UsersWithin(s, p, DEEP))
  {
    hide UsersLinked, PlansLinked, DomainsLinked, UnderUser, UsersWithin;
    var U := Elements(us);
    forall q ensures q in ps <==>
      q in s.plans && s.plans[q].owner in s.users && OwnedWithin(s, s.plans[q].owner, U, DEEP) {
    }
    forall d ensures d in ds <==>
      d in s.domains && s.domains[d].Domain? && s.domains[d].owner in s.users
        && OwnedWithin(s, s.domains[d].owner, U, DEEP)
    {
    }
  }

  // ----- tables that are as they were below a plan

  /** Below plan p the tables t are as s. */
  ghost predicate Intact(s: Accounts, t: Accounts, p: string)
    requires Climbs(s)
  {
    && (p in s.plans <==> p in t.plans)
    && (forall u :: u in s.users && Under(s, u, p, true) ==> u in t.users && t.users[u] == s.users[u])
    && (forall q :: AtOrAbove(s, q, p) ==> q in t.plans && t.plans[q] == s.plans[q])
  }

  ghost predicate IntactUser(s: Accounts, t: Accounts, u: string)
    requires Climbs(s)
  {
    && (u in s.users <==> u in t.users)
    && (u in s.users ==> t.users[u] == s.users[u] && forall i :: i in s.users[u].subPlans ==> Intact(s, t, i))
  }

  lemma IntactBelow(s: Accounts, t: Accounts, p: string, u: string)
    requires Walkable(s) && Intact(s, t, p) && u in s.users && Under(s, u, p, true)
    ensures IntactUser(s, t, u)
  {
    OwnPlans(s, u);
    hide UsersLinked, PlansLinked, Climbs, Under;
    forall i | i in s.users[u].subPlans ensures Intact(s, t, i) {
      IntactSubPlan(s, t, p, u, i);
    }
  }

  lemma IntactSubPlan(s: Accounts, t: Accounts, p: string, u: string, i: string)
    requires Climbs(s) && Intact(s, t, p) && u in s.users && Under(s, u, p, true)
    requires i in s.plans && s.plans[i].owner == u
    ensures Intact(s, t, i)
  {
    hide Climbs, Under;
    forall v | v in s.users && Under(s, v, i, true) ensures Under(s, v, p, true) {
      BelowOwned(s, v, i, p);
    }
  }

  lemma IntactAll(s: Accounts)
    requires Walkable(s)
    ensures (forall p :: Intact(s, s, p)) && forall u :: IntactUser(s, s, u)
  {
    hide Under;
  }

  lemma IntactUsersOf(s: Accounts, t: Accounts, p: string)
    requires Walkable(s) && p in s.plans && Intact(s, t, p)
    ensures p in t.plans && t.plans[p] == s.plans[p]
    ensures forall u :: u in s.plans[p].users ==> u in s.users && IntactUser(s, t, u)
  {
    OwnUsers(s, p);
    hide UsersLinked, PlansLinked, Climbs, Intact, IntactUser;
    IntactSelf(s, t, p);
    forall u | u in s.plans[p].users ensures IntactUser(s, t, u) {
      InOwnPlan(s, u);
      IntactBelow(s, t, p, u);
    }
  }

  lemma IntactSelf(s: Accounts, t: Accounts, p: string)
    requires Climbs(s) && Intact(s, t, p) && p in s.plans
    ensures p in t.plans && t.plans[p] == s.plans[p]
  {
    assert AtOrAbove(s, p, p);
  }

  lemma UserIsKnown(s: Accounts, t: Accounts, u: string)
    requires Climbs(s) && IntactUser(s, t, u)
    ensures (u in s.users <==> u in t.users) && (u in s.users ==> t.users[u] == s.users[u])
  {
  }

  lemma PlanIsKnown(s: Accounts, t: Accounts, p: string)
    requires Climbs(s) && Intact(s, t, p)
    ensures p in s.plans <==> p in t.plans
  {
  }

  lemma GatheredIntact(s: Accounts, t: Accounts, p: string, us: seq<string>)
    requires Walkable(s) && p in s.plans && Intact(s, t, p) && Elements(us) == UsersWithin(s, p, DEEP)
    ensures forall u :: u in us ==> u in s.users && IntactUser(s, t, u)
  {
    hide UsersLinked, PlansLinked, Climbs, Intact, IntactUser;
    forall u | u in us ensures u in s.users && IntactUser(s, t, u) {
      assert u in Elements(us);
      IntactBelow(s, t, p, u);
    }
  }

  lemma InOwnPlan(s: Accounts, u: string)
    requires Climbs(s) && u in s.users
    ensures Under(s, u, s.users[u].plan, true)
  {
  }

  /** The users below a user are as they were. */
  lemma IntactListed(s: Accounts, t: Accounts, u: string, deep: int, v: string)
    requires Walkable(s) && IntactUser(s, t, u) && u in s.users && deep >= 1
    requires v in PlanList(s, s.users[u].subPlans, true, deep)
    ensures v in s.users && v in t.users && t.users[v] == s.users[v]
  {
    OwnPlans(s, u);
    hide UsersLinked, PlansLinked, Climbs, Under, PlanList;
    InPlanList(s, s.users[u].subPlans, true, deep, v);
  }

  /** While the plans of a user are deleted, those still there are as they were. */
  lemma StillIntact(s: Accounts, name: string, k: nat)
    requires Forest(s) && name in s.users && k < |s.users[name].subPlans|
    ensures var ps := s.users[name].subPlans;
      var r := WithoutPlans(s, ps[..k]);
      ps[k] in r.plans && r.plans[ps[k]].owner in r.users && ps[k] in s.plans && Intact(s, r, ps[k])
  {
    OwnPlans(s, name);
    hide UsersLinked, PlansLinked, DomainsLinked, Climbs, Under, UsersWithin, PlansGone, LeftWithout, Intact;
    var ps := s.users[name].subPlans;
    TakeMore(ps, k);
    NotYet(ps, k);
    assert NoDup(ps[..k]);
    PlansErased(s, name, ps[..k]);
    StillLeft(s, WithoutPlans(s, ps[..k]), name, ps[..k], ps[k]);
    LeftName(s, WithoutPlans(s, ps[..k]), name, ps[..k]);
    LeftIntact(s, WithoutPlans(s, ps[..k]), name, ps[..k], ps[k]);
  }

  lemma LeftName(s: Accounts, r: Accounts, name: string, ps: seq<string>)
    requires Climbs(s) && LeftWithout(s, r, name, ps)
    ensures name in r.users
  {
  }

  lemma LeftIntact(s: Accounts, r: Accounts, name: string, ps: seq<string>, p: string)
    requires Walkable(s) && name in s.users && LeftWithout(s, r, name, ps)
    requires p in s.users[name].subPlans && p !in ps && forall i :: i in ps ==> i in s.users[name].subPlans
    ensures p in s.plans && s.plans[p].owner == name && Intact(s, r, p)
  {
    hide UsersLinked, PlansLinked, Climbs, Under, UserGone, PlanGone, LeftWithout, Intact, NoDup, AtOrAbove;
    OwnPlans(s, name);
    OwnPlanIsBelow(s, p);
    forall v | v in s.users && Under(s, v, p, true) ensures !UserGone(s, v, ps) {
      UserStays(s, name, ps, p, v);
    }
    forall q | AtOrAbove(s, q, p) ensures !PlanGone(s, q, ps) {
      PlanStays(s, name, ps, p, q);
    }
    NotGoneIntact(s, r, name, ps, p);
  }

  lemma NotGoneIntact(s: Accounts, r: Accounts, name: string, ps: seq<string>, p: string)
    requires Climbs(s) && name in s.users && LeftWithout(s, r, name, ps) && p in s.plans && !Under(s, name, p, true)
    requires forall v :: v in s.users && Under(s, v, p, true) ==> !UserGone(s, v, ps)
    requires forall q :: AtOrAbove(s, q, p) ==> !PlanGone(s, q, ps)
    ensures Intact(s, r, p)
  {
    hide Climbs, Under, UserGone, PlanGone, DomainGone;
    assert AtOrAbove(s, p, p);
  }

  lemma UserStays(s: Accounts, name: string, ps: seq<string>, p: string, v: string)
    requires Walkable(s) && name in s.users && v in s.users && Under(s, v, p, true)
    requires p in s.users[name].subPlans && p !in ps && forall i :: i in ps ==> i in s.users[name].subPlans
    ensures !UserGone(s, v, ps)
  {
    OwnPlans(s, name);
    hide UsersLinked, PlansLinked, Climbs, Under, UsersWithin;
    forall i | i in ps ensures v !in UsersWithin(s, i, DEEP) {
      OtherBranch(s, i, p, v);
    }
  }

  lemma PlanStays(s: Accounts, name: string, ps: seq<string>, p: string, q: string)
    requires Walkable(s) && name in s.users && AtOrAbove(s, q, p)
    requires p in s.users[name].subPlans && p !in ps && forall i :: i in ps ==> i in s.users[name].subPlans
    ensures !PlanGone(s, q, ps)
  {
    OwnPlans(s, name);
    hide UsersLinked, PlansLinked, Climbs, Under, UsersWithin, PlansGone, AtOrAbove;
    forall i | i in ps ensures q !in PlansGone(s, i, UsersWithin(s, i, DEEP)) {
      OtherPlan(s, i, p, q);
    }
  }

  lemma NotYet(ps: seq<string>, k: nat)
    requires NoDup(ps) && k < |ps|
    ensures ps[k] !in ps[..k]
  {
  }

  // ----- what the walks see

  /** The tables differ in the table of domains only. */
  ghost predicate OnlyDomains(s: Accounts, t: Accounts) {
    t == s.(domains := t.domains)
  }

  lemma WalksOn(s: Accounts, t: Accounts)
    requires Walkable(s) && OnlyDomains(s, t)
    ensures Walkable(t)
  {
    hide UsersLinked, PlansLinked, Climbs;
    SameUsersLinked(s, t);
    SamePlansLinked(s, t);
    PlansOfUsers(s);
    FewerClimb(s, t);
  }

  lemma {:induction false} SameUserList(s: Accounts, t: Accounts, us: seq<string>, deep: int)
    requires OnlyDomains(s, t)
    ensures UserList(t, us, false, deep) == UserList(s, us, false, deep)
    decreases deep, 0, |us|
  {
    if |us| > 0 {
      var u := us[|us| - 1];
      SameUserList(s, t, us[..|us| - 1], deep);
      if u in s.users && deep > 1 {
        SamePlanList(s, t, s.users[u].subPlans, deep - 1);
      }
    }
  }

  lemma {:induction false} SamePlanList(s: Accounts, t: Accounts, ps: seq<string>, deep: int)
    requires OnlyDomains(s, t)
    ensures PlanList(t, ps, false, deep) == PlanList(s, ps, false, deep)
    decreases deep, 1, |ps|
  {
    if |ps| > 0 {
      var p := ps[|ps| - 1];
      SamePlanList(s, t, ps[..|ps| - 1], deep);
      if p in s.plans {
        SameUserList(s, t, s.plans[p].users, deep);
      }
    }
  }

  lemma {:induction false} SameDomainSum(s: Accounts, t: Accounts, us: seq<string>)
    requires OnlyDomains(s, t)
    ensures DomainSum(t, us) == DomainSum(s, us)
  {
    if |us| > 0 {
      SameDomainSum(s, t, us[..|us| - 1]);
    }
  }

  lemma SameHasRoom(s: Accounts, t: Accounts, p: string, kind: Kind)
    requires OnlyDomains(s, t) && p in s.plans && p in s.depth
    ensures HasRoom(t, p, kind) <==> HasRoom(s, p, kind)
  {
    SameUserList(s, t, s.plans[p].users, Fuel(s, p));
    SameDomainSum(s, t, UserList(s, s.plans[p].users, false, Fuel(s, p)));
    hide UserList, DomainSum;
  }

  lemma {:induction false} SameOwnersRoom(s: Accounts, t: Accounts, o: string, kind: Kind)
    requires Climbs(s) && Climbs(t) && OnlyDomains(s, t)
    ensures OwnersHaveRoom(t, o, kind) <==> OwnersHaveRoom(s, o, kind)
    decreases if o in s.users then s.depth[s.users[o].plan] + 1 else 0
  {
    hide HasRoom;
    if o in s.users && s.users[o].plan != "" {
      SameHasRoom(s, t, s.users[o].plan, kind);
      SameOwnersRoom(s, t, s.plans[s.users[o].plan].owner, kind);
    }
  }

  /** Whether there is room does not depend on the table of domains. */
  lemma SameMayHave(s: Accounts, t: Accounts, p: string, kind: Kind)
    requires Climbs(s) && Climbs(t) && OnlyDomains(s, t) && p in s.plans
    ensures MayHave(t, p, kind) <==> MayHave(s, p, kind)
  {
    SameHasRoom(s, t, p, kind);
    SameOwnersRoom(s, t, s.plans[p].owner, kind);
    hide HasRoom, OwnersHaveRoom, Climbs;
  }

  /** Adding a domain that has nobody to one user and taking it from another moves it. */
  lemma Moved(s: Accounts, name: string, owner: string)
    requires name in s.domains && s.domains[name].Domain? && s.domains[name].owner in s.users && owner in s.users
    requires owner != s.domains[name].owner
    ensures var user := s.domains[name].owner;
      var t := WithDomain(s.(domains := s.domains[name := Nobody]), owner, name);
      user in t.users &&
      t.(users := t.users[user := t.users[user].(domains := Without(t.users[user].domains, name))])
        == MovedDomain(s, name, owner)
  {
  }

  class Database {
    var plans: map<string, Plan>
    var users: map<string, User>
    var domains: map<string, Domain>
    var roots: seq<string>
    ghost var depth: map<string, nat>
    ghost var height: nat

    ghost function State(): Accounts
      reads this
    {
      Accounts(plans, users, domains, roots, depth, height)
    }

    constructor ()
      ensures State() == NO_ACCOUNTS
    {
      plans, users, domains, roots := map[], map[], map[], [];
      depth, height := map[], 0;
    }

    // ----- totals

    /** How many users a plan has, with those of plans below it that are not suspended. */
    method TotalUsers(p: string) returns (count: nat)
      requires Walkable(State()) && p in plans
      ensures p in depth && count == UserTotal(State(), p)
      decreases height - depth[p], 1
    {
      var us := plans[p].users;
      OwnUsers(State(), p);
      count := 0;
      for k := 0 to |us|
        invariant count == |UserList(State(), us[..k], false, Fuel(State(), p))|
      {
        TakeMore(us, k);
        var below := TotalBelow(us[k]);
        count := count + 1 + below;
      }
      assert us[..|us|] == us;
    }

    method TotalBelow(u: string) returns (count: nat)
      requires Walkable(State()) && u in users
      ensures 1 + count == |UserBranch(State(), u, false, Fuel(State(), users[u].plan))|
      decreases height - depth[users[u].plan], 0
    {
      hide UsersLinked, PlansLinked, Climbs, UserList, PlanList, UserBranch;
      UserFuel(State(), u);
      WholeBranch(State(), u);
      var subPlans := users[u].subPlans;
      ghost var deep := Fuel(State(), users[u].plan);
      count := 0;
      NoPlans(State(), deep - 1);
      assert subPlans[..0] == [];
      for k := 0 to |subPlans|
        invariant count == |PlanList(State(), subPlans[..k], false, deep - 1)|
      {
        NextPlan(State(), u, k);
        if plans[subPlans[k]].suspended == [] {
          var more := TotalUsers(subPlans[k]);
          count := count + more;
        }
      }
      assert subPlans[..|subPlans|] == subPlans;
    }

    /** How many domains the users of a plan have, with those of plans below it that are not suspended. */
    method TotalDomains(p: string) returns (count: nat)
      requires Walkable(State()) && p in plans
      ensures p in depth && count == DomainTotal(State(), p)
      decreases height - depth[p], 1
    {
      var us := plans[p].users;
      hide UsersLinked, PlansLinked, Climbs, UserBranch;
      OwnUsers(State(), p);
      PlanFuel(State(), p);
      count := 0;
      for k := 0 to |us|
        invariant count == DomainSum(State(), UserList(State(), us[..k], false, Fuel(State(), p)))
      {
        TakeMore(us, k);
        var below := DomainsBelow(us[k]);
        DomainSumCat(State(), UserList(State(), us[..k], false, Fuel(State(), p)),
          UserBranch(State(), us[k], false, Fuel(State(), p)));
        count := count + below;
      }
      assert us[..|us|] == us;
    }

    method DomainsBelow(u: string) returns (count: nat)
      requires Walkable(State()) && u in users
      ensures count == DomainSum(State(), UserBranch(State(), u, false, Fuel(State(), users[u].plan)))
      decreases height - depth[users[u].plan], 0
    {
      hide UsersLinked, PlansLinked, Climbs, UserList, PlanList, UserBranch;
      UserFuel(State(), u);
      WholeBranch(State(), u);
      count := 0;
      for k := 0 to |users[u].domains|
        invariant count == k
      {
        count := count + 1;
      }
      var subPlans := users[u].subPlans;
      ghost var deep := Fuel(State(), users[u].plan);
      NoPlans(State(), deep - 1);
      assert subPlans[..0] == [];
      for k := 0 to |subPlans|
        invariant count == |users[u].domains| + DomainSum(State(), PlanList(State(), subPlans[..k], false, deep - 1))
      {
        NextPlan(State(), u, k);
        if plans[subPlans[k]].suspended == [] {
          var more := TotalDomains(subPlans[k]);
          DomainSumCat(State(), PlanList(State(), subPlans[..k], false, deep - 1),
            UserList(State(), plans[subPlans[k]].users, false, Fuel(State(), subPlans[k])));
          count := count + more;
        } else {
          DomainSumCat(State(), PlanList(State(), subPlans[..k], false, deep - 1), []);
        }
      }
      assert subPlans[..|subPlans|] == subPlans;
      DomainSumCat(State(), [u], PlanList(State(), subPlans, false, deep - 1));
      DomainSumOne(State(), u);
    }

    method Full(p: string, kind: Kind) returns (full: bool)
      requires Walkable(State()) && p in plans
      ensures p in depth && (full <==> !HasRoom(State(), p, kind))
    {
      hide UsersLinked, PlansLinked, Climbs, UserTotal, DomainTotal;
      match kind
      case AUser =>
        var total := TotalUsers(p);
        full := total >= plans[p].opts.maxUserCount;
      case ADomain =>
        var total := TotalDomains(p);
        full := total >= plans[p].opts.maxDomainCount;
    }

    /** Whether a plan may have one more user or domain: the plan itself, and every plan on the way up. */
    method CheckRoom(p: string, kind: Kind) returns (refusal: Option<Refusal>)
      requires Walkable(State()) && p in plans
      ensures refusal == None <==> MayHave(State(), p, kind)
      ensures refusal == Some(UserSuspended) <==> plans[p].suspended != []
      ensures refusal == Some(PlanCannotAddUsers) <==>
        plans[p].suspended == [] && kind == AUser && !plans[p].opts.canCreateUser
      ensures refusal == Some(PlanParentCannotAddMore(kind)) <==>
        && plans[p].suspended == [] && (kind == AUser ==> plans[p].opts.canCreateUser)
        && p in depth && HasRoom(State(), p, kind) && !ChainHasRoom(State(), p, kind)
    {
      hide UsersLinked, PlansLinked, UserTotal, DomainTotal, HasRoom;
      if plans[p].suspended != [] {
        return Some(UserSuspended);
      }
      if kind == AUser && !plans[p].opts.canCreateUser {
        return Some(PlanCannotAddUsers);
      }
      var full := Full(p, kind);
      if full {
        return Some(PlanCannotAddMore(if kind == AUser then "user" else "domain",
          if kind == AUser then plans[p].opts.maxUserCount else plans[p].opts.maxDomainCount));
      }
      var owner := plans[p].owner;
      while owner in users
        invariant OwnersHaveRoom(State(), owner, kind) <==> OwnersHaveRoom(State(), plans[p].owner, kind)
        decreases if owner in users then depth[users[owner].plan] + 1 else 0
      {
        if users[owner].plan == "" {
          return None;
        }
        var plan := users[owner].plan;
        full := Full(plan, kind);
        if full {
          return Some(PlanParentCannotAddMore(kind));
        }
        if plans[plan].owner == "" {
          return None;
        }
        owner := plans[plan].owner;
      }
      refusal := None;
    }

    /** Whether a plan may be added below another one, with these options. */
    method CheckAddPlan(p: string, opts: PlanOpts) returns (refusal: Option<Refusal>)
      requires p in plans
      ensures refusal == None <==> MayAdd(plans[p].opts, opts)
      ensures refusal == Some(PlanCannotAddPlans) <==> !plans[p].opts.canCreatePlan
      ensures refusal == Some(PlanCannotAddUsers) <==>
        plans[p].opts.canCreatePlan && opts.canCreateUser && !plans[p].opts.canCreateUser
    {
      var parent := plans[p].opts;
      if !parent.canCreatePlan {
        return Some(PlanCannotAddPlans);
      }
      if opts.canCreateUser && !parent.canCreateUser {
        return Some(PlanCannotAddUsers);
      }
      if opts.maxUserCount > parent.maxUserCount {
        return Some(PlanCannotAddMoreUsers(parent.maxUserCount));
      }
      if opts.maxDomainCount > parent.maxDomainCount {
        return Some(PlanCannotAddMoreDomains(parent.maxDomainCount));
      }
      var fields := opts.planMaximums.Keys;
      while fields != {}
        invariant fields <= opts.planMaximums.Keys
        invariant forall f :: f in opts.planMaximums && f !in fields ==> !Exceeds(parent, opts, f)
        decreases fields
      {
        var field :| field in fields;
        if Exceeds(parent, opts, field) {
          return Some(PlanCannotAddMore(field, parent.planMaximums[field]));
        }
        fields := fields - {field};
      }
      refusal := None;
    }

    // ----- adding

    ghost predicate MayAddFor(owner: string, opts: PlanOpts)
      reads this
    {
      owner in users && users[owner].plan in plans && MayAdd(plans[users[owner].plan].opts, opts)
    }

    method AddPlan(owner: Option<string>, name: string, opts: PlanOpts) returns (r: Result)
      requires Forest(State())
      modifies this
      ensures State() == After(old(State()), Op.AddPlan(owner, name, opts))
      ensures r == Done <==> old(Accepted(State(), Op.AddPlan(owner, name, opts)))
      ensures r == Thrown <==> (
        || name in old(plans) || (owner.Some? && owner.value !in old(users))
        || ((opts.maxDomainCount == 0 || opts.maxUserCount == 0)
          && (owner.Some? ==> old(MayAddFor(owner.value, opts)))))
    {
      hide UsersLinked, PlansLinked, DomainsLinked, Climbs, MayAdd;
      PlansOfUsers(State());
      if name in plans {
        return Thrown;
      }
      if owner.Some? {
        if owner.value !in users {
          return Thrown;
        }
        var refusal := CheckAddPlan(users[owner.value].plan, opts);
        if refusal.Some? {
          return Refused(refusal.value);
        }
      }
      if opts.maxDomainCount == 0 || opts.maxUserCount == 0 {
        return Thrown;
      }
      ghost var t := WithPlan(State(), owner, name, opts);
      if owner.Some? {
        plans := plans[name := Plan(owner.value, [], [], opts)];
        users := users[owner.value := users[owner.value].(subPlans := With(users[owner.value].subPlans, name))];
      } else {
        plans := plans[name := Plan(SUPER_USER, [], [], opts)];
        roots := With(roots, name);
      }
      depth, height := t.depth, t.height;
      r := Done;
    }

    method AddUser(plan: string, name: string) returns (r: Result)
      requires Forest(State())
      modifies this`plans, this`users
      ensures State() == After(old(State()), Op.AddUser(plan, name))
      ensures r == Done <==> old(Accepted(State(), Op.AddUser(plan, name)))
      ensures r == Thrown <==> name in old(users) || plan !in old(plans)
    {
      hide UsersLinked, PlansLinked, DomainsLinked, Climbs, MayHave;
      if name in users {
        return Thrown;
      }
      if plan !in plans {
        return Thrown;
      }
      var refusal := CheckRoom(plan, AUser);
      if refusal.Some? {
        return Refused(refusal.value);
      }
      plans := plans[plan := plans[plan].(users := With(plans[plan].users, name))];
      users := users[name := User(plan, [], [])];
      r := Done;
    }

    /** Add a domain; the table of domains need not be right yet. */
    method AddDomain(owner: string, name: string) returns (r: Result)
      requires Walkable(State())
      modifies this`users, this`domains
      ensures r == Done <==>
        old(Vacant(State(), name) && owner in users && MayHave(State(), users[owner].plan, ADomain))
      ensures r == Thrown <==> old(!Vacant(State(), name)) || owner !in old(users)
      ensures State() == if r == Done then old(WithDomain(State(), owner, name)) else old(State())
      ensures old(Forest(State())) ==> State() == After(old(State()), Op.AddDomain(owner, name))
    {
      hide UsersLinked, PlansLinked, DomainsLinked, Climbs, MayHave;
      PlansOfUsers(State());
      if name in domains && domains[name] != Nobody {
        return Thrown;
      }
      if owner !in users {
        return Thrown;
      }
      var refusal := CheckRoom(users[owner].plan, ADomain);
      if refusal.Some? {
        return Refused(refusal.value);
      }
      users := users[owner := users[owner].(domains := With(users[owner].domains, name))];
      domains := domains[name := Domain(owner)];
      r := Done;
    }

    // ----- removing and changing domains, suspending

    method DeleteDomain(name: string) returns (r: Result)
      requires Forest(State())
      modifies this`users, this`domains
      ensures State() == After(old(State()), Op.DeleteDomain(name))
      ensures r == if name in old(domains) then Done else Thrown
    {
      hide UsersLinked, PlansLinked, DomainsLinked, Climbs;
      AllDomainsOwned(State());
      if name !in domains || domains[name] == Nobody {
        return Thrown;
      }
      var user := domains[name].owner;
      domains := domains - {name};
      users := users[user := users[user].(domains := Without(users[user].domains, name))];
      r := Done;
    }

    /** Give a domain to a user.  When the user does not exist this fails half-way, and the
        domain is left with nobody. */
    method UpdateDomain(name: string, owner: string) returns (r: Result)
      requires Forest(State())
      modifies this`users, this`domains
      ensures State() == After(old(State()), Op.GiveDomain(name, owner))
      ensures r == Thrown <==> name !in old(domains) || (owner != old(domains)[name].owner && owner !in old(users))
      ensures r == Done <==>
        name in old(domains) && (owner == old(domains)[name].owner
          || old(Accepted(State(), Op.GiveDomain(name, owner))))
    {
      hide UsersLinked, PlansLinked, DomainsLinked, Climbs, MayHave, WithDomain, MovedDomain, Without;
      AllDomainsOwned(State());
      PlansOfUsers(State());
      if name !in domains || domains[name] == Nobody {
        return Thrown;
      }
      var domain := domains[name];
      var user := domain.owner;
      if owner != user {
        ghost var s := State();
        domains := domains[name := Nobody];
        WalksOn(s, State());
        if owner in users {
          SameMayHave(s, State(), users[owner].plan, ADomain);
          Moved(s, name, owner);
        }
        r := AddDomain(owner, name);
        if r == Thrown {
          return;
        }
        if r.Refused? {
          domains := domains[name := domain];
          assert domains == old(domains);
          return;
        }
        users := users[user := users[user].(domains := Without(users[user].domains, name))];
      } else {
        domains := domains[name := Domain(user)];
        assert domains == old(domains);
        r := Done;
      }
    }

    method SuspendPlan(plan: string, reason: string) returns (r: Result)
      requires Forest(State())
      modifies this`plans
      ensures State() == After(old(State()), Op.SuspendPlan(plan, reason))
      ensures plan in old(plans) ==> OneMoreReason(old(State()), State(), plan, reason)
      ensures r == if plan in old(plans) then Done else Thrown
    {
      hide UsersLinked, PlansLinked, DomainsLinked, Climbs;
      if plan !in plans {
        return Thrown;
      }
      plans := plans[plan := plans[plan].(suspended := With(plans[plan].suspended, reason))];
      r := Done;
    }

    /** The first place of a reason in a list. */
    method IndexOfReason(reasons: seq<string>, reason: string) returns (at: Option<nat>)
      ensures if at.Some? then at.value < |reasons| && WithoutFirst(reasons, reason) ==
                reasons[..at.value] + reasons[at.value + 1..]
              else WithoutFirst(reasons, reason) == reasons
    {
      var i := 0;
      while i < |reasons|
        invariant i <= |reasons|
        invariant WithoutFirst(reasons, reason) == reasons[..i] + WithoutFirst(reasons[i..], reason)
      {
        if reasons[i] == reason {
          return Some(i);
        }
        assert reasons[i..][1..] == reasons[i + 1..];
        i := i + 1;
      }
      return None;
    }

    /** Take a reason back for which a plan is suspended; without a reason, all of them. */
    method UnSuspendPlan(plan: string, reason: string) returns (r: Result)
      requires Forest(State())
      modifies this`plans
      ensures State() == After(old(State()), Op.UnSuspendPlan(plan, reason))
      ensures r == if plan in old(plans) then Done else Thrown
    {
      hide UsersLinked, PlansLinked, DomainsLinked, Climbs, WithoutFirst;
      if plan !in plans {
        return Thrown;
      }
      var reasons := plans[plan].suspended;
      if reason != "" {
        var pos := IndexOfReason(reasons, reason);
        if pos.Some? {
          reasons := reasons[..pos.value] + reasons[pos.value + 1..];
        }
      } else {
        reasons := [];
      }
      plans := plans[plan := plans[plan].(suspended := reasons)];
      r := Done;
    }

    // ----- who and what is below

    // The walks go on while plans of a user are deleted one by one, so they ask only that
    // the tables are, below where they begin, as a forest s.

    /** The users of a plan, and of the plans below it as far as `deep` tells. */
    method GetUsersByPlanName(name: string, deep: int, ghost s: Accounts) returns (arr: Option<seq<string>>)
      requires Walkable(s) && Intact(s, State(), name)
      ensures arr == if name in plans then Some(UserList(s, plans[name].users, true, deep)) else None
      decreases if deep > 0 then deep else 0, 1
    {
      hide UsersLinked, PlansLinked, Climbs, Intact, IntactUser;
      if name !in plans {
        return None;
      }
      PlanIsKnown(s, State(), name);
      IntactUsersOf(s, State(), name);
      var us := plans[name].users;
      var found: seq<string> := [];
      for k := 0 to |us|
        invariant found == UserList(s, us[..k], true, deep)
      {
        TakeMore(us, k);
        found := found + [us[k]];
        UserIsKnown(s, State(), us[k]);
        if deep > 1 && us[k] in users {
          var more := GetUsersByUserName(us[k], deep - 1, s);
          found := found + more.value;
        }
      }
      assert us[..|us|] == us;
      arr := Some(found);
    }

    method GetUsersByUserName(name: string, deep: int, ghost s: Accounts) returns (arr: Option<seq<string>>)
      requires Walkable(s) && IntactUser(s, State(), name)
      ensures arr == if name in users then Some(PlanList(s, users[name].subPlans, true, deep)) else None
      decreases if deep > 0 then deep else 0, 2
    {
      hide UsersLinked, PlansLinked, Climbs, UserList, Intact;
      if name !in users {
        return None;
      }
      OwnPlans(s, name);
      var ps := users[name].subPlans;
      var found: seq<string> := [];
      for k := 0 to |ps|
        invariant found == PlanList(s, ps[..k], true, deep)
      {
        TakeMore(ps, k);
        IntactSelf(s, State(), ps[k]);
        var more := GetUsersByPlanName(ps[k], deep, s);
        found := found + more.value;
      }
      assert ps[..|ps|] == ps;
      arr := Some(found);
    }

    /** The plans of a user, and those below them as far as `deep` tells. */
    method GetPlansByUserName(name: string, deep: int, ghost s: Accounts) returns (arr: Option<seq<string>>)
      requires Walkable(s) && IntactUser(s, State(), name)
      ensures arr.Some? <==> name in users
      ensures arr.Some? ==> forall q :: q in arr.value <==> PlanBelowUser(s, q, name, deep)
      decreases if deep > 0 then deep else 0, 1
    {
      hide UsersLinked, PlansLinked, Climbs, PlanBelowUser, PlanVia, ViaAny, Intact;
      if name !in users {
        return None;
      }
      OwnPlans(s, name);
      var ps := users[name].subPlans;
      var found: seq<string> := [];
      forall q ensures !ViaAny(s, q, ps[..0], deep) {
        ViaNone(s, q, deep);
      }
      for k := 0 to |ps|
        invariant forall q :: q in found <==> ViaAny(s, q, ps[..k], deep)
      {
        TakeMore(ps, k);
        var more := PlansUnder(ps[k], deep, s);
        found := found + more;
        forall q ensures ViaAny(s, q, ps[..k + 1], deep) <==>
          ViaAny(s, q, ps[..k], deep) || PlanVia(s, q, ps[k], deep) {
          ViaOneMore(s, q, ps[..k], ps[k], deep);
        }
      }
      assert ps[..|ps|] == ps;
      forall q ensures q in found <==> PlanBelowUser(s, q, name, deep) {
        PlanBelowIs(s, q, name, deep);
      }
      arr := Some(found);
    }

    method PlansUnder(o: string, deep: int, ghost s: Accounts) returns (found: seq<string>)
      requires Walkable(s) && o in s.plans && Intact(s, State(), o)
      ensures forall q :: q in found <==> PlanVia(s, q, o, deep)
      decreases if deep > 0 then deep else 0, 0
    {
      hide UsersLinked, PlansLinked, Climbs, PlanBelowUser, BelowOneOf, Intact, IntactUser;
      IntactUsersOf(s, State(), o);
      found := [o];
      if deep > 1 {
        var us, rest := plans[o].users, deep - 1;
        forall q ensures !BelowOneOf(s, q, us[..0], rest) {
          BelowNone(s, q, rest);
        }
        for k := 0 to |us|
          invariant forall q :: q in found <==> q == o || BelowOneOf(s, q, us[..k], rest)
        {
          TakeMore(us, k);
          UserIsKnown(s, State(), us[k]);
          var more := GetPlansByUserName(us[k], rest, s);
          found := found + more.value;
          ghost var before, u := us[..k], us[k];
          forall q ensures BelowOneOf(s, q, before + [u], rest) <==>
            BelowOneOf(s, q, before, rest) || PlanBelowUser(s, q, u, rest)
          {
            BelowOneMore(s, q, before, u, rest);
          }
        }
        assert us[..|us|] == us;
      }
    }

    /** All domains, when no user is given. */
    method AllDomains() returns (found: seq<string>)
      ensures forall d :: d in found <==> d in domains
    {
      found := [];
      var left := domains.Keys;
      while left != {}
        invariant left <= domains.Keys && forall d :: d in found <==> d in domains && d !in left
        decreases left
      {
        var d :| d in left;
        found := found + [d];
        left := left - {d};
      }
    }

    /** The domains of a user and, when `deep` asks for it, of the users below. */
    method GetDomainsByUserName(name: Option<string>, deep: int, ghost s: Accounts) returns (arr: Option<seq<string>>)
      requires Forest(s) && (name.Some? ==> IntactUser(s, State(), name.value))
      ensures arr.Some? <==> name == None || name.value in users
      ensures arr.Some? ==>
        forall d :: d in arr.value <==> if name == None then d in domains else DomainBelowUser(s, d, name.value, deep)
    {
      hide UsersLinked, PlansLinked, DomainsLinked, Climbs, DomainBelowUser, Intact, IntactUser;
      if name == None {
        var all := AllDomains();
        return Some(all);
      }
      var u := name.value;
      UserIsKnown(s, State(), u);
      if u !in users {
        return None;
      }
      var found := users[u].domains;
      if deep > 1 {
        var below := GetUsersByUserName(u, deep - 1, s);
        var us := below.value;
        for k := 0 to |us|
          invariant forall d :: d in found <==> d in users[u].domains || DomainOfAny(s, d, us[..k])
        {
          TakeMore(us, k);
          IntactListed(s, State(), u, deep - 1, us[k]);
          found := found + users[us[k]].domains;
        }
        assert us[..|us|] == us;
      }
      forall d ensures d in found <==> DomainBelowUser(s, d, u, deep) {
        DomainBelowIs(s, d, u, deep);
      }
      arr := Some(found);
    }

    // ----- cascading deletions

    method DropUsers(names: seq<string>)
      modifies this`users
      ensures users == old(users) - Elements(names)
    {
      for k := 0 to |names|
        invariant users == old(users) - Elements(names[..k])
      {
        TakeMore(names, k);
        users := users - {names[k]};
      }
      assert names[..|names|] == names;
    }

    method DropDomains(names: seq<string>)
      modifies this`domains
      ensures domains == old(domains) - Elements(names)
    {
      for k := 0 to |names|
        invariant domains == old(domains) - Elements(names[..k])
      {
        TakeMore(names, k);
        domains := domains - {names[k]};
      }
      assert names[..|names|] == names;
    }

    method DropPlans(names: seq<string>)
      modifies this`plans
      ensures plans == old(plans) - Elements(names)
    {
      for k := 0 to |names|
        invariant plans == old(plans) - Elements(names[..k])
      {
        TakeMore(names, k);
        plans := plans - {names[k]};
      }
      assert names[..|names|] == names;
    }

    /** All plans and domains below these users, as far as the deletion looks. */
    method CollectBelow(us: seq<string>, ghost s: Accounts) returns (ps: seq<string>, ds: seq<string>)
      requires Forest(s) && forall u :: u in us ==> u in s.users && IntactUser(s, State(), u)
      ensures forall q :: q in ps <==> PlanOfAny(s, q, us)
      ensures forall d :: d in ds <==> DomainBelowAny(s, d, us)
    {
      hide UsersLinked, PlansLinked, DomainsLinked, Climbs, DomainBelowUser, PlanBelowUser, PlanOfAny, DomainBelowAny,
        Intact, IntactUser;
      ps, ds := [], [];
      forall q ensures !PlanOfAny(s, q, us[..0]) && !DomainBelowAny(s, q, us[..0]) {
        OfNone(s, q);
      }
      for k := 0 to |us|
        invariant forall q :: q in ps <==> PlanOfAny(s, q, us[..k])
        invariant forall d :: d in ds <==> DomainBelowAny(s, d, us[..k])
      {
        TakeMore(us, k);
        UserIsKnown(s, State(), us[k]);
        var morePlans := GetPlansByUserName(us[k], DEEP, s);
        ps := ps + morePlans.value;
        var moreDomains := GetDomainsByUserName(Some(us[k]), DEEP, s);
        ds := ds + moreDomains.value;
        forall q ensures PlanOfAny(s, q, us[..k + 1]) <==>
          PlanOfAny(s, q, us[..k]) || PlanBelowUser(s, q, us[k], DEEP) {
          OfOneMore(s, q, us[..k], us[k]);
        }
        forall d ensures DomainBelowAny(s, d, us[..k + 1]) <==>
          DomainBelowAny(s, d, us[..k]) || DomainBelowUser(s, d, us[k], DEEP) {
          OfOneMore(s, d, us[..k], us[k]);
        }
      }
      assert us[..|us|] == us;
    }

    /** Delete a plan with what is below it. */
    method DeletePlan(name: string) returns (r: Result)
      requires Forest(State())
      modifies this
      ensures State() == After(old(State()), Op.DeletePlan(name))
      ensures r == if name in old(plans) && old(plans)[name].owner in old(users) then Done else Thrown
    {
      hide UsersLinked, PlansLinked, DomainsLinked, Climbs, Erased, UsersWithin, PlansGone, DomainsGone, Intact,
        IntactUser;
      IntactAll(State());
      r := DeletePlanBelow(name, State());
    }

    /** The same in tables that are as a forest s from the plan on. */
    method DeletePlanBelow(name: string, ghost s: Accounts) returns (r: Result)
      requires Forest(s) && Intact(s, State(), name)
      modifies this
      ensures r == if name in old(plans) && old(plans)[name].owner in old(users) then Done else Thrown
      ensures if r == Done then name in s.plans && State() == ErasedBelow(s, old(State()), name)
        else State() == old(State())
    {
      hide UsersLinked, PlansLinked, DomainsLinked, Climbs, UsersWithin, PlansGone, DomainsGone, Intact, IntactUser;
      PlanIsKnown(s, State(), name);
      if name !in plans {
        return Thrown;
      }
      var owner := plans[name].owner;
      if owner !in users {
        return Thrown;
      }
      var us := GetUsersByPlanName(name, DEEP, s);
      IntactSelf(s, State(), name);
      Gathered(s, name, us.value);
      GatheredIntact(s, State(), name, us.value);
      var ps, ds := CollectBelow(us.value, s);
      GatheredBelow(s, name, us.value, ps, ds);
      ghost var t := State();
      users := users[owner := users[owner].(subPlans := Without(users[owner].subPlans, name))];
      plans := plans - {name};
      DropUsers(us.value);
      DropDomains(ds);
      DropPlans(ps);
      assert plans == t.plans - ({name} + Elements(ps));
      r := Done;
    }

    /** Take a user out of every plan's list. */
    method LeavePlans(name: string)
      modifies this`plans
      ensures plans == map p | p in old(plans) :: old(plans)[p].(users := Without(old(plans)[p].users, name))
    {
      hide Without;
      var left := plans.Keys;
      while left != {}
        invariant left <= old(plans).Keys && plans.Keys == old(plans).Keys
        invariant forall p :: p in old(plans) ==>
          plans[p] == if p in left then old(plans)[p] else old(plans)[p].(users := Without(old(plans)[p].users, name))
        decreases left
      {
        var p :| p in left;
        plans := plans[p := plans[p].(users := Without(plans[p].users, name))];
        left := left - {p};
      }
    }

    /** Remove every domain of a user. */
    method LeaveDomains(name: string)
      modifies this`domains
      ensures domains == map d | d in old(domains)
        && !(old(domains)[d].Domain? && old(domains)[d].owner == name) :: old(domains)[d]
    {
      var left := domains.Keys;
      while left != {}
        invariant left <= old(domains).Keys && domains.Keys <= old(domains).Keys
        invariant forall d :: d in old(domains) ==>
          (d in domains <==> d in left || !(old(domains)[d].Domain? && old(domains)[d].owner == name))
        invariant forall d :: d in domains ==> domains[d] == old(domains)[d]
        decreases left
      {
        var d :| d in left;
        if domains[d].Domain? && domains[d].owner == name {
          domains := domains - {d};
        }
        left := left - {d};
      }
    }

    /** Delete a user.  First its plans are deleted one by one, each with what its deletion
        reaches, even when one of them does not reach far enough. */
    method DeleteUser(name: string) returns (r: Result)
      requires Forest(State())
      modifies this
      ensures State() == After(old(State()), Op.DeleteUser(name))
      ensures r == if name in old(users) then Done else Thrown
    {
      hide UsersLinked, PlansLinked, DomainsLinked, Climbs, ErasedBelow, Quotas, Intact;
      if name !in users {
        return Thrown;
      }
      ghost var s := State();
      OwnPlans(s, name);
      var subPlans := users[name].subPlans;
      for k := 0 to |subPlans|
        invariant State() == WithoutPlans(s, subPlans[..k])
      {
        TakeMore(subPlans, k);
        StillIntact(s, name, k);
        var done := DeletePlanBelow(subPlans[k], s);
      }
      assert subPlans[..|subPlans|] == subPlans;
      LeavePlans(name);
      LeaveDomains(name);
      users := users - {name};
      r := Done;
    }
  }
}
