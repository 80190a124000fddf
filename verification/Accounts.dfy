/** The account tables of the panel: plans own users, users own sub-plans and domains, and
    the three tables point at each other by name. */
module Accounts {
  import opened Wrappers

  /** The owner name of plans that no user owns. */
  const SUPER_USER := "%$$SUPER_USER$$%"

  /** What a caller gives for a new plan. */
  datatype PlanOpts = PlanOpts(maxUserCount: int, maxDomainCount: int, canCreatePlan: bool, canCreateUser: bool,
    planMaximums: map<string, int>, flags: map<string, bool>)

  /** `suspended` holds the reasons for which a plan is suspended. */
  datatype Plan = Plan(owner: string, users: seq<string>, suspended: seq<string>, opts: PlanOpts)

  datatype User = User(plan: string, subPlans: seq<string>, domains: seq<string>)

  /** `Nobody` is what a failed change of owner leaves behind. */
  datatype Domain = Nobody | Domain(owner: string)

  /** The tables, with the names of the plans nobody owns and, for the proofs only, how many
      plans there are above each plan and a bound on that. */
  datatype Accounts = Accounts(plans: map<string, Plan>, users: map<string, User>, domains: map<string, Domain>,
    roots: seq<string>, depth: map<string, nat>, height: nat)

  // ----- the tables describe a forest

  /** Users name their plan and plans their users. */
  ghost predicate UsersLinked(s: Accounts) {
    && (forall u :: u in s.users ==> s.users[u].plan in s.plans && u in s.plans[s.users[u].plan].users)
    && (forall p :: p in s.plans ==> NoDup(s.plans[p].users))
    && (forall p, u :: p in s.plans && u in s.plans[p].users ==> u in s.users && s.users[u].plan == p)
  }

  /** Plans name their owner and owners their plans; a plan without an owner is a root. */
  ghost predicate PlansLinked(s: Accounts) {
    && (forall p :: p in s.plans ==>
          if s.plans[p].owner in s.users then p in s.users[s.plans[p].owner].subPlans
          else s.plans[p].owner == SUPER_USER && p in s.roots)
    && (forall u :: u in s.users ==> NoDup(s.users[u].subPlans))
    && (forall u, p :: u in s.users && p in s.users[u].subPlans ==> p in s.plans && s.plans[p].owner == u)
    && NoDup(s.roots) && (forall p :: p in s.roots ==> p in s.plans && s.plans[p].owner == SUPER_USER)
  }

  /** Domains name their owner and owners their domains. */
  ghost predicate DomainsLinked(s: Accounts) {
    && (forall d :: d in s.domains ==>
          s.domains[d].Domain? && s.domains[d].owner in s.users && d in s.users[s.domains[d].owner].domains)
    && (forall u :: u in s.users ==> NoDup(s.users[u].domains))
    && (forall u, d :: u in s.users && d in s.users[u].domains ==> d in s.domains && s.domains[d] == Domain(u))
  }

  /** Going up from a plan to the plan of its owner ends: there are no cycles. */
  ghost predicate Climbs(s: Accounts) {
    && (forall u :: u in s.users ==> s.users[u].plan in s.plans)
    && (forall p :: p in s.plans ==> p in s.depth && s.depth[p] <= s.height)
    && (forall p :: p in s.plans && s.plans[p].owner in s.users ==>
          s.depth[p] == s.depth[s.users[s.plans[p].owner].plan] + 1)
  }

  ghost predicate Forest(s: Accounts) {
    UsersLinked(s) && PlansLinked(s) && DomainsLinked(s) && Climbs(s)
  }

  /** Nobody in a forest has the name that stands for no owner: the way up from such a user
      would end at a plan that the user would have to own. */
  lemma SuperIsNoUser(s: Accounts)
    requires PlansLinked(s) && Climbs(s)
    ensures SUPER_USER !in s.users
  {
    if SUPER_USER in s.users {
      NoWayUp(s, s.users[SUPER_USER].plan);
    }
  }

  lemma {:induction false} NoWayUp(s: Accounts, p: string)
    requires PlansLinked(s) && Climbs(s) && p in s.plans
    ensures SUPER_USER !in s.users
    decreases s.depth[p]
  {
    if s.plans[p].owner in s.users {
      NoWayUp(s, s.users[s.plans[p].owner].plan);
    }
  }

  // ----- who is below a plan

  predicate Open(s: Accounts, p: string, all: bool) {
    all || (p in s.plans && s.plans[p].suspended == [])
  }

  /** User u belongs to plan p or to a plan below it; unless all are asked for, what is
      reached through a suspended plan does not count. */
  ghost predicate Under(s: Accounts, u: string, p: string, all: bool)
    requires Climbs(s) && u in s.users
    decreases s.depth[s.users[u].plan]
  {
    var q := s.users[u].plan;
    q == p || (Open(s, q, all) && s.plans[q].owner in s.users && Under(s, s.plans[q].owner, p, all))
  }

  /** How many plans user u is below p. */
  ghost function Level(s: Accounts, u: string, p: string): int
    requires Climbs(s) && u in s.users && p in s.plans
  {
    s.depth[s.users[u].plan] as int - s.depth[p]
  }

  lemma {:induction false} UnderIsDeeper(s: Accounts, u: string, p: string, all: bool)
    requires Climbs(s) && u in s.users && Under(s, u, p, all)
    ensures p in s.plans && Level(s, u, p) >= 0
    decreases s.depth[s.users[u].plan]
  {
    if s.users[u].plan != p {
      UnderIsDeeper(s, s.plans[s.users[u].plan].owner, p, all);
    }
  }

  /** There is one way up. */
  lemma {:induction false} UnderOnePlan(s: Accounts, u: string, p: string, q: string, all: bool)
    requires Climbs(s) && u in s.users && p in s.plans && q in s.plans && s.depth[p] == s.depth[q]
    requires Under(s, u, p, all) && Under(s, u, q, all)
    ensures p == q
    decreases s.depth[s.users[u].plan]
  {
    var o := s.plans[s.users[u].plan].owner;
    if s.users[u].plan == p || s.users[u].plan == q {
      if p != q {
        UnderIsDeeper(s, o, if s.users[u].plan == p then q else p, all);
      }
    } else {
      UnderOnePlan(s, o, p, q, all);
    }
  }

  /** Plan i is owned by a user of plan p. */
  ghost predicate SubPlanOf(s: Accounts, i: string, p: string)
    requires Climbs(s)
  {
    i in s.plans && s.plans[i].owner in s.users && s.users[s.plans[i].owner].plan == p
  }

  lemma {:induction false} ThroughSubPlan(s: Accounts, u: string, i: string, p: string, all: bool)
    requires Climbs(s) && u in s.users && SubPlanOf(s, i, p) && Open(s, i, all) && Under(s, u, i, all)
    ensures Under(s, u, p, all)
    decreases s.depth[s.users[u].plan]
  {
    if s.users[u].plan != i {
      ThroughSubPlan(s, s.plans[s.users[u].plan].owner, i, p, all);
    }
  }

  /** Who is under a plan but not in it is under a sub-plan of it. */
  lemma {:induction false} FindSubPlan(s: Accounts, u: string, p: string, all: bool) returns (i: string)
    requires Climbs(s) && u in s.users && Under(s, u, p, all) && s.users[u].plan != p
    ensures SubPlanOf(s, i, p) && Open(s, i, all) && Under(s, u, i, all)
    decreases s.depth[s.users[u].plan]
  {
    var q := s.users[u].plan;
    var o := s.plans[q].owner;
    if s.users[o].plan == p {
      i := q;
    } else {
      i := FindSubPlan(s, o, p, all);
    }
  }

  // ----- the traversals

  /** The users in a list and, as long as `deep` is more than one, those of the plans they
      own, as the program lists them. */
  ghost function UserList(s: Accounts, us: seq<string>, all: bool, deep: int): seq<string>
    decreases deep, 0, |us|
  {
    if |us| == 0 then []
    else UserList(s, us[..|us| - 1], all, deep) + UserBranch(s, us[|us| - 1], all, deep)
  }

  ghost function UserBranch(s: Accounts, u: string, all: bool, deep: int): seq<string>
    decreases deep, 0, 0
  {
    if u !in s.users then if all then [u] else []
    else [u] + if deep > 1 then PlanList(s, s.users[u].subPlans, all, deep - 1) else []
  }

  /** All users listed for the plans in a list. */
  ghost function PlanList(s: Accounts, ps: seq<string>, all: bool, deep: int): seq<string>
    decreases deep, 1, |ps|
  {
    if |ps| == 0 then []
    else
      var p := ps[|ps| - 1];
      PlanList(s, ps[..|ps| - 1], all, deep)
        + if p in s.plans && Open(s, p, all) then UserList(s, s.plans[p].users, all, deep) else []
  }

  /** User v is user o or below a plan of o. */
  ghost predicate UnderUser(s: Accounts, v: string, o: string, all: bool)
    requires Climbs(s) && v in s.users
  {
    v == o || exists i :: ViaPlan(s, v, i, o, all)
  }

  ghost predicate ViaPlan(s: Accounts, v: string, i: string, o: string, all: bool)
    requires Climbs(s) && v in s.users
  {
    i in s.plans && s.plans[i].owner == o && o in s.users && Open(s, i, all) && Under(s, v, i, all)
  }

  /** Below a plan are its users and what is below them. */
  lemma UnderAUser(s: Accounts, v: string, p: string, all: bool) returns (o: string)
    requires Climbs(s) && UsersLinked(s) && v in s.users && Under(s, v, p, all)
    ensures p in s.plans && o in s.plans[p].users && UnderUser(s, v, o, all)
  {
    UnderIsDeeper(s, v, p, all);
    if s.users[v].plan == p {
      o := v;
    } else {
      var i := FindSubPlan(s, v, p, all);
      o := s.plans[i].owner;
      assert ViaPlan(s, v, i, o, all);
    }
  }

  lemma UserIsUnder(s: Accounts, v: string, o: string, p: string, all: bool)
    requires Climbs(s) && v in s.users && o in s.users && s.users[o].plan == p && UnderUser(s, v, o, all)
    ensures Under(s, v, p, all)
  {
    if v != o {
      var i :| ViaPlan(s, v, i, o, all);
      ThroughSubPlan(s, v, i, p, all);
    }
  }

  /** The users of a plan have nobody below them in common. */
  lemma UnderOneUser(s: Accounts, v: string, o: string, q: string, all: bool)
    requires Climbs(s) && v in s.users && o in s.users && q in s.users && s.users[o].plan == s.users[q].plan
    requires UnderUser(s, v, o, all) && UnderUser(s, v, q, all)
    ensures o == q
  {
    if v != o && v != q {
      var i :| ViaPlan(s, v, i, o, all);
      var j :| ViaPlan(s, v, j, q, all);
      UnderOnePlan(s, v, i, j, all);
    } else if o != q {
      var i :| ViaPlan(s, v, i, if v == o then q else o, all);
      UnderIsDeeper(s, v, i, all);
    }
  }

  /** What a traversal of users finds: everybody below one of them, down to a level. */
  lemma {:induction false} InUserList(s: Accounts, p: string, us: seq<string>, all: bool, deep: int, v: string)
    requires Climbs(s) && UsersLinked(s) && PlansLinked(s) && p in s.plans && deep >= 1
    requires forall u :: u in us ==> u in s.users && s.users[u].plan == p
    ensures v in UserList(s, us, all, deep) <==>
      v in s.users && (exists o :: o in us && UnderUser(s, v, o, all)) && Level(s, v, p) < deep
    decreases deep, 0, |us|
  {
    hide UsersLinked, PlansLinked, Under, UnderUser, UserBranch;
    if |us| > 0 {
      var front, u := us[..|us| - 1], us[|us| - 1];
      InUserList(s, p, front, all, deep, v);
      InUserBranch(s, p, u, all, deep, v);
      assert us == front + [u];
    }
  }

  lemma OwnPlans(s: Accounts, u: string)
    requires PlansLinked(s) && u in s.users
    ensures NoDup(s.users[u].subPlans)
    ensures forall i :: i in s.users[u].subPlans <==> i in s.plans && s.plans[i].owner == u
  {
  }

  /** Below a user, besides itself, is who is below its plans, a level deeper. */
  lemma BelowPlans(s: Accounts, p: string, u: string, all: bool, deep: int, v: string)
    requires Climbs(s) && PlansLinked(s) && p in s.plans && u in s.users && s.users[u].plan == p
    requires v in s.users && v != u
    ensures (UnderUser(s, v, u, all) && Level(s, v, p) < deep) <==>
      exists i :: i in s.users[u].subPlans && InOpenPlan(s, v, i, all, deep - 1)
  {
    OwnPlans(s, u);
    hide PlansLinked, Under, Open;
    if UnderUser(s, v, u, all) && Level(s, v, p) < deep {
      var i :| ViaPlan(s, v, i, u, all);
      assert i in s.users[u].subPlans && InOpenPlan(s, v, i, all, deep - 1);
    }
    if exists i :: i in s.users[u].subPlans && InOpenPlan(s, v, i, all, deep - 1) {
      var i :| i in s.users[u].subPlans && InOpenPlan(s, v, i, all, deep - 1);
      assert ViaPlan(s, v, i, u, all);
    }
  }

  ghost predicate InOpenPlan(s: Accounts, v: string, i: string, all: bool, deep: int)
    requires Climbs(s) && v in s.users
  {
    i in s.plans && Open(s, i, all) && Under(s, v, i, all) && Level(s, v, i) < deep
  }

  lemma {:induction false} InUserBranch(s: Accounts, p: string, u: string, all: bool, deep: int, v: string)
    requires Climbs(s) && UsersLinked(s) && PlansLinked(s) && p in s.plans && deep >= 1
    requires u in s.users && s.users[u].plan == p
    ensures v in UserBranch(s, u, all, deep) <==>
      v in s.users && UnderUser(s, v, u, all) && Level(s, v, p) < deep
    decreases deep, 0, 0
  {
    OwnPlans(s, u);
    hide UsersLinked, PlansLinked, PlanList, Under, Open;
    if v in s.users && v != u {
      BelowPlans(s, p, u, all, deep, v);
      if deep > 1 {
        InPlanList(s, s.users[u].subPlans, all, deep - 1, v);
      } else {
        NotBelow(s, s.users[u].subPlans, all, v);
      }
    } else if v != u && deep > 1 {
      InPlanList(s, s.users[u].subPlans, all, deep - 1, v);
    }
  }

  lemma NotBelow(s: Accounts, ps: seq<string>, all: bool, v: string)
    requires Climbs(s) && v in s.users
    ensures forall i :: i in ps ==> !InOpenPlan(s, v, i, all, 0)
  {
    forall i | i in ps && i in s.plans && Under(s, v, i, all) ensures Level(s, v, i) >= 0 {
      UnderIsDeeper(s, v, i, all);
    }
  }

  lemma {:induction false} InPlanList(s: Accounts, ps: seq<string>, all: bool, deep: int, v: string)
    requires Climbs(s) && UsersLinked(s) && PlansLinked(s) && deep >= 1
    requires forall p :: p in ps ==> p in s.plans
    ensures v in PlanList(s, ps, all, deep) <==>
      v in s.users && exists i :: i in ps && InOpenPlan(s, v, i, all, deep)
    decreases deep, 1, |ps|
  {
    hide UsersLinked, PlansLinked, UserList, Under, Open;
    if |ps| > 0 {
      var front, p := ps[..|ps| - 1], ps[|ps| - 1];
      InPlanList(s, front, all, deep, v);
      InPlan(s, p, all, deep, v);
      assert ps == front + [p];
    }
  }

  /** What a traversal of a plan finds: everybody below it, down to a level. */
  lemma {:induction false} InPlan(s: Accounts, p: string, all: bool, deep: int, v: string)
    requires Climbs(s) && UsersLinked(s) && PlansLinked(s) && p in s.plans && deep >= 1
    ensures v in UserList(s, s.plans[p].users, all, deep) <==>
      v in s.users && Under(s, v, p, all) && Level(s, v, p) < deep
    decreases deep, 0, |s.plans[p].users| + 1
  {
    OwnUsers(s, p);
    hide UsersLinked, PlansLinked, Under, UnderUser, NoDup, UserList;
    InUserList(s, p, s.plans[p].users, all, deep, v);
    if v in s.users && Under(s, v, p, all) {
      var o := UnderAUser(s, v, p, all);
    }
    if v in s.users && exists o :: o in s.plans[p].users && UnderUser(s, v, o, all) {
      var o :| o in s.plans[p].users && UnderUser(s, v, o, all);
      UserIsUnder(s, v, o, p, all);
    }
  }

  // ----- a traversal lists nobody twice

  lemma NoDupCat<T>(a: seq<T>, b: seq<T>)
    requires NoDup(a) && NoDup(b) && forall x :: x in a ==> x !in b
    ensures NoDup(a + b)
  {
    forall i, j | 0 <= i < j < |a + b| ensures (a + b)[i] != (a + b)[j] {
      if i < |a| <= j {
        assert a[i] in a && b[j - |a|] in b;
      }
    }
  }

  lemma FrontNoDup<T>(a: seq<T>)
    requires |a| > 0 && NoDup(a)
    ensures NoDup(a[..|a| - 1]) && a[|a| - 1] !in a[..|a| - 1]
    ensures forall x :: x in a[..|a| - 1] ==> x in a
    ensures a == a[..|a| - 1] + [a[|a| - 1]]
  {
  }

  lemma {:induction false} UserListNoDup(s: Accounts, p: string, us: seq<string>, all: bool, deep: int)
    requires Climbs(s) && UsersLinked(s) && PlansLinked(s) && p in s.plans && deep >= 1
    requires NoDup(us) && forall u :: u in us ==> u in s.users && s.users[u].plan == p
    ensures NoDup(UserList(s, us, all, deep))
    decreases deep, 0, |us|
  {
    hide UsersLinked, PlansLinked, Under, UnderUser;
    if |us| > 0 {
      var front, u := us[..|us| - 1], us[|us| - 1];
      FrontNoDup(us);
      UserListNoDup(s, p, front, all, deep);
      UserBranchNoDup(s, p, u, all, deep);
      forall v | v in UserList(s, front, all, deep) ensures v !in UserBranch(s, u, all, deep) {
        InUserList(s, p, front, all, deep, v);
        InUserBranch(s, p, u, all, deep, v);
        var o :| o in front && UnderUser(s, v, o, all);
        if UnderUser(s, v, u, all) {
          UnderOneUser(s, v, o, u, all);
        }
      }
      NoDupCat(UserList(s, front, all, deep), UserBranch(s, u, all, deep));
    }
  }

  lemma OwnUsers(s: Accounts, p: string)
    requires UsersLinked(s) && p in s.plans
    ensures NoDup(s.plans[p].users)
    ensures forall u :: u in s.plans[p].users ==> u in s.users && s.users[u].plan == p
  {
  }

  lemma {:induction false} UserBranchNoDup(s: Accounts, p: string, u: string, all: bool, deep: int)
    requires Climbs(s) && UsersLinked(s) && PlansLinked(s) && p in s.plans && deep >= 1
    requires u in s.users && s.users[u].plan == p
    ensures NoDup(UserBranch(s, u, all, deep))
    decreases deep, 0, 0
  {
    if deep > 1 {
      var ps := s.users[u].subPlans;
      OwnPlans(s, u);
      hide UsersLinked, PlansLinked, Under, UnderUser, PlanList;
      PlanListNoDup(s, u, ps, all, deep - 1);
      InPlanList(s, ps, all, deep - 1, u);
      if u in PlanList(s, ps, all, deep - 1) {
        var i :| i in ps && InOpenPlan(s, u, i, all, deep - 1);
        UnderIsDeeper(s, u, i, all);
      }
      NoDupCat([u], PlanList(s, ps, all, deep - 1));
    }
  }

  lemma {:induction false} PlanListNoDup(s: Accounts, u: string, ps: seq<string>, all: bool, deep: int)
    requires Climbs(s) && UsersLinked(s) && PlansLinked(s) && deep >= 1 && u in s.users
    requires NoDup(ps) && forall p :: p in ps ==> p in s.plans && s.plans[p].owner == u
    ensures NoDup(PlanList(s, ps, all, deep))
    decreases deep, 1, |ps|
  {
    if |ps| > 0 {
      var front, p := ps[..|ps| - 1], ps[|ps| - 1];
      FrontNoDup(ps);
      OwnUsers(s, p);
      hide UsersLinked, PlansLinked, Under, NoDup, UserList;
      PlanListNoDup(s, u, front, all, deep);
      UserListNoDup(s, p, s.plans[p].users, all, deep);
      ListsApart(s, u, front, p, all, deep);
      NoDupCat(PlanList(s, front, all, deep), UserList(s, s.plans[p].users, all, deep));
    }
  }

  /** Different plans of a user have nobody in common. */
  lemma ListsApart(s: Accounts, u: string, ps: seq<string>, p: string, all: bool, deep: int)
    requires Climbs(s) && UsersLinked(s) && PlansLinked(s) && deep >= 1 && u in s.users && p !in ps
    requires p in s.plans && s.plans[p].owner == u && forall i :: i in ps ==> i in s.plans && s.plans[i].owner == u
    ensures forall v :: v in PlanList(s, ps, all, deep) ==> v !in UserList(s, s.plans[p].users, all, deep)
  {
    hide UsersLinked, PlansLinked, Under, UserList, PlanList;
    forall v | v in PlanList(s, ps, all, deep) ensures v !in UserList(s, s.plans[p].users, all, deep) {
      InPlanList(s, ps, all, deep, v);
      InPlan(s, p, all, deep, v);
      var i :| i in ps && InOpenPlan(s, v, i, all, deep);
      if Under(s, v, p, all) {
        UnderOnePlan(s, v, i, p, all);
      }
    }
  }

  // ----- how many users and domains there are below a plan

  /** Deep enough to reach everybody below a plan. */
  ghost function Fuel(s: Accounts, p: string): int
    requires p in s.depth
  {
    s.height as int - s.depth[p] + 1
  }

  ghost function CountedUsers(s: Accounts, p: string, all: bool): set<string>
    requires Climbs(s)
  {
    set u | u in s.users && Under(s, u, p, all)
  }

  ghost function CountedDomains(s: Accounts, p: string): set<string>
    requires Climbs(s)
  {
    set d | d in s.domains && s.domains[d].Domain? && s.domains[d].owner in s.users
      && Under(s, s.domains[d].owner, p, false)
  }

  ghost function UserTotal(s: Accounts, p: string): nat
    requires p in s.plans && p in s.depth
  {
    |UserList(s, s.plans[p].users, false, Fuel(s, p))|
  }

  ghost function DomainCount(s: Accounts, u: string): nat {
    if u in s.users then |s.users[u].domains| else 0
  }

  ghost function DomainSum(s: Accounts, us: seq<string>): nat {
    if |us| == 0 then 0
    else DomainSum(s, us[..|us| - 1]) + DomainCount(s, us[|us| - 1])
  }

  ghost function DomainTotal(s: Accounts, p: string): nat
    requires p in s.plans && p in s.depth
  {
    DomainSum(s, UserList(s, s.plans[p].users, false, Fuel(s, p)))
  }

  lemma {:induction false} SizeOfNoDup<T>(a: seq<T>, m: set<T>)
    requires NoDup(a) && forall x :: x in a <==> x in m
    ensures |m| == |a|
  {
    if |a| > 0 {
      var front, x := a[..|a| - 1], a[|a| - 1];
      FrontNoDup(a);
      SizeOfNoDup(front, m - {x});
    } else {
      assert m == {};
    }
  }

  /** Deep enough, a traversal of a plan lists everybody below it once. */
  lemma ListsAll(s: Accounts, p: string, all: bool, deep: int)
    requires Forest(s) && p in s.plans && deep >= Fuel(s, p)
    ensures NoDup(UserList(s, s.plans[p].users, all, deep))
    ensures forall v :: v in UserList(s, s.plans[p].users, all, deep) <==> v in s.users && Under(s, v, p, all)
    ensures |UserList(s, s.plans[p].users, all, deep)| == |CountedUsers(s, p, all)|
  {
    UserListNoDup(s, p, s.plans[p].users, all, deep);
    forall v ensures v in UserList(s, s.plans[p].users, all, deep) <==> v in s.users && Under(s, v, p, all) {
      InPlan(s, p, all, deep, v);
    }
    SizeOfNoDup(UserList(s, s.plans[p].users, all, deep), CountedUsers(s, p, all));
  }

  ghost function DomainsOf(s: Accounts, us: seq<string>): set<string> {
    set d | d in s.domains && s.domains[d].Domain? && s.domains[d].owner in us
  }

  lemma {:induction false} DomainSumIs(s: Accounts, us: seq<string>)
    requires DomainsLinked(s) && NoDup(us) && forall u :: u in us ==> u in s.users
    ensures |DomainsOf(s, us)| == DomainSum(s, us)
  {
    if |us| > 0 {
      var front, u := us[..|us| - 1], us[|us| - 1];
      FrontNoDup(us);
      DomainSumIs(s, front);
      OwnDomains(s, front, u);
    }
  }

  lemma OwnDomains(s: Accounts, front: seq<string>, u: string)
    requires DomainsLinked(s) && u in s.users && u !in front
    ensures |DomainsOf(s, front + [u])| == |DomainsOf(s, front)| + |s.users[u].domains|
  {
    HasDomains(s, u);
    hide NoDup, DomainsLinked;
    var own := set d | d in s.users[u].domains;
    SizeOfNoDup(s.users[u].domains, own);
    assert DomainsOf(s, front + [u]) == DomainsOf(s, front) + own;
    assert DomainsOf(s, front) !! own;
  }

  lemma HasDomains(s: Accounts, u: string)
    requires DomainsLinked(s) && u in s.users
    ensures NoDup(s.users[u].domains)
    ensures forall d :: d in s.users[u].domains <==> d in s.domains && s.domains[d] == Domain(u)
  {
  }

  /** The totals the program computes are the numbers of users and domains below the plan. */
  lemma TotalsAreCounts(s: Accounts, p: string)
    requires Forest(s) && p in s.plans
    ensures UserTotal(s, p) == |CountedUsers(s, p, false)|
    ensures DomainTotal(s, p) == |CountedDomains(s, p)|
  {
    var us := UserList(s, s.plans[p].users, false, Fuel(s, p));
    ListsAll(s, p, false, Fuel(s, p));
    DomainSumIs(s, us);
    assert CountedDomains(s, p) == DomainsOf(s, us);
  }

  /** No plan below this one is suspended. */
  ghost predicate NoneSuspendedBelow(s: Accounts, p: string)
    requires Climbs(s)
  {
    forall q :: q in s.plans && s.plans[q].owner in s.users && Under(s, s.plans[q].owner, p, true) ==>
      s.plans[q].suspended == []
  }

  /** With no plan below it suspended, the total of a plan is the length of the deep list of
      its users. */
  lemma TotalIsDeepList(s: Accounts, p: string, deep: int)
    requires Forest(s) && p in s.plans && deep >= Fuel(s, p) && NoneSuspendedBelow(s, p)
    ensures UserTotal(s, p) == |UserList(s, s.plans[p].users, true, deep)|
  {
    TotalsAreCounts(s, p);
    ListsAll(s, p, true, deep);
    forall u | u in s.users ensures Under(s, u, p, false) <==> Under(s, u, p, true) {
      AllCount(s, u, p);
    }
    assert CountedUsers(s, p, false) == CountedUsers(s, p, true);
  }

  lemma {:induction false} AllCount(s: Accounts, u: string, p: string)
    requires Climbs(s) && u in s.users && NoneSuspendedBelow(s, p)
    ensures Under(s, u, p, false) <==> Under(s, u, p, true)
    decreases s.depth[s.users[u].plan]
  {
    var o := s.plans[s.users[u].plan].owner;
    if o in s.users {
      AllCount(s, o, p);
    }
  }
}
