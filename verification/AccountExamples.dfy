/** Tables in which an operation does not do what one would expect. */
module AccountExamples {
  import opened Wrappers
  import opened Accounts
  import opened AccountSteps
  import opened AccountQuotas
  import opened AccountDeletion
  import opened AccountLimits
  import opened AccountRuns
  import opened AccountEffects

  const FOR_TWO := PlanOpts(2, 2, true, true, map[], map[])

  /** Plan R, with the user "", owns Q through that user; Q, with the user u, owns P. */
  function Tables(): Accounts {
    Accounts(
      map["R" := Plan(SUPER_USER, [""], [], FOR_TWO), "Q" := Plan("", ["u"], [], FOR_TWO),
        "P" := Plan("u", [], [], FOR_TWO)],
      map["" := User("R", ["Q"], []), "u" := User("Q", ["P"], [])],
      map[], ["R"], map["R" := 0, "Q" := 1, "P" := 2], 2)
  }

  lemma Keys()
    ensures Tables().users.Keys == {"", "u"} && Tables().plans.Keys == {"R", "Q", "P"}
    ensures SUPER_USER !in Tables().users
  {
  }

  lemma Values()
    ensures var s := Tables();
      && s.users.Keys == {"", "u"} && s.users[""] == User("R", ["Q"], []) && s.users["u"] == User("Q", ["P"], [])
      && s.plans.Keys == {"R", "Q", "P"} && s.plans["R"] == Plan(SUPER_USER, [""], [], FOR_TWO)
      && s.plans["Q"] == Plan("", ["u"], [], FOR_TWO) && s.plans["P"] == Plan("u", [], [], FOR_TWO)
      && s.domains == map[] && s.roots == ["R"] && SUPER_USER !in s.users
      && s.depth.Keys == {"R", "Q", "P"} && s.depth["R"] == 0 && s.depth["Q"] == 1 && s.depth["P"] == 2 && s.height == 2
  {
  }

  lemma OneNoDup(x: string)
    ensures NoDup([x]) && NoDup<string>([])
  {
  }

  lemma TablesUsersLinked()
    ensures UsersLinked(Tables())
  {
    hide Tables, NoDup;
    Values();
    OneNoDup("");
    OneNoDup("u");
  }

  lemma TablesPlansLinked()
    ensures PlansLinked(Tables())
  {
    hide Tables, NoDup;
    Values();
    OneNoDup("Q");
    OneNoDup("P");
    OneNoDup("R");
  }

  lemma TablesClimb()
    ensures Climbs(Tables()) && DomainsLinked(Tables())
  {
    hide Tables, NoDup;
    Values();
    OneNoDup("");
  }

  lemma TablesAreForest()
    ensures Forest(Tables())
  {
    hide UsersLinked, PlansLinked, DomainsLinked, Climbs, Tables;
    TablesUsersLinked();
    TablesPlansLinked();
    TablesClimb();
  }

  /** Who is below what. */
  lemma WhoIsBelow()
    ensures Climbs(Tables())
    ensures CountedUsers(Tables(), "R", false) == {"", "u"}
    ensures CountedUsers(Tables(), "Q", false) == {"u"} && CountedUsers(Tables(), "P", false) == {}
  {
    TablesClimb();
    var s := Tables();
    assert s.users.Keys == {"", "u"};
    assert s.users[""].plan == "R" && s.users["u"].plan == "Q";
    assert Under(s, "", "R", false) && !Under(s, "", "Q", false) && !Under(s, "", "P", false);
    assert Under(s, "u", "Q", false) && Under(s, "u", "R", false) && !Under(s, "u", "P", false);
  }

  lemma Totals()
    ensures Forest(Tables())
    ensures UserTotal(Tables(), "R") == 2 && UserTotal(Tables(), "Q") == 1 && UserTotal(Tables(), "P") == 0
  {
    TablesAreForest();
    WhoIsBelow();
    Keys();
    hide UsersLinked, PlansLinked, DomainsLinked, Climbs, UserTotal, CountedUsers, Tables;
    TotalsAreCounts(Tables(), "P");
    TotalsAreCounts(Tables(), "Q");
    TotalsAreCounts(Tables(), "R");
    assert "" != "u";
  }

  lemma TablesWithinQuotas()
    ensures Climbs(Tables()) && Quotas(Tables())
  {
    var s := Tables();
    TablesClimb();
    WhoIsBelow();
    Keys();
    hide Climbs, CountedUsers, Under;
    forall p | p in s.plans ensures WithinQuota(s, p) {
      assert CountedDomains(s, p) == {};
      assert s.plans[p].opts == FOR_TWO;
      assert |{"", "u"}| <= 2 && |{"u"}| <= 2;
    }
  }

  lemma TablesNested()
    ensures Climbs(Tables()) && Nested(Tables())
  {
    hide Climbs, DomainsLinked, Tables;
    TablesClimb();
    Values();
    assert MayAdd(FOR_TWO, FOR_TWO);
  }

  /** The check does not look at R. */
  lemma OutOfSight()
    ensures Climbs(Tables()) && !LooksAt(Tables(), "P", "R")
    ensures CountsFor(Tables(), "P", "R") && Under(Tables(), "u", "R", true)
  {
    TablesClimb();
    var s := Tables();
    assert s.users["u"].plan == "Q" && s.plans["Q"].owner == "" && s.plans["P"].owner == "u";
    assert !Sees(s, "u", "R");
    assert Under(s, "", "R", false);
    assert Under(s, "u", "R", false);
    CountedIsBelow(s, "u", "R");
  }

  lemma RoomOnTheWay()
    ensures Forest(Tables()) && ChainHasRoom(Tables(), "P", AUser) && !HasRoom(Tables(), "R", AUser)
  {
    TablesAreForest();
    Totals();
    var s := Tables();
    hide UsersLinked, PlansLinked, DomainsLinked, UserTotal;
    assert HasRoom(s, "P", AUser) && HasRoom(s, "Q", AUser) && !HasRoom(s, "R", AUser);
    assert s.users["u"].plan == "Q" && s.plans["Q"].owner == "" && s.plans["P"].owner == "u";
    assert OwnersHaveRoom(s, "u", AUser);
  }

  lemma QuotaOf(s: Accounts, p: string)
    requires Climbs(s) && Quotas(s) && p in s.plans
    ensures WithinQuota(s, p)
  {
  }

  /** Into P one more user is let in, who takes R, above it, over its limit. */
  lemma EmptyNameHidesFullPlan()
    ensures Sound(Tables())
    ensures Accepted(Tables(), AddUser("P", "v")) && HidesFull(Tables(), "P", AUser, "v")
    ensures var t := After(Tables(), AddUser("P", "v"));
      Forest(t) && "R" in t.plans && !WithinQuota(t, "R")
  {
    TablesAreForest();
    TablesWithinQuotas();
    TablesNested();
    OutOfSight();
    RoomOnTheWay();
    Keys();
    var s := Tables();
    hide Forest, Quotas, LooksAt, CountsFor, ChainHasRoom, WithinQuota, WithUser;
    UserKeepsForest(s, "P", "v");
    QuotaOf(s, "R");
    UserKeepsQuota(s, "P", "v", "R");
  }

  // ----- plans and users too far below a plan for its deletion

  const SMALL := PlanOpts(1, 1, true, true, map[], map[])

  function Name(k: nat): string {
    seq(k + 1, _ => 'a')
  }

  /** Plan 0 with user 0, who owns plan 1 with user 1, and so on up to n. */
  function Chain(n: nat): Accounts {
    if n == 0 then WithUser(WithPlan(NO_ACCOUNTS, None, Name(0), SMALL), Name(0), Name(0))
    else WithUser(WithPlan(Chain(n - 1), Some(Name(n - 1)), Name(n), SMALL), Name(n), Name(n))
  }

  lemma NamesDiffer()
    ensures forall k: nat :: |Name(k)| == k + 1 && Name(k) != SUPER_USER
  {
    assert forall k: nat :: |Name(k)| == k + 1 && Name(k)[0] == 'a';
    assert SUPER_USER[0] == '%';
  }

  predicate IsName(x: string, n: nat) {
    0 < |x| <= n + 1 && x == Name(|x| - 1)
  }

  /** What is in the tables of a chain. */
  ghost predicate ChainTables(s: Accounts, n: nat) {
    ChainKeys(s, n) && ChainLinks(s)
  }

  ghost predicate ChainKeys(s: Accounts, n: nat) {
    (forall x :: x in s.plans <==> IsName(x, n)) && (forall x :: x in s.users <==> IsName(x, n))
  }

  ghost predicate ChainLinks(s: Accounts) {
    && (forall x :: x in s.users ==> s.users[x].plan == x)
    && (forall x :: x in s.plans ==> s.plans[x].owner == if |x| < 2 then SUPER_USER else Name(|x| - 2))
    && (forall x :: x in s.plans ==> x in s.depth && s.depth[x] == |x| - 1)
  }

  lemma ChainBegins()
    ensures Forest(Chain(0)) && ChainTables(Chain(0), 0)
  {
    hide Forest, ChainTables, Sound, WithUser;
    NamesDiffer();
    var s := WithPlan(NO_ACCOUNTS, None, Name(0), SMALL);
    NoForest();
    PlanKeepsForest(NO_ACCOUNTS, None, Name(0), SMALL);
    UserKeepsForest(s, Name(0), Name(0));
    FirstTables(s);
  }

  lemma NoForest()
    ensures Forest(NO_ACCOUNTS)
  {
    NothingIsSound();
  }

  lemma FirstTables(s: Accounts)
    requires s == WithPlan(NO_ACCOUNTS, None, Name(0), SMALL)
    ensures Name(0) in s.plans && ChainTables(WithUser(s, Name(0), Name(0)), 0)
  {
    NamesDiffer();
    hide Name;
    var t := WithUser(s, Name(0), Name(0));
    assert t.plans.Keys == {Name(0)} == t.users.Keys;
    assert forall x :: IsName(x, 0) <==> x == Name(0);
  }

  /** One more plan with one user, named like it. */
  lemma Grown(s: Accounts, t: Accounts, o: string, x: string)
    requires o in s.users && x !in s.plans && x !in s.users && s.users[o].plan in s.depth
    requires t == WithUser(WithPlan(s, Some(o), x, SMALL), x, x)
    ensures t.plans.Keys == s.plans.Keys + {x} && t.users.Keys == s.users.Keys + {x}
    ensures t.plans[x].owner == o && forall q :: q in s.plans ==> t.plans[q] == s.plans[q]
    ensures t.users[x].plan == x && forall u :: u in s.users ==> t.users[u].plan == s.users[u].plan
    ensures t.depth == s.depth[x := s.depth[s.users[o].plan] + 1]
  {
  }

  lemma OneNameMore(n: nat, x: string)
    ensures IsName(Name(n), n) && |Name(n + 1)| == n + 2 && !IsName(Name(n + 1), n)
    ensures IsName(x, n + 1) <==> IsName(x, n) || x == Name(n + 1)
  {
    NamesDiffer();
  }

  lemma NameIsIn(s: Accounts, n: nat, x: string)
    requires ChainTables(s, n)
    ensures (x in s.plans <==> IsName(x, n)) && (x in s.users <==> IsName(x, n))
    ensures x in s.users ==> s.users[x].plan == x && x in s.plans && x in s.depth
  {
    hide Name, IsName;
  }

  lemma GrowKeys(s: Accounts, t: Accounts, n: nat)
    requires ChainKeys(s, n)
    requires t.plans.Keys == s.plans.Keys + {Name(n + 1)} && t.users.Keys == s.users.Keys + {Name(n + 1)}
    ensures ChainKeys(t, n + 1)
  {
    hide Name, IsName;
    forall x ensures IsName(x, n + 1) <==> IsName(x, n) || x == Name(n + 1) {
      OneNameMore(n, x);
    }
  }

  lemma GrowLinks(s: Accounts, t: Accounts, n: nat)
    requires ChainLinks(s) && Name(n) in s.users && Name(n) in s.plans && Name(n) in s.depth
    requires t.plans.Keys == s.plans.Keys + {Name(n + 1)} && t.users.Keys == s.users.Keys + {Name(n + 1)}
    requires t.plans[Name(n + 1)].owner == Name(n) && forall q :: q in s.plans ==> t.plans[q] == s.plans[q]
    requires t.users[Name(n + 1)].plan == Name(n + 1) && forall u :: u in s.users ==> t.users[u].plan == s.users[u].plan
    requires t.depth == s.depth[Name(n + 1) := s.depth[Name(n)] + 1]
    ensures ChainLinks(t)
  {
    NameLength(n);
    NameLength(n + 1);
    hide Name;
  }

  lemma ChainGrows(s: Accounts, t: Accounts, n: nat)
    requires ChainTables(s, n)
    requires t == WithUser(WithPlan(s, Some(Name(n)), Name(n + 1), SMALL), Name(n + 1), Name(n + 1))
    ensures Name(n + 1) !in s.plans && Name(n + 1) !in s.users && Name(n) in s.users && ChainTables(t, n + 1)
  {
    hide Name, IsName, WithPlan, WithUser, ChainKeys, ChainLinks;
    OneNameMore(n, "");
    NameIsIn(s, n, Name(n));
    NameIsIn(s, n, Name(n + 1));
    Grown(s, t, Name(n), Name(n + 1));
    GrowKeys(s, t, n);
    GrowLinks(s, t, n);
  }

  lemma NameLength(n: nat)
    ensures |Name(n)| == n + 1
  {
  }

  lemma {:induction false} ChainIsForest(n: nat)
    ensures Forest(Chain(n)) && ChainTables(Chain(n), n)
  {
    hide Forest, ChainTables, WithPlan, WithUser, Name;
    if n == 0 {
      ChainBegins();
    } else {
      ChainIsForest(n - 1);
      NamesDiffer();
      var s := Chain(n - 1);
      ChainGrows(s, Chain(n), n - 1);
      PlanKeepsForest(s, Some(Name(n - 1)), Name(n), SMALL);
      PlanIsThere(s, n - 1);
      UserKeepsForest(WithPlan(s, Some(Name(n - 1)), Name(n), SMALL), Name(n), Name(n));
    }
  }

  lemma PlanIsThere(s: Accounts, n: nat)
    requires Name(n) in s.users
    ensures var t := WithPlan(s, Some(Name(n)), Name(n + 1), SMALL);
      Name(n + 1) in t.plans && t.users.Keys == s.users.Keys
  {
  }

  lemma ChainLink(s: Accounts, n: nat, k: nat)
    requires ChainTables(s, n) && k <= n
    ensures Name(k) in s.users && Name(k) in s.plans && s.users[Name(k)].plan == Name(k)
    ensures Name(k) in s.depth && s.depth[Name(k)] == k && (k > 0 ==> s.plans[Name(k)].owner == Name(k - 1))
  {
    NameLength(k);
    hide Name;
    assert IsName(Name(k), n);
  }

  /** User k of the chain is below plan 1, k - 1 levels down. */
  lemma {:induction false} DownTheChain(n: nat, k: nat)
    requires 1 <= k <= n && Climbs(Chain(n)) && ChainTables(Chain(n), n)
    ensures Name(k) in Chain(n).users && Name(1) in Chain(n).plans
    ensures Under(Chain(n), Name(k), Name(1), true) && Level(Chain(n), Name(k), Name(1)) == k - 1
    decreases k
  {
    hide Climbs, Chain, Name, ChainTables;
    ChainLink(Chain(n), n, k);
    ChainLink(Chain(n), n, 1);
    if k > 1 {
      ChainLink(Chain(n), n, k - 1);
      DownTheChain(n, k - 1);
    }
  }

  lemma PlanOfFirst(s: Accounts, n: nat, p: string)
    requires n >= 1 && ChainTables(s, n)
    ensures (p in s.plans && s.plans[p].owner == Name(0)) <==> p == Name(1)
  {
    ChainLink(s, n, 1);
    NamesDiffer();
    hide Name;
    if p in s.plans && s.plans[p].owner == Name(0) {
      assert |p| == 2;
    }
  }

  lemma OnlyPlanOne(n: nat)
    requires n >= 1 && Forest(Chain(n)) && ChainTables(Chain(n), n)
    ensures Name(1) in Chain(n).plans && Name(0) in Chain(n).users && Chain(n).plans[Name(1)].owner == Name(0)
    ensures forall p :: p in Chain(n).users[Name(0)].subPlans <==> p == Name(1)
  {
    hide UsersLinked, PlansLinked, DomainsLinked, Climbs, Chain, ChainTables, Name;
    ChainLink(Chain(n), n, 0);
    ChainLink(Chain(n), n, 1);
    OwnPlans(Chain(n), Name(0));
    forall p ensures p in Chain(n).users[Name(0)].subPlans <==> p == Name(1) {
      PlanOfFirst(Chain(n), n, p);
    }
  }

  lemma ChainShallow(n: nat)
    requires n >= 1 && Climbs(Chain(n)) && ChainTables(Chain(n), n)
    ensures Name(1) in Chain(n).plans && (Shallow(Chain(n), Name(1)) <==> n <= DEEP)
  {
    hide Climbs, Chain, Name, Under;
    NamesDiffer();
    assert IsName(Name(1), n);
    if n > DEEP {
      DownTheChain(n, n);
    }
  }

  /** Nobody is too far below plan 1 exactly if the chain has no more than 100000 plans below
      the first one; so there are forests in which the deletion breaks the links. */
  lemma DeletingFromChain(n: nat)
    requires n >= 1
    ensures Forest(Chain(n))
    ensures Forest(After(Chain(n), DeletePlan(Name(1)))) <==> n <= 100000
    ensures Forest(After(Chain(n), DeleteUser(Name(0)))) <==> n <= 100000
  {
    hide UsersLinked, PlansLinked, DomainsLinked, Climbs, Chain, ChainTables, Name, Under, After, Shallow;
    ChainIsForest(n);
    OnlyPlanOne(n);
    ChainShallow(n);
    StepKeepsForest(Chain(n), DeletePlan(Name(1)));
    StepKeepsForest(Chain(n), DeleteUser(Name(0)));
  }

  // ----- the unlimited plan below a bounded one

  const FIVE := PlanOpts(9, 9, true, true, map["disk" := 5], map[])

  /** Plan R with a maximum of five, and the unlimited plan below it. */
  function Bounded(): Accounts {
    WithPlan(WithUser(WithPlan(NO_ACCOUNTS, None, "R", FIVE), "R", "u"), Some("u"), UNLIMITED_PLAN, FIVE)
  }

  lemma BoundedIsForest()
    ensures Forest(Bounded())
  {
    hide Forest, WithPlan, WithUser;
    var r := WithPlan(NO_ACCOUNTS, None, "R", FIVE);
    NoForest();
    PlanKeepsForest(NO_ACCOUNTS, None, "R", FIVE);
    JustR(r);
    UserKeepsForest(r, "R", "u");
    PlanKeepsForest(WithUser(r, "R", "u"), Some("u"), UNLIMITED_PLAN, FIVE);
  }

  lemma JustR(r: Accounts)
    requires r == WithPlan(NO_ACCOUNTS, None, "R", FIVE)
    ensures "R" in r.plans && r.users == map[] && "u" in WithUser(r, "R", "u").users
    ensures UNLIMITED_PLAN !in WithUser(r, "R", "u").plans
  {
  }

  lemma BoundedIs()
    ensures var s := Bounded();
      && s.plans.Keys == {"R", UNLIMITED_PLAN} && s.users.Keys == {"u"}
      && s.plans["R"].owner == SUPER_USER && s.users["u"].plan == "R" && s.plans[UNLIMITED_PLAN].owner == "u"
      && s.plans["R"].opts == FIVE && s.plans[UNLIMITED_PLAN].opts == FIVE
  {
  }

  /** What is in force for the unlimited plan is more than for its parent. */
  lemma UnlimitedExceedsParent()
    ensures Forest(Bounded()) && UNLIMITED_PLAN in Bounded().plans && AllHave(Bounded(), "disk")
    ensures Parent(Bounded(), UNLIMITED_PLAN) == Some("R") && "R" in Bounded().plans
    ensures !AtMost(GetMaximum(Bounded(), UNLIMITED_PLAN, "disk"), GetMaximum(Bounded(), "R", "disk"))
  {
    hide UsersLinked, PlansLinked, DomainsLinked, Climbs, Bounded;
    BoundedIsForest();
    BoundedIs();
    var s := Bounded();
    SuperIsNoUser(s);
    assert Parent(s, "R") == None && Parent(s, UNLIMITED_PLAN) == Some("R");
    assert GetMaximum(s, "R", "disk") == 5 && GetMaximum(s, UNLIMITED_PLAN, "disk") == UNBOUNDED;
  }

  // ----- un-suspending a plan when its room has been given away

  /** Plan A for two, with user u, who owns plan B, with user v. */
  function TwoPlans(): Accounts {
    Accounts(
      map["A" := Plan(SUPER_USER, ["u"], [], FOR_TWO), "B" := Plan("u", ["v"], [], FOR_TWO)],
      map["u" := User("A", ["B"], []), "v" := User("B", [], [])],
      map[], ["A"], map["A" := 0, "B" := 1], 1)
  }

  lemma TwoPlansAre()
    ensures var s := TwoPlans();
      && s.users.Keys == {"u", "v"} && s.users["u"] == User("A", ["B"], []) && s.users["v"] == User("B", [], [])
      && s.plans.Keys == {"A", "B"} && s.plans["A"] == Plan(SUPER_USER, ["u"], [], FOR_TWO)
      && s.plans["B"] == Plan("u", ["v"], [], FOR_TWO) && s.domains == map[] && s.roots == ["A"]
      && s.depth.Keys == {"A", "B"} && s.depth["A"] == 0 && s.depth["B"] == 1 && s.height == 1
      && SUPER_USER !in s.users
  {
  }

  lemma TwoPlansLinked()
    ensures UsersLinked(TwoPlans()) && PlansLinked(TwoPlans())
  {
    hide TwoPlans, NoDup;
    TwoPlansAre();
    OneNoDup("u");
    OneNoDup("v");
    OneNoDup("A");
    OneNoDup("B");
  }

  lemma TwoPlansClimb()
    ensures Climbs(TwoPlans()) && DomainsLinked(TwoPlans())
  {
    hide TwoPlans, NoDup;
    TwoPlansAre();
    OneNoDup("u");
  }

  lemma TwoPlansCount()
    ensures Climbs(TwoPlans())
    ensures CountedUsers(TwoPlans(), "A", false) == {"u", "v"} && CountedUsers(TwoPlans(), "B", false) == {"v"}
    ensures CountsFor(TwoPlans(), "B", "A")
  {
    TwoPlansClimb();
    TwoPlansAre();
    hide TwoPlans;
    var s := TwoPlans();
    assert Under(s, "u", "A", false) && !Under(s, "u", "B", false);
    assert Under(s, "v", "B", false) && Under(s, "v", "A", false);
  }

  lemma TwoPlansAreSound()
    ensures Sound(TwoPlans()) && Named(TwoPlans())
    ensures UserTotal(TwoPlans(), "A") == 2 && UserTotal(TwoPlans(), "B") == 1
  {
    TwoPlansLinked();
    TwoPlansClimb();
    TwoPlansCount();
    TwoPlansAre();
    hide TwoPlans, UsersLinked, PlansLinked, DomainsLinked, Climbs, CountedUsers, UserTotal, MayAdd;
    var s := TwoPlans();
    TotalsAreCounts(s, "A");
    TotalsAreCounts(s, "B");
    assert |{"u", "v"}| == 2 && |{"v"}| == 1;
    forall p | p in s.plans ensures WithinQuota(s, p) {
      assert CountedDomains(s, p) == {};
    }
    TwoPlansNested();
  }

  lemma TwoPlansNested()
    requires Climbs(TwoPlans())
    ensures Nested(TwoPlans())
  {
    hide Climbs, TwoPlans;
    TwoPlansAre();
    assert MayAdd(FOR_TWO, FOR_TWO);
  }

  /** B is suspended in tables with these users. */
  ghost predicate Waiting(s: Accounts, users: set<string>) {
    && Sound(s) && Named(s) && s.users.Keys == users && SUPER_USER !in users
    && "u" in users && s.users["u"].plan == "A"
    && s.plans.Keys == {"A", "B"} && s.plans["A"].owner == SUPER_USER && s.plans["A"].suspended == []
    && s.plans["A"].opts == FOR_TWO && s.plans["B"].owner == "u" && s.plans["B"].suspended == ["unpaid"]
    && CountedUsers(s, "A", false) == users - {"v"} && CountedUsers(s, "B", false) == {"v"}
  }

  lemma SuspendingB()
    ensures Sound(TwoPlans()) && Waiting(After(TwoPlans(), SuspendPlan("B", "unpaid")), {"u", "v"})
  {
    hide Quotas, Nested, CountedUsers, CountsFor, UsersLinked, PlansLinked, DomainsLinked, Climbs, TwoPlans,
      StrictlyAbove;
    TwoPlansAreSound();
    TwoPlansAre();
    TwoPlansCount();
    var o := TwoPlans();
    StepKeepsSound(o, SuspendPlan("B", "unpaid"));
    SuspendedCounts(o, "B", "unpaid", "A");
    SuspendedCounts(o, "B", "unpaid", "B");
    NotAboveItself(o, "B");
    CountedThrough(o, "B", "A");
    assert [] + ["unpaid"] == ["unpaid"];
    assert {"u", "v"} - {"v"} == {"u"};
  }

  lemma LettingIn(r: Accounts)
    requires Waiting(r, {"u", "v"})
    ensures Accepted(r, AddUser("A", "w")) && Waiting(After(r, AddUser("A", "w")), {"u", "v", "w"})
  {
    hide Quotas, Nested, CountedUsers, UsersLinked, PlansLinked, DomainsLinked, Climbs, Under, WithUser, MayHave;
    UserIsAccepted(r, "A", "w");
    assert |CountedUsers(r, "A", false)| == |{"u"}| == 1;
    NamedIsSafe(r, AddUser("A", "w"));
    StepKeepsSound(r, AddUser("A", "w"));
    AddedUserIs(r, "A", "w", "A");
    AddedUserIs(r, "A", "w", "B");
  }

  lemma TooMany(s: Accounts)
    requires Waiting(s, {"u", "v", "w"})
    ensures var t := After(s, UnSuspendPlan("B", "unpaid")); Forest(t) && !Quotas(t)
  {
    hide Quotas, Nested, CountedUsers, UserTotal, DomainTotal, UsersLinked, PlansLinked, DomainsLinked, Climbs, Resumed;
    ResumeKeepsForest(s, "B", "unpaid");
    ResumeKeepsQuotas(s, "B", "unpaid");
    TotalsAreCounts(s, "A");
    TotalsAreCounts(s, "B");
    assert CountedUsers(s, "A", false) == {"u", "w"} && |{"u", "w"}| == 2 && |{"v"}| == 1;
    assert Through(s, "B", "A");
  }

  /** Suspend B, let one more user into A, whose limit is two, and un-suspend B: every
      operation is carried out, and A has three users then. */
  lemma UnSuspendingBreaksQuota()
    ensures Sound(TwoPlans())
    ensures var r := After(TwoPlans(), SuspendPlan("B", "unpaid"));
      && Sound(r) && Accepted(r, AddUser("A", "w"))
      && var s := After(r, AddUser("A", "w"));
         && Sound(s) && Accepted(s, UnSuspendPlan("B", "unpaid"))
         && var t := After(s, UnSuspendPlan("B", "unpaid"));
            Forest(t) && !Quotas(t)
  {
    hide TwoPlans, UsersLinked, PlansLinked, DomainsLinked, Climbs, Quotas, Nested, After, MayHave, CountedUsers;
    SuspendingB();
    LettingIn(After(TwoPlans(), SuspendPlan("B", "unpaid")));
    TooMany(After(After(TwoPlans(), SuspendPlan("B", "unpaid")), AddUser("A", "w")));
  }
}
