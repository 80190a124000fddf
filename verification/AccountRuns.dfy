/** Runs of operations on the account tables. */
module AccountRuns {
  import opened Wrappers
  import opened Accounts
  import opened AccountSteps
  import opened AccountQuotas
  import opened AccountDeletion
  import opened AccountLimits

  // ----- how far up the check for room goes

  /** What a plan has a limited number of. */
  datatype Kind = AUser | ADomain

  ghost predicate HasRoom(s: Accounts, p: string, kind: Kind)
    requires p in s.plans && p in s.depth
  {
    match kind
    case AUser => UserTotal(s, p) < s.plans[p].opts.maxUserCount
    case ADomain => DomainTotal(s, p) < s.plans[p].opts.maxDomainCount
  }

  /** The plans above an owner have room, as the program checks it: an empty name ends the walk. */
  ghost predicate OwnersHaveRoom(s: Accounts, o: string, kind: Kind)
    requires Climbs(s)
    decreases if o in s.users then s.depth[s.users[o].plan] + 1 else 0
  {
    o in s.users && s.users[o].plan != "" ==>
      var q := s.users[o].plan;
      HasRoom(s, q, kind) && (s.plans[q].owner == "" || OwnersHaveRoom(s, s.plans[q].owner, kind))
  }

  ghost predicate ChainHasRoom(s: Accounts, p: string, kind: Kind)
    requires Climbs(s) && p in s.plans
  {
    HasRoom(s, p, kind) && OwnersHaveRoom(s, s.plans[p].owner, kind)
  }

  /** The walk up from an owner sees plan p. */
  ghost predicate Sees(s: Accounts, o: string, p: string)
    requires Climbs(s)
    decreases if o in s.users then s.depth[s.users[o].plan] + 1 else 0
  {
    o in s.users && s.users[o].plan != "" &&
      var q := s.users[o].plan;
      p == q || (s.plans[q].owner != "" && Sees(s, s.plans[q].owner, p))
  }

  /** The check for room in a plan looks at plan p. */
  ghost predicate LooksAt(s: Accounts, plan: string, p: string)
    requires Climbs(s)
  {
    plan in s.plans && (p == plan || Sees(s, s.plans[plan].owner, p))
  }

  lemma {:induction false} SeenIsAbove(s: Accounts, o: string, p: string)
    requires Climbs(s) && Sees(s, o, p)
    ensures o in s.users && p in s.plans && Under(s, o, p, true)
    decreases s.depth[s.users[o].plan]
  {
    if p != s.users[o].plan {
      SeenIsAbove(s, s.plans[s.users[o].plan].owner, p);
    }
  }

  lemma {:induction false} OwnersRoomIs(s: Accounts, o: string, kind: Kind)
    requires Climbs(s)
    ensures OwnersHaveRoom(s, o, kind) <==> forall p :: p in s.plans && Sees(s, o, p) ==> HasRoom(s, p, kind)
    decreases if o in s.users then s.depth[s.users[o].plan] + 1 else 0
  {
    hide HasRoom;
    if o in s.users && s.users[o].plan != "" {
      var q := s.users[o].plan;
      OwnersRoomIs(s, s.plans[q].owner, kind);
      assert forall p :: Sees(s, o, p) <==> p == q || (s.plans[q].owner != "" && Sees(s, s.plans[q].owner, p));
    }
  }

  /** The check finds room exactly when every plan it looks at has room. */
  lemma ChainRoomIs(s: Accounts, plan: string, kind: Kind)
    requires Climbs(s) && plan in s.plans
    ensures ChainHasRoom(s, plan, kind) <==> forall p :: p in s.plans && LooksAt(s, plan, p) ==> HasRoom(s, p, kind)
  {
    OwnersRoomIs(s, s.plans[plan].owner, kind);
    hide HasRoom, OwnersHaveRoom, Sees, Climbs;
  }

  /** A plan above which, or at which, the walk up ends although there is more above: it has
      no name, or its owner is the user without a name. */
  ghost predicate EndsWalk(s: Accounts, q: string)
    requires q in s.plans
  {
    q == "" || (s.plans[q].owner == "" && "" in s.users)
  }

  lemma {:induction false} SeesAll(s: Accounts, o: string)
    requires Climbs(s) && o in s.users
    ensures (forall p :: p in s.plans && Under(s, o, p, true) ==> Sees(s, o, p)) <==>
      forall q :: q in s.plans && Under(s, o, q, true) ==> !EndsWalk(s, q)
    decreases s.depth[s.users[o].plan]
  {
    var q := s.users[o].plan;
    var w := s.plans[q].owner;
    assert forall p :: Under(s, o, p, true) <==> p == q || (w in s.users && Under(s, w, p, true));
    if w in s.users {
      SeesAll(s, w);
      OwnPlanIsBelow(s, q);
      if EndsWalk(s, q) {
        assert Under(s, o, s.users[w].plan, true) && !Sees(s, o, s.users[w].plan);
      }
    }
  }

  /** The check looks at every plan above exactly when no plan above ends the walk. */
  lemma LooksAtAll(s: Accounts, plan: string)
    requires Climbs(s) && plan in s.plans
    ensures (forall p :: AtOrAbove(s, plan, p) ==> LooksAt(s, plan, p)) <==>
      forall q :: q in s.plans && q != plan && AtOrAbove(s, plan, q) ==> !EndsWalk(s, q)
  {
    var o := s.plans[plan].owner;
    if o in s.users {
      SeesAll(s, o);
      OwnPlanIsBelow(s, plan);
      forall p | Under(s, o, p, true) ensures p in s.plans {
        UnderIsDeeper(s, o, p, true);
      }
    }
    hide Climbs, Under, Sees, EndsWalk;
    assert forall p :: AtOrAbove(s, plan, p) <==> p == plan || (o in s.users && Under(s, o, p, true));
    assert forall p :: LooksAt(s, plan, p) <==> p == plan || Sees(s, o, p);
    if forall p :: AtOrAbove(s, plan, p) ==> LooksAt(s, plan, p) {
      assert o in s.users ==> forall p :: p in s.plans && Under(s, o, p, true) ==> Sees(s, o, p);
    }
  }

  /** No user or plan has an empty name. */
  ghost predicate Named(s: Accounts) {
    "" !in s.users && "" !in s.plans
  }

  /** Somewhere out of the walk's sight a plan is full, for which one more would count. */
  ghost predicate HidesFull(s: Accounts, plan: string, kind: Kind, name: string)
    requires Climbs(s)
  {
    exists p :: p in s.plans && CountsFor(s, plan, p) && !LooksAt(s, plan, p) && !HasRoom(s, p, kind)
      && (kind == ADomain ==> name !in CountedDomains(s, p))
  }

  /** When the check finds room, one more keeps the quotas exactly if no full plan is hidden. */
  lemma RoomIs(s: Accounts, plan: string, kind: Kind, name: string)
    requires Climbs(s) && plan in s.plans && ChainHasRoom(s, plan, kind)
    ensures kind == AUser ==> (RoomForUser(s, plan) <==> !HidesFull(s, plan, kind, name))
    ensures kind == ADomain ==> (RoomForDomain(s, plan, name) <==> !HidesFull(s, plan, kind, name))
  {
    ChainRoomIs(s, plan, kind);
    hide Climbs, LooksAt, CountsFor, ChainHasRoom, CountedDomains;
  }

  /** Among things with names the check looks at every plan above. */
  lemma NamesHideNothing(s: Accounts, plan: string, kind: Kind, name: string)
    requires Climbs(s) && Named(s)
    ensures !HidesFull(s, plan, kind, name)
  {
    if plan in s.plans {
      LooksAtAll(s, plan);
      hide Climbs, LooksAt, CountsFor, AtOrAbove, HasRoom, CountedDomains;
      forall p | CountsFor(s, plan, p) ensures LooksAt(s, plan, p) {
        CountsForAbove(s, plan, p);
      }
    }
  }

  // ----- operations

  datatype Op =
    | AddPlan(owner: Option<string>, name: string, opts: PlanOpts)
    | AddUser(plan: string, name: string)
    | AddDomain(holder: string, name: string)
    | DeletePlan(name: string)
    | DeleteUser(name: string)
    | DeleteDomain(name: string)
    | GiveDomain(name: string, taker: string)
    | SuspendPlan(plan: string, reason: string)
    | UnSuspendPlan(plan: string, reason: string)

  /** A domain is not there, or has nobody. */
  predicate Vacant(s: Accounts, name: string) {
    name !in s.domains || s.domains[name] == Nobody
  }

  ghost predicate MayHave(s: Accounts, plan: string, kind: Kind)
    requires Climbs(s) && plan in s.plans
  {
    && s.plans[plan].suspended == [] && (kind == AUser ==> s.plans[plan].opts.canCreateUser)
    && ChainHasRoom(s, plan, kind)
  }

  /** The operation is carried out, not refused. */
  ghost predicate Accepted(s: Accounts, op: Op)
    requires Climbs(s)
  {
    match op
    case AddPlan(owner, name, opts) =>
      && name !in s.plans && opts.maxDomainCount != 0 && opts.maxUserCount != 0
      && (owner.Some? ==> owner.value in s.users && MayAdd(s.plans[s.users[owner.value].plan].opts, opts))
    case AddUser(plan, name) => name !in s.users && plan in s.plans && MayHave(s, plan, AUser)
    case AddDomain(owner, name) => Vacant(s, name) && owner in s.users && MayHave(s, s.users[owner].plan, ADomain)
    case DeletePlan(name) => name in s.plans && s.plans[name].owner in s.users
    case DeleteUser(name) => name in s.users
    case DeleteDomain(name) => !Vacant(s, name)
    case GiveDomain(name, owner) =>
      !Vacant(s, name) && owner in s.users && owner != s.domains[name].owner && MayHave(s, s.users[owner].plan, ADomain)
    case SuspendPlan(plan, _) => plan in s.plans
    case UnSuspendPlan(plan, _) => plan in s.plans
  }

  /** The tables after an operation.  Giving a domain to a user who does not exist fails, but
      leaves the domain with nobody. */
  ghost function After(s: Accounts, op: Op): Accounts
    requires Forest(s)
  {
    if op.GiveDomain? && !Vacant(s, op.name) && op.taker !in s.users then s.(domains := s.domains[op.name := Nobody])
    else if !Accepted(s, op) then s
    else match op
      case AddPlan(owner, name, opts) => WithPlan(s, owner, name, opts)
      case AddUser(plan, name) => WithUser(s, plan, name)
      case AddDomain(owner, name) => WithDomain(s, owner, name)
      case DeletePlan(name) => WithoutPlan(s, name)
      case DeleteUser(name) => WithoutUser(WithoutPlans(s, s.users[name].subPlans), name)
      case DeleteDomain(name) => WithoutDomain(s, name)
      case GiveDomain(name, owner) => MovedDomain(s, name, owner)
      case SuspendPlan(plan, reason) => Suspended(s, plan, reason)
      case UnSuspendPlan(plan, reason) => Resumed(s, plan, reason)
  }

  /** What must hold before an operation for the links to stay right after it. */
  ghost predicate KeepsLinks(s: Accounts, op: Op)
    requires Forest(s)
  {
    match op
    case AddUser(plan, name) => Accepted(s, op) ==> name != SUPER_USER
    case DeletePlan(name) => Accepted(s, op) ==> Shallow(s, name)
    case DeleteUser(name) => name in s.users ==> ShallowUser(s, name)
    case GiveDomain(name, owner) => !Vacant(s, name) ==> owner in s.users
    case _ => true
  }

  /** An operation keeps the forest exactly when it may. */
  lemma StepKeepsForest(s: Accounts, op: Op)
    requires Forest(s)
    ensures KeepsLinks(s, op) <==> Forest(After(s, op))
  {
    hide Forest, Accepted, After, KeepsLinks;
    match op
    case AddUser(plan, name) => AddUserLinks(s, plan, name);
    case DeletePlan(name) => DeletePlanLinks(s, name);
    case DeleteUser(name) => DeleteUserLinks(s, name);
    case GiveDomain(name, taker) => GiveDomainLinks(s, name, taker);
    case _ => OtherLinks(s, op);
  }

  lemma AddUserLinks(s: Accounts, plan: string, name: string)
    requires Forest(s)
    ensures KeepsLinks(s, AddUser(plan, name)) <==> Forest(After(s, AddUser(plan, name)))
  {
    hide UsersLinked, PlansLinked, DomainsLinked, Climbs, WithUser, MayHave;
    if Accepted(s, AddUser(plan, name)) {
      UserKeepsForest(s, plan, name);
      if name == SUPER_USER {
        SuperBreaks(s, plan, name);
      }
    }
  }

  lemma DeletePlanLinks(s: Accounts, name: string)
    requires Forest(s)
    ensures KeepsLinks(s, DeletePlan(name)) <==> Forest(After(s, DeletePlan(name)))
  {
    hide UsersLinked, PlansLinked, DomainsLinked, Climbs, WithoutPlan, Shallow, Left, Takes;
    if Accepted(s, DeletePlan(name)) {
      if Shallow(s, name) {
        DeletionKeepsForest(s, name);
      } else {
        DeepDeletionBreaks(s, name);
      }
    }
  }

  lemma DeleteUserLinks(s: Accounts, name: string)
    requires Forest(s)
    ensures KeepsLinks(s, DeleteUser(name)) <==> Forest(After(s, DeleteUser(name)))
  {
    hide UsersLinked, PlansLinked, DomainsLinked, Climbs, WithoutUser, WithoutPlans, ShallowUser, UnderUser;
    if name in s.users {
      if ShallowUser(s, name) {
        UserDeletion(s, name);
      } else {
        DeepUserDeletionBreaks(s, name);
      }
    }
  }

  lemma GiveDomainLinks(s: Accounts, name: string, taker: string)
    requires Forest(s)
    ensures KeepsLinks(s, GiveDomain(name, taker)) <==> Forest(After(s, GiveDomain(name, taker)))
  {
    hide UsersLinked, PlansLinked, DomainsLinked, Climbs, MovedDomain, MayHave;
    AllDomainsOwned(s);
    if !Vacant(s, name) {
      if taker in s.users {
        MovingDomainKeepsForest(s, name, taker);
      } else {
        NobodyBreaks(s, name);
      }
    }
  }

  lemma OtherLinks(s: Accounts, op: Op)
    requires Forest(s)
    requires op.AddPlan? || op.AddDomain? || op.DeleteDomain? || op.SuspendPlan? || op.UnSuspendPlan?
    ensures KeepsLinks(s, op) && Forest(After(s, op))
  {
    hide UsersLinked, PlansLinked, DomainsLinked, Climbs, WithPlan, WithDomain, WithoutDomain, Suspended, Resumed,
      MayHave, MayAdd;
    AllDomainsOwned(s);
    if Accepted(s, op) {
      match op
      case AddPlan(owner, name, opts) => PlanKeepsForest(s, owner, name, opts);
      case AddDomain(holder, name) => DomainKeepsForest(s, holder, name);
      case DeleteDomain(name) => LosingDomainKeepsForest(s, name);
      case SuspendPlan(plan, reason) => SuspendKeepsForest(s, plan, reason);
      case UnSuspendPlan(plan, reason) => ResumeKeepsForest(s, plan, reason);
    }
  }

  lemma AllDomainsOwned(s: Accounts)
    requires DomainsLinked(s)
    ensures forall d :: d in s.domains ==> s.domains[d].Domain? && s.domains[d].owner in s.users
  {
  }

  lemma NobodyBreaks(s: Accounts, name: string)
    requires name in s.domains
    ensures !DomainsLinked(s.(domains := s.domains[name := Nobody]))
  {
    assert name in s.domains[name := Nobody] && !s.domains[name := Nobody][name].Domain?;
  }

  lemma SuperBreaks(s: Accounts, plan: string, name: string)
    requires plan in s.plans && name == SUPER_USER
    ensures !Forest(WithUser(s, plan, name))
  {
    NoSuperUser(WithUser(s, plan, name));
  }

  // ----- whole runs

  /** The tables are a forest in which plans were allowed by those above them, and have no
      more below them than they may. */
  ghost predicate Sound(s: Accounts) {
    Forest(s) && Quotas(s) && Nested(s)
  }

  /** What must hold before an operation for the quotas to stay right after it. */
  ghost predicate KeepsQuotas(s: Accounts, op: Op)
    requires Forest(s)
  {
    match op
    case AddUser(plan, name) => Accepted(s, op) ==> !HidesFull(s, plan, AUser, name)
    case AddDomain(holder, name) => Accepted(s, op) ==> !HidesFull(s, s.users[holder].plan, ADomain, name)
    case GiveDomain(name, taker) => Accepted(s, op) ==> !HidesFull(s, s.users[taker].plan, ADomain, name)
    case UnSuspendPlan(plan, reason) => plan in s.plans && LastReason(s, plan, reason) ==> RoomToResume(s, plan)
    case _ => true
  }

  /** The operation keeps the links and the quotas. */
  ghost predicate Safe(s: Accounts, op: Op)
    requires Forest(s)
  {
    KeepsLinks(s, op) && KeepsQuotas(s, op)
  }

  /** An operation that keeps the forest keeps the quotas exactly when it may. */
  lemma QuotasStay(s: Accounts, op: Op)
    requires Forest(s) && Quotas(s) && KeepsLinks(s, op)
    ensures Forest(After(s, op)) && (Quotas(After(s, op)) <==> KeepsQuotas(s, op))
  {
    hide UsersLinked, PlansLinked, DomainsLinked, Climbs, Quotas, Accepted, After, KeepsLinks, KeepsQuotas;
    StepKeepsForest(s, op);
    match op
    case AddUser(plan, name) => AddUserQuotas(s, plan, name);
    case AddDomain(holder, name) => AddDomainQuotas(s, holder, name);
    case DeletePlan(name) => DeletePlanQuotas(s, name);
    case DeleteUser(name) => DeleteUserQuotas(s, name);
    case GiveDomain(name, taker) => GiveDomainQuotas(s, name, taker);
    case UnSuspendPlan(plan, reason) => UnSuspendQuotas(s, plan, reason);
    case _ => OtherQuotas(s, op);
  }

  lemma AddUserQuotas(s: Accounts, plan: string, name: string)
    requires Forest(s) && Quotas(s) && KeepsLinks(s, AddUser(plan, name)) && Forest(After(s, AddUser(plan, name)))
    ensures Quotas(After(s, AddUser(plan, name))) <==> KeepsQuotas(s, AddUser(plan, name))
  {
    hide UsersLinked, PlansLinked, DomainsLinked, Climbs, WithUser, Quotas, ChainHasRoom, RoomForUser, HidesFull;
    if Accepted(s, AddUser(plan, name)) {
      RoomIs(s, plan, AUser, name);
      UserKeepsQuotas(s, plan, name);
    }
  }

  lemma AddDomainQuotas(s: Accounts, holder: string, name: string)
    requires Forest(s) && Quotas(s) && Forest(After(s, AddDomain(holder, name)))
    ensures Quotas(After(s, AddDomain(holder, name))) <==> KeepsQuotas(s, AddDomain(holder, name))
  {
    hide UsersLinked, PlansLinked, DomainsLinked, Climbs, WithDomain, Quotas, ChainHasRoom, RoomForDomain, HidesFull;
    AllDomainsOwned(s);
    PlansOfUsers(s);
    if Accepted(s, AddDomain(holder, name)) {
      RoomIs(s, s.users[holder].plan, ADomain, name);
      DomainKeepsQuotas(s, holder, name);
    }
  }

  lemma DeletePlanQuotas(s: Accounts, name: string)
    requires Forest(s) && Quotas(s) && KeepsLinks(s, DeletePlan(name)) && Forest(After(s, DeletePlan(name)))
    ensures Quotas(After(s, DeletePlan(name)))
    ensures KeepsQuotas(s, DeletePlan(name))
  {
    hide UsersLinked, PlansLinked, DomainsLinked, Climbs, WithoutPlan, Shallow, Left, Takes, Quotas;
    if Accepted(s, DeletePlan(name)) {
      DeletionKeepsForest(s, name);
    }
  }

  lemma DeleteUserQuotas(s: Accounts, name: string)
    requires Forest(s) && Quotas(s) && KeepsLinks(s, DeleteUser(name)) && Forest(After(s, DeleteUser(name)))
    ensures Quotas(After(s, DeleteUser(name)))
    ensures KeepsQuotas(s, DeleteUser(name))
  {
    hide UsersLinked, PlansLinked, DomainsLinked, Climbs, WithoutUser, WithoutPlans, ShallowUser, UnderUser, Quotas;
    if name in s.users {
      UserDeletion(s, name);
    }
  }

  lemma GiveDomainQuotas(s: Accounts, name: string, taker: string)
    requires Forest(s) && Quotas(s) && KeepsLinks(s, GiveDomain(name, taker))
      && Forest(After(s, GiveDomain(name, taker)))
    ensures Quotas(After(s, GiveDomain(name, taker))) <==> KeepsQuotas(s, GiveDomain(name, taker))
  {
    hide UsersLinked, PlansLinked, DomainsLinked, Climbs, MovedDomain, Quotas, MayHave, HidesFull;
    AllDomainsOwned(s);
    PlansOfUsers(s);
    if Accepted(s, GiveDomain(name, taker)) {
      GivenQuotas(s, name, taker);
    }
  }

  lemma GivenQuotas(s: Accounts, name: string, taker: string)
    requires Forest(s) && Quotas(s) && name in s.domains && taker in s.users
    requires s.users[taker].plan in s.plans && MayHave(s, s.users[taker].plan, ADomain)
    ensures s.domains[name].Domain? && s.domains[name].owner in s.users
    ensures var t := MovedDomain(s, name, taker);
      Climbs(t) && (Quotas(t) <==> !HidesFull(s, s.users[taker].plan, ADomain, name))
  {
    hide UsersLinked, PlansLinked, DomainsLinked, Climbs, MovedDomain, Quotas, ChainHasRoom, RoomForDomain, HidesFull;
    RoomIs(s, s.users[taker].plan, ADomain, name);
    MovingDomainKeepsQuotas(s, name, taker);
  }

  lemma UnSuspendQuotas(s: Accounts, plan: string, reason: string)
    requires Forest(s) && Quotas(s) && Forest(After(s, UnSuspendPlan(plan, reason)))
    ensures Quotas(After(s, UnSuspendPlan(plan, reason))) <==> KeepsQuotas(s, UnSuspendPlan(plan, reason))
  {
    hide UsersLinked, PlansLinked, DomainsLinked, Climbs, Quotas, Resumed, LastReason, RoomToResume;
    if plan in s.plans {
      ResumeKeepsQuotas(s, plan, reason);
    }
  }

  lemma OtherQuotas(s: Accounts, op: Op)
    requires Forest(s) && Quotas(s) && (op.AddPlan? || op.DeleteDomain? || op.SuspendPlan?)
    requires Forest(After(s, op))
    ensures Quotas(After(s, op)) && KeepsQuotas(s, op)
  {
    hide UsersLinked, PlansLinked, DomainsLinked, Climbs, WithPlan, WithoutDomain, Suspended, MayAdd, Quotas;
    AllDomainsOwned(s);
    PlansOfUsers(s);
    if Accepted(s, op) {
      match op
      case AddPlan(owner, name, opts) => PlanKeepsQuotas(s, owner, name, opts);
      case DeleteDomain(name) => LosingDomainKeepsQuotas(s, name);
      case SuspendPlan(plan, reason) => SuspendKeepsQuotas(s, plan, reason);
    }
  }

  lemma NestedStaysAfter(s: Accounts, op: Op)
    requires Forest(s) && Nested(s) && Forest(After(s, op))
    ensures Nested(After(s, op))
  {
    hide UsersLinked, PlansLinked, DomainsLinked, Climbs, After, Nested, MayHave, MayAdd;
    if op.AddPlan? && Accepted(s, op) {
      AddedPlan(s, op.owner, op.name, op.opts);
      AddPlanNested(s, op.owner, op.name, op.opts);
    } else {
      OtherNested(s, op);
    }
  }

  lemma AddedPlan(s: Accounts, owner: Option<string>, name: string, opts: PlanOpts)
    requires Forest(s) && Accepted(s, AddPlan(owner, name, opts))
    ensures After(s, AddPlan(owner, name, opts)) == WithPlan(s, owner, name, opts)
  {
    hide UsersLinked, PlansLinked, DomainsLinked, Climbs, MayAdd, WithPlan;
  }

  lemma AddPlanNested(s: Accounts, owner: Option<string>, name: string, opts: PlanOpts)
    requires Forest(s) && Nested(s) && Accepted(s, AddPlan(owner, name, opts))
    requires Forest(WithPlan(s, owner, name, opts))
    ensures Nested(WithPlan(s, owner, name, opts))
  {
    PlansOfUsers(s);
    hide UsersLinked, PlansLinked, DomainsLinked, Climbs, WithPlan, MayAdd, Nested;
    PlanKeepsNested(s, owner, name, opts);
  }

  /** Every plan in t is in s, with its owner and options, and so is every user but perhaps
      `name`, with its plan. */
  ghost predicate PlansStay(s: Accounts, t: Accounts, name: Option<string>) {
    && (forall u :: u in t.users ==> u in s.users || Some(u) == name)
    && (forall u :: u in t.users && u in s.users ==> t.users[u].plan == s.users[u].plan)
    && (forall p :: p in t.plans ==>
      p in s.plans && t.plans[p].owner == s.plans[p].owner && t.plans[p].opts == s.plans[p].opts)
  }

  lemma {:induction false} FewerPlans(s: Accounts, ps: seq<string>)
    requires Climbs(s)
    ensures PlansStay(s, WithoutPlans(s, ps), None)
    decreases |ps|
  {
    if |ps| > 0 {
      hide UsersWithin, PlansGone, DomainsGone;
      FewerPlans(s, ps[..|ps| - 1]);
    }
  }

  lemma UserPlansStay(s: Accounts, plan: string, name: string)
    requires plan in s.plans && name !in s.users
    ensures PlansStay(s, WithUser(s, plan, name), Some(name))
  {
  }

  lemma DomainPlansStay(s: Accounts, u: string, name: string)
    ensures u in s.users ==> PlansStay(s, WithDomain(s, u, name), None)
  {
  }

  lemma LostDomainPlansStay(s: Accounts, name: string)
    requires name in s.domains && s.domains[name].Domain? && s.domains[name].owner in s.users
    ensures PlansStay(s, WithoutDomain(s, name), None)
  {
  }

  lemma MovedDomainPlansStay(s: Accounts, name: string, u: string)
    requires name in s.domains && s.domains[name].Domain? && s.domains[name].owner in s.users && u in s.users
    ensures PlansStay(s, MovedDomain(s, name, u), None)
  {
  }

  lemma SuspendedPlansStay(s: Accounts, plan: string, reason: string)
    ensures plan in s.plans ==> PlansStay(s, Suspended(s, plan, reason), None)
    ensures plan in s.plans ==> PlansStay(s, Resumed(s, plan, reason), None)
  {
  }

  lemma FewerPlansStay(s: Accounts, name: string)
    ensures Climbs(s) && name in s.plans && s.plans[name].owner in s.users ==> PlansStay(s, WithoutPlan(s, name), None)
    ensures Climbs(s) && name in s.users ==>
      PlansStay(s, WithoutUser(WithoutPlans(s, s.users[name].subPlans), name), None)
  {
    hide UsersWithin, PlansGone, DomainsGone, WithoutPlans, Climbs, Without;
    if Climbs(s) && name in s.users {
      FewerPlans(s, s.users[name].subPlans);
    }
  }

  lemma SamePlansStay(s: Accounts, domains: map<string, Domain>)
    ensures PlansStay(s, s.(domains := domains), None)
  {
  }

  ghost function NewUser(s: Accounts, op: Op): Option<string>
    requires Climbs(s)
  {
    if op.AddUser? && Accepted(s, op) then Some(op.name) else None
  }

  lemma PlansStayAfter(s: Accounts, op: Op)
    requires Forest(s) && !(op.AddPlan? && Accepted(s, op))
    ensures PlansStay(s, After(s, op), NewUser(s, op))
  {
    hide UsersLinked, PlansLinked, DomainsLinked, Climbs, MayHave, MayAdd, WithUser, WithDomain, WithoutDomain,
      MovedDomain, Suspended, Resumed, WithoutPlan, WithoutUser, WithoutPlans, PlansStay;
    AllDomainsOwned(s);
    SamePlansStay(s, s.domains);
    match op
    case AddPlan(_, _, _) =>
    case AddUser(plan, name) =>
      if Accepted(s, op) {
        UserPlansStay(s, plan, name);
      }
    case AddDomain(holder, name) => DomainPlansStay(s, holder, name);
    case DeletePlan(name) => FewerPlansStay(s, name);
    case DeleteUser(name) => FewerPlansStay(s, name);
    case DeleteDomain(name) =>
      if name in s.domains {
        LostDomainPlansStay(s, name);
      }
    case GiveDomain(name, taker) =>
      if name in s.domains && taker in s.users {
        MovedDomainPlansStay(s, name, taker);
      }
      SamePlansStay(s, s.domains[name := Nobody]);
    case SuspendPlan(plan, reason) => SuspendedPlansStay(s, plan, reason);
    case UnSuspendPlan(plan, reason) => SuspendedPlansStay(s, plan, reason);
  }

  lemma NestedFrom(s: Accounts, t: Accounts, name: Option<string>)
    requires Forest(s) && Forest(t) && Nested(s) && PlansStay(s, t, name)
    ensures Nested(t)
  {
    hide UsersLinked, PlansLinked, DomainsLinked, Climbs, Nested;
    SuperIsNoUser(t);
    NestedStays(s, t);
  }

  lemma OtherNested(s: Accounts, op: Op)
    requires Forest(s) && Nested(s) && Forest(After(s, op))
    requires !(op.AddPlan? && Accepted(s, op))
    ensures Nested(After(s, op))
  {
    hide UsersLinked, PlansLinked, DomainsLinked, Climbs, After, Nested, PlansStay, NewUser, Accepted;
    PlansStayAfter(s, op);
    NestedFrom(s, After(s, op), NewUser(s, op));
  }

  /** An operation keeps the tables sound exactly when it is safe. */
  lemma StepKeepsSound(s: Accounts, op: Op)
    requires Sound(s)
    ensures Sound(After(s, op)) <==> Safe(s, op)
  {
    hide Forest, Quotas, Nested, After, KeepsLinks, KeepsQuotas;
    StepKeepsForest(s, op);
    if KeepsLinks(s, op) {
      QuotasStay(s, op);
      NestedStaysAfter(s, op);
    }
  }

  /** Without empty names only the links have to be watched, and when the last reason for which
      a plan is suspended is taken back, whether there is room for what is below it. */
  lemma NamedIsSafe(s: Accounts, op: Op)
    requires Forest(s) && Named(s)
    ensures Safe(s, op) <==>
      && KeepsLinks(s, op)
      && (op.UnSuspendPlan? && op.plan in s.plans && LastReason(s, op.plan, op.reason) ==> RoomToResume(s, op.plan))
  {
    hide UsersLinked, PlansLinked, DomainsLinked, Climbs, KeepsLinks, MayHave, HidesFull, Named, RoomToResume;
    PlansOfUsers(s);
    match op
    case AddUser(plan, name) => NamesHideNothing(s, plan, AUser, name);
    case AddDomain(holder, name) =>
      if Accepted(s, op) {
        NamesHideNothing(s, s.users[holder].plan, ADomain, name);
      }
    case GiveDomain(name, taker) =>
      if Accepted(s, op) {
        NamesHideNothing(s, s.users[taker].plan, ADomain, name);
      }
    case _ =>
  }

  /** The tables after a run. */
  ghost predicate Reaches(s: Accounts, ops: seq<Op>, t: Accounts)
    decreases |ops|
  {
    if |ops| == 0 then s == t
    else Forest(s) && Safe(s, ops[0]) && Reaches(After(s, ops[0]), ops[1..], t)
  }

  /** Over every run the accounts stay a forest and no plan has more users or domains below
      it than it may have. */
  lemma {:induction false} RunKeepsSound(s: Accounts, ops: seq<Op>, t: Accounts)
    requires Sound(s) && Reaches(s, ops, t)
    ensures Sound(t)
    decreases |ops|
  {
    hide Sound, After, Safe;
    if |ops| > 0 {
      StepKeepsSound(s, ops[0]);
      RunKeepsSound(After(s, ops[0]), ops[1..], t);
    }
  }

  const NO_ACCOUNTS := Accounts(map[], map[], map[], [], map[], 0)

  /** A run that begins with empty tables. */
  lemma RunFromNothing(ops: seq<Op>, t: Accounts)
    requires Reaches(NO_ACCOUNTS, ops, t)
    ensures Sound(t)
  {
    NothingIsSound();
    hide Sound, Reaches;
    RunKeepsSound(NO_ACCOUNTS, ops, t);
  }

  lemma NothingIsSound()
    ensures Sound(NO_ACCOUNTS)
  {
  }

}
