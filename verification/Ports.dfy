/** Ports for the domains of the panel: blocks handed out to all domains at once, single
    ports found for new domains, and the checks that must make both succeed. */
module Ports {
  import opened Wrappers

  /** The ports of one domain.  A domain that was added after the ports were last handed
      out has no list. */
  datatype DomainPorts = DomainPorts(http: Option<int>, https: Option<int>, ports: Option<seq<int>>)

  const DEFAULT_MIN_PORT: int := 10000
  const DEFAULT_MAX_PORT: int := 20000

  /** What is configured; zero stands for nothing. */
  datatype Config = Config(min: int, max: int, portsPerDomain: int)

  /** A domain with the first port there is by default. */
  const FIRST := DomainPorts(Some(DEFAULT_MIN_PORT), None, None)

  /** The same after no ports were handed out. */
  const FORGOTTEN := FIRST.(ports := Some([]))

  datatype PortRange = PortRange(min: int, max: int, count: int, portsPerDomain: int)

  function PortsPerDomain(cfg: Config): int {
    if cfg.portsPerDomain == 0 then 1 else cfg.portsPerDomain
  }

  function GetPortRange(cfg: Config): PortRange {
    var min := if cfg.min == 0 then DEFAULT_MIN_PORT else cfg.min;
    var max := if cfg.max == 0 then DEFAULT_MAX_PORT else cfg.max;
    PortRange(min, max, max - min, PortsPerDomain(cfg))
  }

  // ----- blocks

  function Block(from: int, n: int): (b: seq<int>)
    ensures |b| == if n < 0 then 0 else n
    ensures forall i :: 0 <= i < |b| ==> b[i] == from + i
  {
    seq(if n < 0 then 0 else n, i => from + i)
  }

  /** Where the block of domain k begins. */
  function BlockStart(min: int, ppd: int, k: nat): int {
    if ppd < 0 then min else min + k * ppd
  }

  /** The block of domain k ends in front of the last port. */
  predicate Fits(min: int, max: int, ppd: int, k: nat) {
    BlockStart(min, ppd, k) <= max - ppd
  }

  function Assigned(p: DomainPorts, min: int, max: int, ppd: int, k: nat): DomainPorts {
    var start, fits := BlockStart(min, ppd, k), Fits(min, max, ppd, k);
    DomainPorts(
      if ppd >= 1 then (if fits then Some(start) else None) else p.http,
      if ppd >= 2 then (if fits then Some(start + 1) else None) else p.https,
      Some(Block(start, ppd)))
  }

  function AllAssigned(ps: seq<DomainPorts>, min: int, max: int, ppd: int): (r: seq<DomainPorts>)
    ensures |r| == |ps|
    ensures forall k :: 0 <= k < |ps| ==> r[k] == Assigned(ps[k], min, max, ppd, k)
  {
    seq(|ps|, k requires 0 <= k < |ps| => Assigned(ps[k], min, max, ppd, k))
  }

  lemma NextStart(min: int, ppd: int, k: nat)
    ensures BlockStart(min, ppd, 0) == min
    ensures ppd >= 0 ==> BlockStart(min, ppd, k + 1) == BlockStart(min, ppd, k) + ppd
  {
  }

  lemma {:induction false} StartsGrow(min: int, ppd: int, j: nat, k: nat)
    requires ppd >= 0 && j < k
    ensures BlockStart(min, ppd, j) + ppd <= BlockStart(min, ppd, k)
    decreases k - j
  {
    NextStart(min, ppd, j);
    if j + 1 < k {
      StartsGrow(min, ppd, j + 1, k);
    }
  }

  /** The check of the largest port. */
  predicate MaxPortAccepts(min: int, max: int, domains: nat, ppd: int) {
    max > min && max <= DEFAULT_MAX_PORT && !(max - min < domains * ppd)
  }

  /** All blocks fit exactly when the range is as long as they are together. */
  lemma AllFit(min: int, max: int, n: nat, ppd: int)
    requires ppd >= 0 && n > 0
    ensures (forall k: nat :: k < n ==> Fits(min, max, ppd, k)) <==> max - min >= n * ppd
  {
    NextStart(min, ppd, n - 1);
    assert Fits(min, max, ppd, n - 1) <==> max - min >= n * ppd;
    forall k: nat | k < n - 1 ensures Fits(min, max, ppd, n - 1) ==> Fits(min, max, ppd, k) {
      StartsGrow(min, ppd, k, n - 1);
    }
  }

  /** Handing out fewer than two ports leaves what is not handed out as it is. */
  lemma OthersStay(ps: seq<DomainPorts>, min: int, max: int, ppd: int, k: nat)
    requires k < |ps|
    ensures ppd < 2 ==> AllAssigned(ps, min, max, ppd)[k].https == ps[k].https
    ensures ppd < 1 ==> AllAssigned(ps, min, max, ppd)[k].http == ps[k].http
  {
  }

  /** The check of the largest port accepts exactly the ranges in which every domain gets its
      block, up to the largest port there is by default. */
  lemma MaxPortCheckIs(min: int, max: int, domains: nat, ppd: int)
    requires ppd >= 0 && domains > 0
    ensures MaxPortAccepts(min, max, domains, ppd) <==>
      min < max <= 20000 && forall k: nat :: k < domains ==> Fits(min, max, ppd, k)
  {
    AllFit(min, max, domains, ppd);
  }

  ghost predicate HasBlock(p: DomainPorts, start: int, min: int, max: int) {
    && p.http == Some(start) && p.ports.Some? && start in p.ports.value
    && (forall x :: x in p.ports.value ==> min <= x < max)
    && (|p.ports.value| > 1 ==> p.https == Some(start + 1) && start + 1 in p.ports.value)
  }

  lemma InRangeGetBlocks(ps: seq<DomainPorts>, min: int, max: int, ppd: int)
    requires ppd >= 1 && |ps| * ppd <= max - min
    ensures forall k :: 0 <= k < |ps| ==> HasBlock(AllAssigned(ps, min, max, ppd)[k], BlockStart(min, ppd, k), min, max)
  {
    var r := AllAssigned(ps, min, max, ppd);
    if |ps| > 0 {
      AllFit(min, max, |ps|, ppd);
    }
    forall k | 0 <= k < |r| ensures HasBlock(r[k], BlockStart(min, ppd, k), min, max) {
      assert Fits(min, max, ppd, k);
      if k > 0 {
        StartsGrow(min, ppd, 0, k);
      }
      NextStart(min, ppd, 0);
      var block := r[k].ports.value;
      assert block[0] == BlockStart(min, ppd, k);
      assert ppd > 1 ==> block[1] == BlockStart(min, ppd, k) + 1;
    }
  }

  /** If the check accepts, for the same number of ports per domain, every domain gets a
      block of its own within the range. */
  lemma AcceptedRangeGivesBlocks(ps: seq<DomainPorts>, min: int, max: int, ppd: int)
    requires ppd >= 1 && MaxPortAccepts(min, max, |ps|, ppd)
    ensures var r := AllAssigned(ps, min, max, ppd);
      && (forall k :: 0 <= k < |r| ==> HasBlock(r[k], BlockStart(min, ppd, k), min, max))
      && (forall j, k, x :: 0 <= j < k < |r| && x in r[j].ports.value ==> x !in r[k].ports.value)
  {
    var r := AllAssigned(ps, min, max, ppd);
    InRangeGetBlocks(ps, min, max, ppd);
    forall j, k, x | 0 <= j < k < |r| && x in r[j].ports.value ensures x !in r[k].ports.value {
      StartsGrow(min, ppd, j, k);
    }
  }

  /** The check is made with the number of ports per domain that was configured before.  When
      another one is handed out then, every domain still gets a block exactly if the range
      is long enough for that one as well. */
  lemma NewNumberFits(ps: seq<DomainPorts>, min: int, max: int, checked: int, ppd: int)
    requires MaxPortAccepts(min, max, |ps|, checked) && ppd >= 1
    ensures (forall k :: 0 <= k < |ps| ==>
      HasBlock(AllAssigned(ps, min, max, ppd)[k], BlockStart(min, ppd, k), min, max)) <==>
      |ps| * ppd <= max - min
  {
    var r := AllAssigned(ps, min, max, ppd);
    if |ps| * ppd <= max - min {
      InRangeGetBlocks(ps, min, max, ppd);
    } else {
      AllFit(min, max, |ps|, ppd);
      var k: nat :| k < |ps| && !Fits(min, max, ppd, k);
      assert r[k].http == None;
    }
  }

  /** A check for one port each, and two handed out: the second domain gets none. */
  lemma NewNumberMisses()
    ensures MaxPortAccepts(10000, 10002, 2, 1)
    ensures AllAssigned([FIRST, FIRST], 10000, 10002, 2)[1].http == None
  {
    assert BlockStart(10000, 2, 1) == 10002;
  }

  // ----- ports that are taken

  function Taken(p: DomainPorts): seq<Option<int>> {
    if p.ports.Some? then seq(|p.ports.value|, i requires 0 <= i < |p.ports.value| => Some(p.ports.value[i]))
      else [p.http]
  }

  function AllTaken(ps: seq<DomainPorts>): seq<Option<int>> {
    if |ps| == 0 then [] else AllTaken(ps[..|ps| - 1]) + Taken(ps[|ps| - 1])
  }

  lemma {:induction false} InAllTaken(ps: seq<DomainPorts>, x: Option<int>)
    ensures x in AllTaken(ps) <==> exists k :: 0 <= k < |ps| && x in Taken(ps[k])
  {
    if |ps| > 0 {
      var front, last := ps[..|ps| - 1], ps[|ps| - 1];
      InAllTaken(front, x);
      assert forall k :: 0 <= k < |front| ==> front[k] == ps[k];
      if x in Taken(last) {
        assert x in Taken(ps[|ps| - 1]);
      }
    }
  }

  // ----- ports that are free

  /** `r` are the `howMany` smallest ports from min on that are not taken. */
  ghost predicate SmallestFree(r: seq<int>, min: int, max: int, taken: seq<Option<int>>, howMany: int) {
    && |r| == howMany
    && (forall i :: 0 <= i < |r| ==> min <= r[i] <= max && Some(r[i]) !in taken)
    && (forall i, j :: 0 <= i < j < |r| ==> r[i] < r[j])
    && (forall a :: min <= a <= max && Some(a) !in taken && (exists i :: 0 <= i < |r| && a < r[i]) ==> a in r)
  }

  ghost function Free(min: int, max: int, taken: seq<Option<int>>): set<int> {
    set a | min <= a <= max && Some(a) !in taken
  }

  method FindFreePorts(min: int, max: int, taken: seq<Option<int>>, howMany: int) returns (ret: Option<seq<int>>)
    requires howMany >= 1
    ensures ret.Some? ==> SmallestFree(ret.value, min, max, taken, howMany)
    ensures ret == None <==> |Free(min, max, taken)| < howMany
  {
    var found: seq<int> := [];
    var a := min;
    while a <= max
      invariant min <= a && (min <= max ==> a <= max + 1) && |found| < howMany
      invariant forall i :: 0 <= i < |found| ==> min <= found[i] < a && found[i] <= max && Some(found[i]) !in taken
      invariant forall i, j :: 0 <= i < j < |found| ==> found[i] < found[j]
      invariant forall x :: min <= x < a && x <= max && Some(x) !in taken ==> x in found
      decreases max + 1 - a
    {
      if Some(a) !in taken {
        found := found + [a];
        if |found| >= howMany {
          EnoughFree(found, min, max, taken);
          return Some(found);
        }
      }
      a := a + 1;
    }
    AllFree(found, min, max, taken);
    ret := None;
  }

  lemma {:induction false} SizeOf(found: seq<int>, m: set<int>)
    requires (forall i, j :: 0 <= i < j < |found| ==> found[i] < found[j]) && forall x :: x in found <==> x in m
    ensures |m| == |found|
  {
    if |found| > 0 {
      var front, x := found[..|found| - 1], found[|found| - 1];
      assert found == front + [x] && x !in front;
      SizeOf(front, m - {x});
    } else {
      assert forall x :: x in m ==> x in found;
      assert m == {};
    }
  }

  lemma EnoughFree(found: seq<int>, min: int, max: int, taken: seq<Option<int>>)
    requires forall i, j :: 0 <= i < j < |found| ==> found[i] < found[j]
    requires forall i :: 0 <= i < |found| ==> min <= found[i] <= max && Some(found[i]) !in taken
    ensures |Free(min, max, taken)| >= |found|
  {
    var m := set x | x in found;
    SizeOf(found, m);
    assert Free(min, max, taken) == m + (Free(min, max, taken) - m);
  }

  lemma AllFree(found: seq<int>, min: int, max: int, taken: seq<Option<int>>)
    requires forall i, j :: 0 <= i < j < |found| ==> found[i] < found[j]
    requires forall i :: 0 <= i < |found| ==> min <= found[i] <= max && Some(found[i]) !in taken
    requires forall x :: min <= x <= max && Some(x) !in taken ==> x in found
    ensures |Free(min, max, taken)| == |found|
  {
    SizeOf(found, Free(min, max, taken));
  }

  // ----- enough ports are free: the pigeonhole

  lemma {:induction false} RangeSize(min: int, n: nat)
    ensures |Free(min, min + n - 1, [])| == n
  {
    if n == 0 {
      assert Free(min, min - 1, []) == {};
    } else {
      RangeSize(min, n - 1);
      assert Free(min, min + n - 1, []) == Free(min, min + (n - 1) - 1, []) + {min + n - 1};
    }
  }

  lemma {:induction false} TakenAtMost(min: int, max: int, taken: seq<Option<int>>)
    requires min <= max + 1
    ensures |Free(min, max, taken)| >= max + 1 - min - |taken|
    decreases |taken|
  {
    if |taken| == 0 {
      RangeSize(min, max + 1 - min);
      assert taken == [];
    } else {
      var front, t := taken[..|taken| - 1], taken[|taken| - 1];
      TakenAtMost(min, max, front);
      assert taken == front + [t];
      var before := Free(min, max, front);
      if t.Some? {
        assert Free(min, max, taken) == before - {t.value};
      } else {
        assert Free(min, max, taken) == before;
      }
    }
  }

  /** No domain takes more than its share. */
  ghost predicate Share(ps: seq<DomainPorts>, ppd: int) {
    forall k :: 0 <= k < |ps| && ps[k].ports.Some? ==> |ps[k].ports.value| <= ppd
  }

  lemma Times(n: nat, ppd: int)
    ensures (n + 1) * ppd == n * ppd + ppd
  {
  }

  lemma {:induction false} TakenCount(ps: seq<DomainPorts>, ppd: int)
    requires ppd >= 1 && Share(ps, ppd)
    ensures |AllTaken(ps)| <= |ps| * ppd
  {
    if |ps| > 0 {
      var front := ps[..|ps| - 1];
      TakenCount(front, ppd);
      assert |Taken(ps[|ps| - 1])| <= ppd;
      Times(|front|, ppd);
    }
  }

  /** The check of a new domain. */
  predicate DomainAccepts(range: PortRange, domains: nat) {
    !(range.count < domains * range.portsPerDomain + range.portsPerDomain)
  }

  /** The check accepts exactly when a block for one more domain fits behind those of all. */
  lemma DomainCheckIs(cfg: Config, domains: nat)
    requires cfg.portsPerDomain >= 0
    ensures var range := GetPortRange(cfg);
      DomainAccepts(range, domains) <==> Fits(range.min, range.max, range.portsPerDomain, domains)
  {
    NextStart(GetPortRange(cfg).min, PortsPerDomain(cfg), domains);
  }

  /** If the check accepts, enough ports are free. */
  lemma AcceptedDomainFindsPorts(ps: seq<DomainPorts>, range: PortRange)
    requires range.count == range.max - range.min && range.portsPerDomain >= 1
    requires Share(ps, range.portsPerDomain) && DomainAccepts(range, |ps|)
    ensures |Free(range.min, range.max, AllTaken(ps))| > range.portsPerDomain
  {
    TakenCount(ps, range.portsPerDomain);
    assert |ps| * range.portsPerDomain >= 0;
    TakenAtMost(range.min, range.max, AllTaken(ps));
  }

  // ----- no two domains have the same port for requests

  ghost predicate HttpDistinct(ps: seq<DomainPorts>) {
    forall j, k :: 0 <= j < k < |ps| && ps[j].http.Some? ==> ps[j].http != ps[k].http
  }

  /** The port a domain has is among those it takes. */
  ghost predicate HttpTaken(ps: seq<DomainPorts>) {
    forall k :: 0 <= k < |ps| && ps[k].http.Some? ==> ps[k].http in Taken(ps[k])
  }

  lemma AssignedDistinct(ps: seq<DomainPorts>, min: int, max: int, ppd: int)
    requires ppd >= 1
    ensures HttpDistinct(AllAssigned(ps, min, max, ppd)) && HttpTaken(AllAssigned(ps, min, max, ppd))
    ensures Share(AllAssigned(ps, min, max, ppd), ppd)
  {
    var r := AllAssigned(ps, min, max, ppd);
    forall j, k | 0 <= j < k < |r| && r[j].http.Some? ensures r[j].http != r[k].http {
      StartsGrow(min, ppd, j, k);
    }
    forall k | 0 <= k < |r| && r[k].http.Some? ensures r[k].http in Taken(r[k]) {
      assert Taken(r[k])[0] == r[k].http;
    }
  }

  ghost predicate NoPorts(ps: seq<DomainPorts>) {
    forall k :: 0 <= k < |ps| ==> ps[k].http == None
  }

  /** Handing out no ports forgets which ports are in use, unless none are. */
  lemma NoPortsForget(ps: seq<DomainPorts>, min: int, max: int, ppd: int)
    requires ppd <= 0
    ensures HttpTaken(AllAssigned(ps, min, max, ppd)) <==> NoPorts(ps)
    ensures NoPorts(ps) ==> HttpDistinct(AllAssigned(ps, min, max, ppd))
  {
  }

  lemma AddedDistinct(ps: seq<DomainPorts>, p: DomainPorts)
    requires HttpDistinct(ps) && HttpTaken(ps) && p.ports == None && (p.http.Some? ==> p.http !in AllTaken(ps))
    ensures HttpDistinct(ps + [p]) && HttpTaken(ps + [p])
  {
    forall k | 0 <= k < |ps| && ps[k].http.Some? ensures ps[k].http != p.http {
      InAllTaken(ps, ps[k].http);
    }
    assert Taken(p) == [p.http];
  }

  lemma RemovedDistinct(ps: seq<DomainPorts>, i: nat)
    requires i < |ps| && HttpDistinct(ps) && HttpTaken(ps)
    ensures HttpDistinct(ps[..i] + ps[i + 1..]) && HttpTaken(ps[..i] + ps[i + 1..])
  {
  }

  // ----- runs

  datatype Op = SetRange(min: int, max: int, ppd: int) | Add | Remove(i: nat)

  datatype State = State(domains: seq<DomainPorts>, cfg: Config)

  /** The smallest free port, if enough ports are free for a new domain. */
  ghost predicate Granted(s: State, http: int) {
    var range := GetPortRange(s.cfg);
    exists r :: SmallestFree(r, range.min, range.max, AllTaken(s.domains), range.portsPerDomain) && |r| > 0
      && r[0] == http
  }

  /** One step of a run; a domain for which there are no ports is not added. */
  ghost predicate Steps(s: State, op: Op, t: State) {
    match op
    case SetRange(min, max, ppd) =>
      t == State(AllAssigned(s.domains, min, max, ppd), Config(min, max, ppd))
    case Add =>
      t == s || (t.cfg == s.cfg && exists p ::
        t.domains == s.domains + [p] && p.ports == None && p.http.Some? && Granted(s, p.http.value))
    case Remove(i) =>
      t == if i < |s.domains| then s.(domains := s.domains[..i] + s.domains[i + 1..]) else s
  }

  /** A range hands out at least one port per domain, or no domain has a port. */
  ghost predicate Remembers(s: State, op: Op) {
    op.SetRange? ==> op.ppd >= 1 || NoPorts(s.domains)
  }

  ghost predicate Runs(s: State, ops: seq<Op>, t: State)
    decreases |ops|
  {
    if |ops| == 0 then s == t
    else Remembers(s, ops[0]) && exists m :: Steps(s, ops[0], m) && Runs(m, ops[1..], t)
  }

  /** After a step no port is shared, and every port in use is known to be taken, exactly
      unless the step hands out no ports while some are in use. */
  lemma StepKeepsDistinct(s: State, op: Op, t: State)
    requires HttpDistinct(s.domains) && HttpTaken(s.domains) && Steps(s, op, t)
    ensures HttpDistinct(t.domains) && HttpTaken(t.domains) <==> Remembers(s, op)
  {
    match op
    case SetRange(min, max, ppd) =>
      if ppd >= 1 {
        AssignedDistinct(s.domains, min, max, ppd);
      } else {
        NoPortsForget(s.domains, min, max, ppd);
      }
    case Add =>
      if t != s {
        var p :| t.domains == s.domains + [p] && p.ports == None && p.http.Some? && Granted(s, p.http.value);
        AddedDistinct(s.domains, p);
      }
    case Remove(i) =>
      if i < |s.domains| {
        RemovedDistinct(s.domains, i);
      }
  }

  // ----- enough ports are free over all runs

  /** A domain gets at least one port, and none takes more than its share. */
  ghost predicate Shared(s: State) {
    PortsPerDomain(s.cfg) >= 1 && Share(s.domains, PortsPerDomain(s.cfg))
  }

  /** The shares are kept, or set right again, exactly unless a negative number of ports is
      handed out. */
  lemma StepKeepsShares(s: State, op: Op, t: State)
    requires Steps(s, op, t) && (op.SetRange? || Shared(s))
    ensures Shared(t) <==> (op.SetRange? ==> op.ppd >= 0)
  {
    match op
    case SetRange(min, max, ppd) =>
    case Add =>
      if t != s {
        var p :| t.domains == s.domains + [p] && p.ports == None && p.http.Some? && Granted(s, p.http.value);
      }
    case Remove(i) =>
  }

  /** Any run, ports in use forgotten or not. */
  ghost predicate Reaches(s: State, ops: seq<Op>, t: State)
    decreases |ops|
  {
    if |ops| == 0 then s == t
    else exists m :: Steps(s, ops[0], m) && Reaches(m, ops[1..], t)
  }

  lemma {:induction false} RunKeepsShares(s: State, ops: seq<Op>, t: State)
    requires Shared(s) && Reaches(s, ops, t) && forall op :: op in ops && op.SetRange? ==> op.ppd >= 0
    ensures Shared(t)
    decreases |ops|
  {
    if |ops| > 0 {
      var m :| Steps(s, ops[0], m) && Reaches(m, ops[1..], t);
      StepKeepsShares(s, ops[0], m);
      RunKeepsShares(m, ops[1..], t);
    }
  }

  /** After every run that begins without domains and never hands out a negative number of
      ports, a new domain finds more free ports than it needs if the check accepts it. */
  lemma RunFindsPorts(cfg: Config, ops: seq<Op>, t: State)
    requires cfg.portsPerDomain >= 0 && Reaches(State([], cfg), ops, t)
    requires forall op :: op in ops && op.SetRange? ==> op.ppd >= 0
    requires DomainAccepts(GetPortRange(t.cfg), |t.domains|)
    ensures var range := GetPortRange(t.cfg);
      |Free(range.min, range.max, AllTaken(t.domains))| > range.portsPerDomain >= 1
  {
    RunKeepsShares(State([], cfg), ops, t);
    AcceptedDomainFindsPorts(t.domains, GetPortRange(t.cfg));
  }

  // ----- ports lie in the configured range over all runs

  /** Every domain's port for requests lies between the configured ports. */
  ghost predicate InRange(s: State) {
    var range := GetPortRange(s.cfg);
    forall k :: 0 <= k < |s.domains| && s.domains[k].http.Some? ==> range.min <= s.domains[k].http.value <= range.max
  }

  /** Handing out ports brings all of them into the range, unless it begins at zero, which
      stands for the default, and some block fits; handing out none leaves them where they
      are, which must be in the new range. */
  ghost predicate StaysInRange(s: State, op: Op) {
    op.SetRange? ==>
      if op.ppd >= 1 then op.min != 0 || |s.domains| == 0 || op.max < op.ppd
      else InRange(s.(cfg := Config(op.min, op.max, op.ppd)))
  }

  lemma StepKeepsRange(s: State, op: Op, t: State)
    requires Steps(s, op, t) && (op.SetRange? || InRange(s))
    ensures InRange(t) <==> StaysInRange(s, op)
  {
    match op
    case SetRange(min, max, ppd) =>
      if ppd >= 1 {
        AssignedInRange(s.domains, min, max, ppd);
      } else {
        KeptInRange(s, min, max, ppd);
      }
    case Add =>
      if t != s {
        var p :| t.domains == s.domains + [p] && p.ports == None && p.http.Some? && Granted(s, p.http.value);
      }
    case Remove(i) =>
  }

  lemma AssignedInRange(ps: seq<DomainPorts>, min: int, max: int, ppd: int)
    requires ppd >= 1
    ensures InRange(State(AllAssigned(ps, min, max, ppd), Config(min, max, ppd))) <==>
      min != 0 || |ps| == 0 || max < ppd
  {
    var r := AllAssigned(ps, min, max, ppd);
    NextStart(min, ppd, 0);
    forall k | 0 <= k < |r| && r[k].http.Some? ensures min <= r[k].http.value < max {
      if k > 0 {
        StartsGrow(min, ppd, 0, k);
      }
    }
    if |ps| > 0 && min == 0 && ppd <= max {
      assert r[0].http == Some(0);
    }
  }

  lemma KeptInRange(s: State, min: int, max: int, ppd: int)
    requires ppd <= 0
    ensures InRange(State(AllAssigned(s.domains, min, max, ppd), Config(min, max, ppd))) <==>
      InRange(s.(cfg := Config(min, max, ppd)))
  {
    var r := AllAssigned(s.domains, min, max, ppd);
    assert forall k :: 0 <= k < |r| ==> r[k].http == s.domains[k].http;
  }

  /** Any run whose operations leave the ports in the range. */
  ghost predicate RunsInRange(s: State, ops: seq<Op>, t: State)
    decreases |ops|
  {
    if |ops| == 0 then s == t
    else StaysInRange(s, ops[0]) && exists m :: Steps(s, ops[0], m) && RunsInRange(m, ops[1..], t)
  }

  /** Over every such run the ports of all domains lie between the configured ones. */
  lemma {:induction false} RunKeepsRange(s: State, ops: seq<Op>, t: State)
    requires InRange(s) && RunsInRange(s, ops, t)
    ensures InRange(t)
    decreases |ops|
  {
    if |ops| > 0 {
      var m :| Steps(s, ops[0], m) && RunsInRange(m, ops[1..], t);
      StepKeepsRange(s, ops[0], m);
      RunKeepsRange(m, ops[1..], t);
    }
  }

  // ----- no port is shared over all runs

  /** Over every run in which ports in use are never forgotten, no two domains have the same
      port for requests. */
  lemma {:induction false} RunKeepsDistinct(s: State, ops: seq<Op>, t: State)
    requires HttpDistinct(s.domains) && HttpTaken(s.domains) && Runs(s, ops, t)
    ensures HttpDistinct(t.domains) && HttpTaken(t.domains)
    decreases |ops|
  {
    if |ops| > 0 {
      var m :| Steps(s, ops[0], m) && Runs(m, ops[1..], t);
      StepKeepsDistinct(s, ops[0], m);
      RunKeepsDistinct(m, ops[1..], t);
    }
  }

  /** Otherwise two domains can get the same one: after a domain is added, hand out no ports,
      and add another domain. */
  lemma PortIsShared()
    ensures var cfg := Config(10000, 20000, 0);
      && Steps(State([], cfg), Add, State([FIRST], cfg))
      && Steps(State([FIRST], cfg), SetRange(10000, 20000, 0), State([FORGOTTEN], cfg))
      && Steps(State([FORGOTTEN], cfg), Add, State([FORGOTTEN, FIRST], cfg))
      && !Remembers(State([FIRST], cfg), SetRange(10000, 20000, 0)) && !HttpDistinct([FORGOTTEN, FIRST])
  {
    var cfg := Config(10000, 20000, 0);
    assert SmallestFree([10000], 10000, 20000, [], 1);
    assert Granted(State([], cfg), 10000);
    assert [] + [FIRST] == [FIRST] && [FORGOTTEN] + [FIRST] == [FORGOTTEN, FIRST];
    assert AllAssigned([FIRST], 10000, 20000, 0) == [FORGOTTEN];
    assert Taken(FORGOTTEN) == [] && [FORGOTTEN][..0] == [];
    assert AllTaken([FORGOTTEN]) == [];
    assert Granted(State([FORGOTTEN], cfg), 10000);
    assert [FORGOTTEN, FIRST][0].http == [FORGOTTEN, FIRST][1].http;
  }
}
