/** The domains' ports as the panel keeps them, in the domain objects themselves. */
module Hosting {
  import opened Wrappers
  import opened Ports

  class Site {
    var http: Option<int>
    var https: Option<int>
    var ports: Option<seq<int>>

    constructor (http: Option<int>, https: Option<int>)
      ensures Value() == DomainPorts(http, https, None)
    {
      this.http, this.https, ports := http, https, None;
    }

    ghost function Value(): DomainPorts
      reads this
    {
      DomainPorts(http, https, ports)
    }
  }

  class Hosting {
    /** All domains, in the order of their table. */
    var sites: seq<Site>
    var cfg: Config

    /** No domain is listed twice, and none has more ports than its share. */
    ghost predicate Valid()
      reads this, sites
    {
      NoDup(sites) && Shared(Current())
    }

    ghost function Values(): (ps: seq<DomainPorts>)
      reads this, sites
      ensures |ps| == |sites| && forall k :: 0 <= k < |sites| ==> ps[k] == sites[k].Value()
    {
      seq(|sites|, k requires 0 <= k < |sites| reads this, sites => sites[k].Value())
    }

    ghost function Current(): State
      reads this, sites
    {
      State(Values(), cfg)
    }

    constructor (cfg: Config)
      requires cfg.portsPerDomain >= 0
      ensures Valid() && Current() == State([], cfg)
    {
      sites, this.cfg := [], cfg;
    }

    /** Hand out ports to one domain. */
    static method Assign(site: Site, current: int, ok: bool, ppd: int) returns (ports: seq<int>, next: int)
      modifies site`http, site`https
      ensures ports == Block(current, ppd) && next == current + |ports|
      ensures site.http == if ppd >= 1 then (if ok then Some(current) else None) else old(site.http)
      ensures site.https == if ppd >= 2 then (if ok then Some(current + 1) else None) else old(site.https)
    {
      ports, next := [], current;
      var o := 1;
      while o <= ppd
        invariant 1 <= o && (ppd >= 0 ==> o <= ppd + 1) && |ports| == o - 1 && next == current + o - 1
        invariant forall i :: 0 <= i < |ports| ==> ports[i] == current + i
        invariant site.http == if o > 1 then (if ok then Some(current) else None) else old(site.http)
        invariant site.https == if o > 2 then (if ok then Some(current + 1) else None) else old(site.https)
        invariant ppd <= 0 ==> o == 1
      {
        var port := next;
        next := next + 1;
        if o == 1 {
          site.http := if ok then Some(port) else None;
        } else if o == 2 {
          site.https := if ok then Some(port) else None;
        }
        ports := ports + [port];
        o := o + 1;
      }
    }

    /** Hand out the ports from min on to all domains, the same number to each.  A domain
        whose ports would not fit any more gets none, but keeps its numbers.  Whatever the
        shares were, they are right then unless the number is negative. */
    method SetPortRange(min: int, max: int, ppd: int) returns (changed: bool)
      requires NoDup(sites)
      modifies this`cfg, set s | s in sites
      ensures (Valid() <==> ppd >= 0) && sites == old(sites)
      ensures Current() == State(AllAssigned(old(Values()), min, max, ppd), Config(min, max, ppd))
      ensures changed <==> exists k :: 0 <= k < |sites| && old(Values())[k].ports != Values()[k].ports
    {
      ghost var before := Current();
      changed := HandOut(min, max, ppd);
      cfg := Config(min, max, ppd);
      StepKeepsShares(before, SetRange(min, max, ppd), Current());
    }

    method HandOut(min: int, max: int, ppd: int) returns (changed: bool)
      requires NoDup(sites)
      modifies set s | s in sites
      ensures Values() == AllAssigned(old(Values()), min, max, ppd)
      ensures changed <==> exists k :: 0 <= k < |sites| && old(Values())[k].ports != Values()[k].ports
    {
      ghost var was := Values();
      changed := false;
      var current := min;
      NextStart(min, ppd, 0);
      for i := 0 to |sites|
        invariant current == BlockStart(min, ppd, i)
        invariant forall k :: 0 <= k < i ==> sites[k].Value() == Assigned(was[k], min, max, ppd, k)
        invariant forall k :: i <= k < |sites| ==> sites[k].Value() == was[k]
        invariant changed <==> exists k :: 0 <= k < i && was[k].ports != sites[k].ports
      {
        var site := sites[i];
        var ok := current <= max - ppd;
        NextStart(min, ppd, i);
        var ports, next := Assign(site, current, ok, ppd);
        assert site.ports == was[i].ports;
        if site.ports != Some(ports) {
          changed := true;
          site.ports := Some(ports);
        }
        current := next;
      }
    }

    method GetTakenPorts() returns (ret: seq<Option<int>>)
      ensures ret == AllTaken(Values())
    {
      ret := [];
      ghost var ps := Values();
      for o := 0 to |sites|
        invariant ret == AllTaken(ps[..o])
      {
        var site := sites[o];
        assert ps[..o + 1][..o] == ps[..o];
        if site.ports.Some? {
          var ports := site.ports.value;
          ret := ret + seq(|ports|, i requires 0 <= i < |ports| => Some(ports[i]));
        } else {
          ret := ret + [site.http];
        }
      }
      assert ps[..|sites|] == ps;
    }

    /** The smallest free ports in the range, as many as are asked for or, if none are, as
        many as a domain gets. */
    method GetFreePorts(howMany: int) returns (ret: Option<seq<int>>)
      requires Valid() && howMany >= 0
      ensures var range, n := GetPortRange(cfg), if howMany == 0 then PortsPerDomain(cfg) else howMany;
        && (ret.Some? ==> SmallestFree(ret.value, range.min, range.max, AllTaken(Values()), n))
        && (ret == None <==> |Free(range.min, range.max, AllTaken(Values()))| < n)
      ensures howMany == 0 && DomainAccepts(GetPortRange(cfg), |sites|) ==> ret.Some?
    {
      var n := if howMany == 0 then PortsPerDomain(cfg) else howMany;
      var range := GetPortRange(cfg);
      var taken := GetTakenPorts();
      ret := FindFreePorts(range.min, range.max, taken, n);
      if howMany == 0 && DomainAccepts(range, |sites|) {
        AcceptedDomainFindsPorts(Values(), range);
      }
    }

    /** Add a domain with free ports, if there are enough. */
    method AddDomain() returns (added: bool)
      requires Valid()
      modifies this`sites
      ensures Valid() && Steps(old(Current()), Add, Current())
      ensures added <==> |sites| == |old(sites)| + 1
      ensures DomainAccepts(GetPortRange(cfg), |old(sites)|) ==> added
    {
      hide SmallestFree, Shared, Share, AllTaken, Granted, Steps;
      var arr := GetFreePorts(0);
      var ppd := PortsPerDomain(cfg);
      ghost var before := Current();
      NothingAdded(before);
      if arr == None || |arr.value| < ppd {
        return false;
      }
      FirstIsGranted(before, arr.value);
      var site := new Site(Some(arr.value[0]), if |arr.value| > 1 then Some(arr.value[1]) else None);
      Append(site);
      Adding(before, site.Value());
      StepKeepsShares(before, Add, Current());
      added := true;
    }

    lemma NothingAdded(before: State)
      requires before == Current()
      ensures Steps(before, Add, Current())
      ensures Valid() ==> PortsPerDomain(before.cfg) >= 1
    {
    }

    lemma FirstIsGranted(before: State, r: seq<int>)
      requires PortsPerDomain(before.cfg) >= 1
      requires var range := GetPortRange(before.cfg);
        SmallestFree(r, range.min, range.max, AllTaken(before.domains), range.portsPerDomain)
      ensures |r| > 0 && Granted(before, r[0])
    {
    }

    lemma Adding(before: State, p: DomainPorts)
      requires p.ports == None && p.http.Some? && Granted(before, p.http.value)
      ensures Steps(before, Add, before.(domains := before.domains + [p]))
    {
      hide Granted;
    }

    method Append(site: Site)
      requires NoDup(sites) && site !in sites
      modifies this`sites
      ensures NoDup(sites) && sites == old(sites) + [site]
      ensures Current() == old(Current()).(domains := old(Values()) + [site.Value()])
    {
      ghost var before := Current();
      sites := sites + [site];
      assert Current().domains == before.domains + [site.Value()];
    }

    method RemoveDomain(i: nat)
      requires Valid()
      modifies this`sites
      ensures Valid() && Steps(old(Current()), Remove(i), Current())
    {
      ghost var before := Current();
      if i < |sites| {
        sites := sites[..i] + sites[i + 1..];
      }
      StepKeepsShares(before, Remove(i), Current());
    }
  }
}
