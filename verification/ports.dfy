/** The ports of hosts: explicit ones, those that a host template distributes, those of settings, and the
    defaults (normalizer.go). */
module Ports {
  import Cycles

  /** The three kinds of port of a host; 0 means that the port is to be assigned later. */
  datatype Ports = Ports(tcp: int, http: int, interserver: int)
  {
    function Of(kind: Kind): int {
      match kind
      case Tcp => tcp
      case Http => http
      case Interserver => interserver
    }
  }

  datatype Kind = Tcp | Http | Interserver

  datatype Distribution = Unspecified | ClusterScopeIndex

  datatype Template = Template(distributions: seq<Distribution>, spec: Ports)

  const LATER := 0
  const DEFAULTS := Ports(9000, 8123, 9009)

  /** The value of an integer as int32. */
  function Int32(x: int): int {
    var low := x % 0x1_0000_0000;
    if low >= 0x8000_0000 then low - 0x1_0000_0000 else low
  }

  lemma {:induction false} Int32OfSmall(x: int)
    requires 0 <= x < 0x8000_0000
    ensures Int32(x) == x
  {
  }

  function NormalPort(port: int): int {
    if port <= 0 || port >= 65535 then LATER else port
  }

  /** normalizeHostPorts */
  function NormalPorts(p: Ports): Ports {
    Ports(NormalPort(p.tcp), NormalPort(p.http), NormalPort(p.interserver))
  }

  // ---- Which port a host gets ------------------------------------------------------------------------

  function Or(port: int, other: int): int {
    if port != LATER then port else other
  }

  function FirstSet(candidates: seq<int>): int {
    if candidates == [] then LATER else Or(candidates[0], FirstSet(candidates[1..]))
  }

  /** What one distribution offers to the host of this cluster scope index. */
  function Offer(d: Distribution, base: int, default: int, index: nat): int {
    match d
    case Unspecified => base
    case ClusterScopeIndex => Int32((if base != LATER then base else default) + Int32(index))
  }

  function Offers(ds: seq<Distribution>, base: int, default: int, index: nat): seq<int> {
    seq(|ds|, i requires 0 <= i < |ds| => Offer(ds[i], base, default, index))
  }

  /** The sources of a port, the preferred one first. */
  function Candidates(kind: Kind, explicit: Ports, t: Template, own: Ports, common: Ports, index: nat): seq<int> {
    [explicit.Of(kind)] + Offers(t.distributions, t.spec.Of(kind), DEFAULTS.Of(kind), index) +
    [Int32(own.Of(kind)), Int32(common.Of(kind)), DEFAULTS.Of(kind)]
  }

  /** The port is the first that is set: the host's own, one distributed by its template, one of its settings,
      one of the common settings, the default. */
  function PortOf(kind: Kind, explicit: Ports, t: Template, own: Ports, common: Ports, index: nat): int {
    FirstSet(Candidates(kind, explicit, t, own, common, index))
  }

  lemma {:induction false} FirstSetOfConcat(a: seq<int>, b: seq<int>)
    ensures FirstSet(a + b) == if FirstSet(a) != LATER then FirstSet(a) else FirstSet(b)
  {
    if a == [] {
      assert a + b == b;
    } else {
      assert (a + b)[1..] == a[1..] + b;
      FirstSetOfConcat(a[1..], b);
    }
  }

  lemma {:induction false} FirstOfThree(a: int, b: int, c: int)
    ensures FirstSet([a, b, c]) == Or(a, Or(b, c))
  {
    assert [a, b, c][1..] == [b, c] && [b, c][1..] == [c];
    assert FirstSet([c]) == c && FirstSet([b, c]) == Or(b, FirstSet([c]));
  }

  /** Every port gets a number, whatever the settings say and even if an offer wraps around to zero. */
  lemma {:induction false} PortIsSet(kind: Kind, explicit: Ports, t: Template, own: Ports, common: Ports, index: nat)
    ensures PortOf(kind, explicit, t, own, common, index) != LATER
  {
    var before := [explicit.Of(kind)] + Offers(t.distributions, t.spec.Of(kind), DEFAULTS.Of(kind), index);
    var ending := [Int32(own.Of(kind)), Int32(common.Of(kind)), DEFAULTS.Of(kind)];
    FirstSetOfConcat(before, ending);
    FirstOfThree(Int32(own.Of(kind)), Int32(common.Of(kind)), DEFAULTS.Of(kind));
  }

  predicate Port(x: int) {
    0 <= x < 0x8000_0000
  }

  function DefaultOf(kind: Kind): int {
    match kind
    case Tcp => 9000
    case Http => 8123
    case Interserver => 9009
  }

  lemma {:induction false} NoOffers(ds: seq<Distribution>, default: int, index: nat)
    requires ClusterScopeIndex !in ds
    ensures FirstSet(Offers(ds, LATER, default, index)) == LATER
  {
    if ds != [] {
      assert ds[0] in ds;
      assert Offers(ds, LATER, default, index)[1..] == Offers(ds[1..], LATER, default, index);
      NoOffers(ds[1..], default, index);
    }
  }

  lemma {:induction false} FirstOffer(ds: seq<Distribution>, base: int, default: int, index: nat)
    requires ds != [] && Offer(ds[0], base, default, index) != LATER
    ensures FirstSet(Offers(ds, base, default, index)) == Offer(ds[0], base, default, index)
  {
    assert Offers(ds, base, default, index)[0] == Offer(ds[0], base, default, index);
  }

  /** A port that is set stays; one that is not comes from the first distribution, if this offers one. */
  lemma {:induction false} DistributedByCase(
    kind: Kind, explicit: Ports, t: Template, own: Ports, common: Ports, index: nat)
    ensures var p, base := PortOf(kind, explicit, t, own, common, index), t.spec.Of(kind);
            && (explicit.Of(kind) != 0 ==> p == explicit.Of(kind))
            && (explicit.Of(kind) == 0 && t.distributions != [] ==>
                  && (t.distributions[0] == Unspecified && base != 0 ==> p == base)
                  && (t.distributions[0] == ClusterScopeIndex && 0 < base < 65535 && index < INDICES ==>
                        p == base + index)
                  && (t.distributions[0] == ClusterScopeIndex && base == 0 && index < INDICES ==>
                        p == DefaultOf(kind) + index))
  {
    var base, ds, default := t.spec.Of(kind), t.distributions, DEFAULTS.Of(kind);
    PortChain(kind, explicit, t, own, common, index);
    if ds != [] && Offer(ds[0], base, default, index) != LATER {
      FirstOffer(ds, base, default, index);
    }
  }

  /** If nothing is distributed it comes from the host's settings, then from the common ones, then it is the default. */
  lemma {:induction false} SettingsByCase(
    kind: Kind, explicit: Ports, t: Template, own: Ports, common: Ports, index: nat)
    requires explicit.Of(kind) == 0 && t.spec.Of(kind) == 0 && ClusterScopeIndex !in t.distributions
    ensures var p := PortOf(kind, explicit, t, own, common, index);
            && (Port(own.Of(kind)) && own.Of(kind) != 0 ==> p == own.Of(kind))
            && (own.Of(kind) == 0 && Port(common.Of(kind)) && common.Of(kind) != 0 ==> p == common.Of(kind))
            && (own.Of(kind) == 0 && common.Of(kind) == 0 ==> p == DefaultOf(kind))
  {
    PortChain(kind, explicit, t, own, common, index);
    NoOffers(t.distributions, DEFAULTS.Of(kind), index);
  }

  lemma {:induction false} PortChain(kind: Kind, explicit: Ports, t: Template, own: Ports, common: Ports, index: nat)
    ensures PortOf(kind, explicit, t, own, common, index) ==
            Or(explicit.Of(kind),
               Or(FirstSet(Offers(t.distributions, t.spec.Of(kind), DEFAULTS.Of(kind), index)),
                  Or(Int32(own.Of(kind)), Or(Int32(common.Of(kind)), DEFAULTS.Of(kind)))))
  {
    var offers := Offers(t.distributions, t.spec.Of(kind), DEFAULTS.Of(kind), index);
    var ending := [Int32(own.Of(kind)), Int32(common.Of(kind)), DEFAULTS.Of(kind)];
    assert Candidates(kind, explicit, t, own, common, index) == [explicit.Of(kind)] + (offers + ending);
    FirstSetOfConcat([explicit.Of(kind)], offers + ending);
    FirstSetOfConcat(offers, ending);
    FirstOfThree(Int32(own.Of(kind)), Int32(common.Of(kind)), DEFAULTS.Of(kind));
    assert FirstSet([explicit.Of(kind)]) == explicit.Of(kind);
  }

  /** The value as int32 is in its range, and differs by a multiple of two to the power of 32. */
  lemma {:induction false} Int32Wraps(x: int)
    ensures -0x8000_0000 <= Int32(x) < 0x8000_0000 && (x - Int32(x)) % 0x1_0000_0000 == 0
  {
  }

  /** Ports from 1 to 65534 are normal, all others are to be assigned later. */
  lemma {:induction false} NormalPortsByCase(p: Ports, kind: Kind)
    ensures NormalPorts(p).Of(kind) == if 1 <= p.Of(kind) <= 65534 then p.Of(kind) else 0
  {
  }

  // ---- Assigning ports -------------------------------------------------------------------------------

  class Host {
    const index: nat  // in the scope of its cluster
    var tcp: int
    var http: int
    var interserver: int

    constructor (index: nat, p: Ports)
      ensures this.index == index && Current() == p
    {
      this.index, tcp, http, interserver := index, p.tcp, p.http, p.interserver;
    }

    function Current(): Ports
      reads this
    {
      Ports(tcp, http, interserver)
    }

    /** The switch of hostApplyHostTemplate, for one distribution. */
    method Distribute(d: Distribution, spec: Ports)
      modifies this
      ensures forall kind :: Current().Of(kind) == Or(old(Current()).Of(kind),
                Offer(d, spec.Of(kind), DEFAULTS.Of(kind), index))
    {
      match d
      case Unspecified =>
        if tcp == LATER {
          tcp := spec.tcp;
        }
        if http == LATER {
          http := spec.http;
        }
        if interserver == LATER {
          interserver := spec.interserver;
        }
      case ClusterScopeIndex =>
        if tcp == LATER {
          var base := DEFAULTS.tcp;
          if spec.tcp != LATER {
            base := spec.tcp;
          }
          tcp := Int32(base + Int32(index));
        }
        if http == LATER {
          var base := DEFAULTS.http;
          if spec.http != LATER {
            base := spec.http;
          }
          http := Int32(base + Int32(index));
        }
        if interserver == LATER {
          var base := DEFAULTS.interserver;
          if spec.interserver != LATER {
            base := spec.interserver;
          }
          interserver := Int32(base + Int32(index));
        }
    }

    /** ensurePortValuesFromSettings: ports that are not set come from the settings, or from the fallback. */
    method EnsurePorts(settings: Ports, finalize: bool)
      modifies this
      ensures forall kind :: Current().Of(kind) == Or(old(Current()).Of(kind), Or(Int32(settings.Of(kind)),
                if finalize then DEFAULTS.Of(kind) else LATER))
    {
      var fallback := if finalize then DEFAULTS else Ports(LATER, LATER, LATER);
      tcp := EnsuredPort(tcp, Int32(settings.tcp), fallback.tcp);
      http := EnsuredPort(http, Int32(settings.http), fallback.http);
      interserver := EnsuredPort(interserver, Int32(settings.interserver), fallback.interserver);
    }

    /** hostApplyHostTemplate, followed by hostApplyPortsFromSettings. */
    method ApplyTemplate(t: Template, own: Ports, common: Ports)
      modifies this
      ensures forall kind :: Current().Of(kind) == PortOf(kind, old(Current()), t, own, common, index)
      ensures forall kind :: Current().Of(kind) != LATER
      // by cases: a port that is set stays
      ensures forall kind :: old(Current()).Of(kind) != 0 ==> Current().Of(kind) == old(Current()).Of(kind)
      // one that is not comes from the first distribution, if this offers one
      ensures forall kind :: old(Current()).Of(kind) == 0 && t.distributions != [] ==>
                && (t.distributions[0] == Unspecified && t.spec.Of(kind) != 0 ==> Current().Of(kind) == t.spec.Of(kind))
                && (t.distributions[0] == ClusterScopeIndex && 0 < t.spec.Of(kind) < 65535 && index < INDICES ==>
                      Current().Of(kind) == t.spec.Of(kind) + index)
                && (t.distributions[0] == ClusterScopeIndex && t.spec.Of(kind) == 0 && index < INDICES ==>
                      Current().Of(kind) == DefaultOf(kind) + index)
      // and if nothing is distributed, from the host's settings, then from the common ones, then it is the default
      ensures forall kind ::
                old(Current()).Of(kind) == 0 && t.spec.Of(kind) == 0 && ClusterScopeIndex !in t.distributions ==>
                && (Port(own.Of(kind)) && own.Of(kind) != 0 ==> Current().Of(kind) == own.Of(kind))
                && (own.Of(kind) == 0 && Port(common.Of(kind)) && common.Of(kind) != 0 ==>
                      Current().Of(kind) == common.Of(kind))
                && (own.Of(kind) == 0 && common.Of(kind) == 0 ==> Current().Of(kind) == DefaultOf(kind))
    {
      ghost var was := Current();
      ghost var ds := t.distributions;
      for i := 0 to |t.distributions|
        invariant forall kind :: Current().Of(kind) == FirstSet(Sofar(was, t, index, i, kind))
      {
        Distribute(t.distributions[i], t.spec);
        forall kind {
          SofarNext(was, t, index, i, kind);
        }
      }
      ghost var distributed := Current();
      EnsurePorts(own, false);
      EnsurePorts(common, true);
      forall kind
        ensures Current().Of(kind) == PortOf(kind, was, t, own, common, index) != LATER
      {
        var ending := [Int32(own.Of(kind)), Int32(common.Of(kind)), DEFAULTS.Of(kind)];
        assert Candidates(kind, was, t, own, common, index) == Sofar(was, t, index, |ds|, kind) + ending;
        FirstSetOfConcat(Sofar(was, t, index, |ds|, kind), ending);
        FirstOfThree(Int32(own.Of(kind)), Int32(common.Of(kind)), DEFAULTS.Of(kind));
        PortIsSet(kind, was, t, own, common, index);
      }
      forall kind {
        DistributedByCase(kind, was, t, own, common, index);
      }
      forall kind | was.Of(kind) == 0 && t.spec.Of(kind) == 0 && ClusterScopeIndex !in t.distributions {
        SettingsByCase(kind, was, t, own, common, index);
      }
    }
  }

  /** ensurePortValue */
  function EnsuredPort(port: int, value: int, default: int): int {
    if port != LATER then port else if value != LATER then value else default
  }

  function Sofar(was: Ports, t: Template, index: nat, n: nat, kind: Kind): seq<int>
    requires n <= |t.distributions|
  {
    [was.Of(kind)] + Offers(t.distributions[..n], t.spec.Of(kind), DEFAULTS.Of(kind), index)
  }

  lemma {:induction false} SofarNext(was: Ports, t: Template, index: nat, n: nat, kind: Kind)
    requires n < |t.distributions|
    ensures FirstSet(Sofar(was, t, index, n + 1, kind)) ==
            Or(FirstSet(Sofar(was, t, index, n, kind)),
               Offer(t.distributions[n], t.spec.Of(kind), DEFAULTS.Of(kind), index))
  {
    var offer := Offer(t.distributions[n], t.spec.Of(kind), DEFAULTS.Of(kind), index);
    assert Sofar(was, t, index, n + 1, kind) == Sofar(was, t, index, n, kind) + [offer];
    FirstSetOfConcat(Sofar(was, t, index, n, kind), [offer]);
  }

  // ---- Ports of a cluster ------------------------------------------------------------------------------

  const NONE := Ports(LATER, LATER, LATER)

  /** The indices for which no addition of an index to a port leaves int32. */
  const INDICES := 0x8000_0000 - 65535

  function Base(t: Template, kind: Kind): int {
    if t.spec.Of(kind) != LATER then t.spec.Of(kind) else DEFAULTS.Of(kind)
  }

  /** The template's first distribution is by cluster scope index, and its ports are normal. */
  predicate Spreads(t: Template) {
    && t.distributions != [] && t.distributions[0] == ClusterScopeIndex
    && NormalPorts(t.spec) == t.spec
  }

  /** A host without ports of its own gets the bases, shifted by its index; settings have no say. */
  lemma {:induction false} PortsAreShifted(kind: Kind, t: Template, own: Ports, common: Ports, index: nat)
    requires Spreads(t) && index < INDICES
    ensures PortOf(kind, NONE, t, own, common, index) == Base(t, kind) + index
  {
    var candidates := Candidates(kind, NONE, t, own, common, index);
    assert Offer(ClusterScopeIndex, t.spec.Of(kind), DEFAULTS.Of(kind), index) == Base(t, kind) + index by {
      assert 0 < Base(t, kind) < 65535;
      Int32OfSmall(index);
      Int32OfSmall(Base(t, kind) + index);
    }
    assert candidates[0] == LATER && candidates[1..][0] == Base(t, kind) + index;
    assert FirstSet(candidates) == FirstSet(candidates[1..]) == candidates[1..][0];
  }

  /** All ports of the first n hosts of a cluster differ, within a kind and across kinds; settings gives the
      port settings of each host. */
  predicate AllDiffer(t: Template, own: nat -> Ports, common: Ports, n: nat) {
    forall k, l, i: nat, j: nat :: i < n && j < n && (k, i) != (l, j) ==>
      PortOf(k, NONE, t, own(i), common, i) != PortOf(l, NONE, t, own(j), common, j)
  }

  predicate FarApart(t: Template, n: nat) {
    forall k, l :: k != l ==> Base(t, k) + n <= Base(t, l) || Base(t, l) + n <= Base(t, k)
  }

  lemma {:induction false} FarApartDiffer(t: Template, own: nat -> Ports, common: Ports, n: nat)
    requires Spreads(t) && 0 < n <= INDICES && FarApart(t, n)
    ensures AllDiffer(t, own, common, n)
  {
    forall k: Kind, l: Kind, i: nat, j: nat | i < n && j < n && (k, i) != (l, j)
      ensures PortOf(k, NONE, t, own(i), common, i) != PortOf(l, NONE, t, own(j), common, j)
    {
      PortsAreShifted(k, t, own(i), common, i);
      PortsAreShifted(l, t, own(j), common, j);
      assert k != l ==> Base(t, k) + n <= Base(t, l) || Base(t, l) + n <= Base(t, k);
    }
  }

  lemma {:induction false} CloseBasesClash(t: Template, own: nat -> Ports, common: Ports, n: nat)
    requires Spreads(t) && 0 < n <= INDICES && !FarApart(t, n)
    ensures !AllDiffer(t, own, common, n)
  {
    var k, l :| k != l && !(Base(t, k) + n <= Base(t, l) || Base(t, l) + n <= Base(t, k));
    var d := Base(t, l) - Base(t, k);
    var i, j := if d >= 0 then d else 0, if d >= 0 then 0 else 0 - d;
    assert i < n && j < n && (k, i) != (l, j);
    PortsAreShifted(k, t, own(i), common, i);
    PortsAreShifted(l, t, own(j), common, j);
  }

  /** They all differ exactly when the bases of the three kinds are n apart. */
  lemma {:induction false} PortsDifferWhenFarApart(t: Template, own: nat -> Ports, common: Ports, n: nat)
    requires Spreads(t) && 0 < n <= INDICES
    ensures AllDiffer(t, own, common, n) <==> FarApart(t, n)
  {
    if FarApart(t, n) {
      FarApartDiffer(t, own, common, n);
    } else {
      CloseBasesClash(t, own, common, n);
    }
  }

  /** The template for pods on the network of their host. */
  const HOST_NETWORK := Template([ClusterScopeIndex], NONE)

  /** With the default bases all ports differ exactly up to nine hosts: the tenth takes port 9009 for tcp, the
      first has it for interserver traffic. */
  lemma {:induction false} DefaultPortsDifferUpToNine(own: nat -> Ports, common: Ports, n: nat)
    requires n <= INDICES
    ensures AllDiffer(HOST_NETWORK, own, common, n) <==> n <= 9
  {
    if n > 0 {
      PortsDifferWhenFarApart(HOST_NETWORK, own, common, n);
      assert Base(HOST_NETWORK, Tcp) == 9000 && Base(HOST_NETWORK, Http) == 8123;
      assert Base(HOST_NETWORK, Interserver) == 9009;
      assert FarApart(HOST_NETWORK, n) <==> n <= 9;
    }
  }

  /** Within one kind the ports of a cluster differ, however many hosts it has. */
  lemma {:induction false} PortsOfAKindDiffer(
    kind: Kind, t: Template, own: Ports, other: Ports, common: Ports, i: nat, j: nat)
    requires Spreads(t) && i < INDICES && j < INDICES
    ensures PortOf(kind, NONE, t, own, common, i) == PortOf(kind, NONE, t, other, common, j) <==> i == j
  {
    PortsAreShifted(kind, t, own, common, i);
    PortsAreShifted(kind, t, other, common, j);
  }

  // ---- After the walk that writes the addresses ----------------------------------------------------

  /** All ports of these hosts differ, within a kind and across kinds. */
  ghost predicate PortsDiffer(hosts: seq<Host>)
    reads hosts
  {
    forall k, l, i: nat, j: nat :: i < |hosts| && j < |hosts| && (k, i) != (l, j) ==>
      hosts[i].Current().Of(k) != hosts[j].Current().Of(l)
  }

  ghost predicate DistinctHosts(hosts: seq<Host>) {
    forall i, j :: 0 <= i < j < |hosts| ==> hosts[i] != hosts[j]
  }

  /** The walk of finalizeCHI over the hosts of one cluster, which have no ports of their own and share a template;
      own gives the port settings of each. */
  method AssignPorts(hosts: seq<Host>, t: Template, own: nat -> Ports, common: Ports)
    requires DistinctHosts(hosts)
    requires forall h :: h in hosts ==> h.Current() == NONE
    modifies hosts
    ensures forall i: nat, k :: i < |hosts| ==>
              hosts[i].Current().Of(k) == PortOf(k, NONE, t, own(i), common, hosts[i].index) != LATER
  {
    for i := 0 to |hosts|
      invariant forall j :: i <= j < |hosts| ==> hosts[j].Current() == NONE
      invariant forall j: nat, k :: j < i ==>
                  hosts[j].Current().Of(k) == PortOf(k, NONE, t, own(j), common, hosts[j].index) != LATER
    {
      hosts[i].ApplyTemplate(t, own(i), common);
    }
  }

  /** The ports assigned to the hosts of a cluster, whose indices are those of the addresses written before, all differ
      exactly when the bases of the three kinds are as far apart as the cluster has hosts. */
  lemma {:induction false} AddressedPortsDiffer(
    clusters: seq<Cycles.Cluster>, all: set<Cycles.Host>, chiSize: nat, size: nat, c: nat,
    hosts: seq<Host>, t: Template, own: nat -> Ports, common: Ports)
    requires forall c, s, r :: Cycles.IsHost(clusters, c, s, r) ==> clusters[c][s][r] in all
    requires Cycles.Addressed(clusters, all, chiSize, size) && c < |clusters|
    requires var addressed := Cycles.HostsOf(clusters[c], |clusters[c]|);
             && |hosts| == |addressed|
             && forall i :: 0 <= i < |hosts| ==> hosts[i].index == addressed[i].address.clusterScopeIndex
    requires forall i: nat, k :: i < |hosts| ==>
               hosts[i].Current().Of(k) == PortOf(k, NONE, t, own(i), common, hosts[i].index)
    requires Spreads(t) && 0 < |hosts| <= INDICES
    ensures PortsDiffer(hosts) <==> FarApart(t, |hosts|)
  {
    forall i: nat, k | i < |hosts|
      ensures hosts[i].Current().Of(k) == PortOf(k, NONE, t, own(i), common, i)
    {
      Cycles.AddressedIndexIsPlace(clusters, all, chiSize, size, c, i);
    }
    PortsDifferWhenFarApart(t, own, common, |hosts|);
    assert PortsDiffer(hosts) <==> AllDiffer(t, own, common, |hosts|);
  }
}
