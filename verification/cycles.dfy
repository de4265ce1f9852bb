/** Cycle placement: the counters written into every host's address (type_chi.go), the label they become
    (affinity.go), and what the anti-affinity on that label means for nodes. */
module Cycles {

  datatype Address = Address(
    clusterIndex: nat, shardIndex: nat, replicaIndex: nat,
    chiScopeIndex: nat, chiScopeCycleIndex: nat, chiScopeCycleOffset: nat,
    clusterScopeIndex: nat, clusterScopeCycleSize: nat, clusterScopeCycleIndex: nat, clusterScopeCycleOffset: nat)

  class Host {
    var address: Address

    constructor () {
      address := Address(0, 0, 0, 0, 0, 0, 0, 0, 0, 0);
    }
  }

  type Shard = seq<Host>
  type Cluster = seq<Shard>

  // ---- The size of a cycle -----------------------------------------------------------------------

  datatype DistributionType = MaxNumberPerNode | Other

  datatype Distribution = Distribution(kind: DistributionType, number: int)

  /** math.Ceil */
  function Ceil(x: real): int {
    -(-x).Floor
  }

  function Requested(maxPerNode: int): (n: int)
    ensures n >= 1
  {
    if maxPerNode <= 0 then 1 else maxPerNode
  }

  /** The cluster-scope cycle size for a CHI of so many hosts; 0 means unlimited. */
  function CycleSize(hosts: nat, maxPerNode: int): int {
    var n := Requested(maxPerNode);
    if n == 1 then 0 else Ceil(hosts as real / n as real)
  }

  lemma {:induction false} Multiple(k: int, d: int)
    requires d > 0
    ensures k >= 1 ==> k * d >= d
    ensures k <= -1 ==> k * d <= -d
  {
    if k >= 1 {
      assert (k - 1) * d >= 0;
    } else if k <= -1 {
      assert (-1 - k) * d >= 0;
    }
  }

  lemma {:induction false} Scale(x: real, y: real, m: real)
    requires m > 0.0
    ensures x < y ==> x * m < y * m
    ensures x <= y ==> x * m <= y * m
  {
  }

  lemma {:induction false} RealProduct(c: int, n: int)
    ensures (c * n) as real == c as real * n as real
  {
  }

  lemma {:induction false} RealOrder(x: int, y: int)
    ensures x as real < y as real ==> x < y
    ensures x as real <= y as real ==> x <= y
  {
  }

  lemma {:induction false} QuotientOrder(a: nat, n: nat, q: real, d: int)
    requires n > 0 && q * n as real == a as real
    ensures d as real < q ==> d * n < a
    ensures q <= d as real ==> a <= d * n
  {
    RealProduct(d, n);
    if d as real < q {
      Scale(d as real, q, n as real);
      RealOrder(d * n, a);
    } else {
      Scale(q, d as real, n as real);
      RealOrder(a, d * n);
    }
  }

  /** Rounding a quotient up, in integers. */
  lemma {:induction false} CeilBounds(a: nat, n: nat)
    requires n > 0
    ensures var c := Ceil(a as real / n as real); (c - 1) * n < a <= c * n
  {
    var q := a as real / n as real;
    var c := Ceil(q);
    QuotientOrder(a, n, q, c);
    QuotientOrder(a, n, q, c - 1);
  }

  /** For two pods per node or more, the size is the least one that lets n cycles hold all hosts. */
  lemma {:induction false} CycleSizeIsLeast(hosts: nat, maxPerNode: int)
    requires maxPerNode >= 2
    ensures var c := CycleSize(hosts, maxPerNode);
            c >= 0 && (c - 1) * maxPerNode < hosts <= c * maxPerNode && (hosts > 0 ==> 1 <= c <= hosts)
  {
    var c := CycleSize(hosts, maxPerNode);
    CeilBounds(hosts, maxPerNode);
    Multiple(c, maxPerNode);
    if hosts > 0 && c > hosts {
      Multiple(maxPerNode, c - 1);
      assert false;
    }
  }

  /** The k-th distribution is the last of type MaxNumberPerNode. */
  ghost predicate IsLast(distributions: seq<Distribution>, k: int) {
    && 0 <= k < |distributions| && distributions[k].kind == MaxNumberPerNode
    && forall j :: k < j < |distributions| ==> distributions[j].kind != MaxNumberPerNode
  }

  lemma {:induction false} LastOf(before: seq<Distribution>, n: int, after: seq<Distribution>)
    requires forall d :: d in after ==> d.kind != MaxNumberPerNode
    ensures IsLast(before + [Distribution(MaxNumberPerNode, n)] + after, |before|)
  {
    var ds := before + [Distribution(MaxNumberPerNode, n)] + after;
    assert forall j :: |before| < j < |ds| ==> ds[j] == after[j - |before| - 1];
  }

  /** The number FillSelfCalculatedAddressInfo settles on: the last one met on the walk over the pod
      templates, whose order is that of a Go map. */
  method MaxPerNode(distributions: seq<Distribution>) returns (n: int)
    ensures (forall d :: d in distributions ==> d.kind != MaxNumberPerNode) ==> n == 0
    ensures forall k :: IsLast(distributions, k) ==> n == distributions[k].number
    ensures forall before, number, after ::
              (distributions == before + [Distribution(MaxNumberPerNode, number)] + after &&
               forall d :: d in after ==> d.kind != MaxNumberPerNode) ==>
                n == number
  {
    n := 0;
    for i := 0 to |distributions|
      invariant (forall k :: 0 <= k < i ==> distributions[k].kind != MaxNumberPerNode) ==> n == 0
      invariant forall k :: IsLast(distributions[..i], k) ==> n == distributions[k].number
    {
      if distributions[i].kind == MaxNumberPerNode {
        n := distributions[i].number;
      }
      assert forall k :: k < i && IsLast(distributions[..i + 1], k) ==> IsLast(distributions[..i], k);
    }
    assert distributions[..|distributions|] == distributions;
    forall before, number, after |
      distributions == before + [Distribution(MaxNumberPerNode, number)] + after &&
      forall d :: d in after ==> d.kind != MaxNumberPerNode
      ensures n == number
    {
      LastOf(before, number, after);
    }
  }

  // ---- The walk over all hosts -------------------------------------------------------------------

  /** How many hosts come before shard s of a cluster. */
  function HostsBefore(cluster: Cluster, s: nat): nat
    requires s <= |cluster|
  {
    if s == 0 then 0 else HostsBefore(cluster, s - 1) + |cluster[s - 1]|
  }

  function HostsCount(cluster: Cluster): nat {
    HostsBefore(cluster, |cluster|)
  }

  /** How many hosts come before cluster c. */
  function ClustersBefore(clusters: seq<Cluster>, c: nat): nat
    requires c <= |clusters|
  {
    if c == 0 then 0 else ClustersBefore(clusters, c - 1) + HostsCount(clusters[c - 1])
  }

  /** The cycle and the place in it of the i-th host; one endless cycle when the size is 0. */
  function CycleOf(size: nat, i: nat): nat {
    if size == 0 then 0 else i / size
  }

  function OffsetOf(size: nat, i: nat): nat {
    if size == 0 then i else i % size
  }

  lemma {:induction false} NextInCycle(size: nat, i: nat)
    ensures size > 0 && OffsetOf(size, i) + 1 >= size ==>
              CycleOf(size, i + 1) == CycleOf(size, i) + 1 && OffsetOf(size, i + 1) == 0
    ensures size == 0 || OffsetOf(size, i) + 1 < size ==>
              CycleOf(size, i + 1) == CycleOf(size, i) && OffsetOf(size, i + 1) == OffsetOf(size, i) + 1
  {
    if size > 0 {
      var q, r := i / size, i % size;
      assert i == q * size + r;
      if r + 1 >= size {
        DivModUnique(size, i + 1, q + 1, 0);
      } else {
        DivModUnique(size, i + 1, q, r + 1);
      }
    }
  }

  lemma {:induction false} DivModUnique(d: nat, n: nat, q: nat, r: nat)
    requires d > 0 && r < d && n == q * d + r
    ensures n / d == q && n % d == r
  {
    var k := n / d - q;
    assert n / d * d + n % d == n;
    assert k * d == n / d * d - q * d;
    Multiple(k, d);
  }

  /** The address of host r of shard s of cluster c. */
  function Expected(clusters: seq<Cluster>, chiSize: nat, clusterSize: nat, c: nat, s: nat, r: nat): Address
    requires c < |clusters| && s < |clusters[c]| && r < |clusters[c][s]|
  {
    var inCluster := HostsBefore(clusters[c], s) + r;
    var inChi := ClustersBefore(clusters, c) + inCluster;
    Address(c, s, r,
            inChi, CycleOf(chiSize, inChi), OffsetOf(chiSize, inChi),
            inCluster, clusterSize, CycleOf(clusterSize, inCluster), OffsetOf(clusterSize, inCluster))
  }

  predicate IsHost(clusters: seq<Cluster>, c: int, s: int, r: int) {
    0 <= c < |clusters| && 0 <= s < |clusters[c]| && 0 <= r < |clusters[c][s]|
  }

  /** Distinct places hold distinct hosts, as layout normalisation leaves them. */
  ghost predicate DistinctHosts(clusters: seq<Cluster>) {
    forall c, s, r, c', s', r' ::
      (IsHost(clusters, c, s, r) && IsHost(clusters, c', s', r') && clusters[c][s][r] == clusters[c'][s'][r'])
      ==> c == c' && s == s' && r == r'
  }

  /** The walk has not come to (c, s, r) yet, but to all places before it. */
  predicate Visited(c: int, s: int, r: int, c': int, s': int, r': int) {
    c < c' || (c == c' && (s < s' || (s == s' && r < r')))
  }

  ghost predicate Numbered(
    clusters: seq<Cluster>, all: set<Host>, chiSize: nat, clusterSize: nat, c': int, s': int, r': int)
    reads all
  {
    forall c, s, r :: IsHost(clusters, c, s, r) && Visited(c, s, r, c', s', r') && clusters[c][s][r] in all ==>
      clusters[c][s][r].address == Expected(clusters, chiSize, clusterSize, c, s, r)
  }

  /** The counters of WalkHostsFullPath on one scope. */
  datatype Counter = Counter(index: nat, cycle: nat, offset: nat)

  /** One step of the counters, as the code takes it. */
  function Advance(size: nat, k: Counter): Counter {
    var offset := k.offset + 1;
    if size > 0 && offset >= size then Counter(k.index + 1, k.cycle + 1, 0) else Counter(k.index + 1, k.cycle, offset)
  }

  function CounterAt(size: nat, i: nat): Counter {
    Counter(i, CycleOf(size, i), OffsetOf(size, i))
  }

  lemma {:induction false} AdvanceCounts(size: nat, i: nat)
    ensures Advance(size, CounterAt(size, i)) == CounterAt(size, i + 1)
  {
    NextInCycle(size, i);
  }

  /** WalkHostsFullPath with the callback of FillSelfCalculatedAddressInfo: every host's address holds
      its index in each scope, divided into cycles. */
  method FillAddresses(clusters: seq<Cluster>, chiSize: nat, clusterSize: nat, ghost all: set<Host>)
    requires DistinctHosts(clusters)
    requires forall c, s, r :: IsHost(clusters, c, s, r) ==> clusters[c][s][r] in all
    modifies all
    ensures forall c, s, r :: IsHost(clusters, c, s, r) ==>
              clusters[c][s][r].address == Expected(clusters, chiSize, clusterSize, c, s, r)
  {
    var chi := Counter(0, 0, 0);
    var c := 0;
    while c < |clusters|
      invariant c <= |clusters|
      invariant chi == CounterAt(chiSize, ClustersBefore(clusters, c))
      invariant Numbered(clusters, all, chiSize, clusterSize, c, 0, 0)
    {
      var cluster := Counter(0, 0, 0);
      var s := 0;
      while s < |clusters[c]|
        invariant s <= |clusters[c]|
        invariant chi == CounterAt(chiSize, ClustersBefore(clusters, c) + HostsBefore(clusters[c], s))
        invariant cluster == CounterAt(clusterSize, HostsBefore(clusters[c], s))
        invariant Numbered(clusters, all, chiSize, clusterSize, c, s, 0)
      {
        chi, cluster := FillShard(clusters, c, s, chi, cluster, chiSize, clusterSize, all);
        s := s + 1;
      }
      c := c + 1;
    }
  }

  /** The innermost loop of the walk. */
  method FillShard(
    clusters: seq<Cluster>, c: nat, s: nat, chi0: Counter, cluster0: Counter, chiSize: nat, clusterSize: nat,
    ghost all: set<Host>)
    returns (chi: Counter, cluster: Counter)
    requires DistinctHosts(clusters) && c < |clusters| && s < |clusters[c]|
    requires forall c, s, r :: IsHost(clusters, c, s, r) ==> clusters[c][s][r] in all
    requires chi0 == CounterAt(chiSize, ClustersBefore(clusters, c) + HostsBefore(clusters[c], s))
    requires cluster0 == CounterAt(clusterSize, HostsBefore(clusters[c], s))
    requires Numbered(clusters, all, chiSize, clusterSize, c, s, 0)
    modifies all
    ensures chi == CounterAt(chiSize, ClustersBefore(clusters, c) + HostsBefore(clusters[c], s) + |clusters[c][s]|)
    ensures cluster == CounterAt(clusterSize, HostsBefore(clusters[c], s) + |clusters[c][s]|)
    ensures Numbered(clusters, all, chiSize, clusterSize, c, s + 1, 0)
  {
    chi, cluster := chi0, cluster0;
    for r := 0 to |clusters[c][s]|
      invariant chi == CounterAt(chiSize, ClustersBefore(clusters, c) + HostsBefore(clusters[c], s) + r)
      invariant cluster == CounterAt(clusterSize, HostsBefore(clusters[c], s) + r)
      invariant Numbered(clusters, all, chiSize, clusterSize, c, s, r)
    {
      assert IsHost(clusters, c, s, r);
      var host := clusters[c][s][r];
      host.address := Address(c, s, r, chi.index, chi.cycle, chi.offset,
                              cluster.index, clusterSize, cluster.cycle, cluster.offset);
      AdvanceCounts(chiSize, chi.index);
      AdvanceCounts(clusterSize, cluster.index);
      chi := Advance(chiSize, chi);
      cluster := Advance(clusterSize, cluster);
    }
  }

  // ---- The pointer to the previous cycle ---------------------------------------------------------

  /** clusterScopeIndexOfPreviousCycleTail */
  function PreviousCycleTail(a: Address): nat {
    if a.clusterScopeCycleOffset == 0 then
      if a.clusterScopeIndex == 0 then a.clusterScopeIndex else a.clusterScopeIndex - 1
    else a.clusterScopeIndex
  }

  /** For the head of any cycle but the first, it is the index of the last host of the preceding cycle;
      for every other host it is the host's own. It is an index in the cluster either way. */
  lemma {:induction false} PreviousCycleTailIsTail(
    clusters: seq<Cluster>, chiSize: nat, size: nat, c: nat, s: nat, r: nat)
    requires IsHost(clusters, c, s, r)
    ensures var a := Expected(clusters, chiSize, size, c, s, r);
            var p := PreviousCycleTail(a);
            && p < HostsCount(clusters[c])
            && (if a.clusterScopeCycleOffset == 0 && a.clusterScopeCycleIndex > 0
                then CycleOf(size, p) == a.clusterScopeCycleIndex - 1 && OffsetOf(size, p) == size - 1
                else p == a.clusterScopeIndex)
  {
    HostsBeforeGrows(clusters[c], s, r);
    var i := HostsBefore(clusters[c], s) + r;
    if OffsetOf(size, i) == 0 {
      HeadFollowsTail(size, i);
    }
  }

  /** Only the head of the first cycle is the first host; every other head comes right after a tail. */
  lemma {:induction false} HeadFollowsTail(size: nat, i: nat)
    requires OffsetOf(size, i) == 0
    ensures i == 0 ==> CycleOf(size, i) == 0
    ensures i > 0 ==> size > 0 && CycleOf(size, i) > 0
    ensures i > 0 ==> CycleOf(size, i - 1) == CycleOf(size, i) - 1 && OffsetOf(size, i - 1) == size - 1
  {
    if size > 0 && i > 0 {
      var q := i / size;
      assert i == q * size;
      Multiple(q, size);
      assert (q - 1) * size + (size - 1) == i - 1;
      DivModUnique(size, i - 1, q - 1, size - 1);
    } else if size > 0 {
      DivModUnique(size, 0, 0, 0);
    }
  }

  lemma {:induction false} HostsBeforeGrows(cluster: Cluster, s: nat, r: nat)
    requires s < |cluster| && r < |cluster[s]|
    ensures HostsBefore(cluster, s) + r < HostsCount(cluster)
  {
    HostsBeforeMonotone(cluster, s + 1, |cluster|);
  }

  lemma {:induction false} HostsBeforeMonotone(cluster: Cluster, s: nat, t: nat)
    requires s <= t <= |cluster|
    ensures HostsBefore(cluster, s) <= HostsBefore(cluster, t)
  {
    if s < t {
      HostsBeforeMonotone(cluster, s, t - 1);
    }
  }

  // ---- Placement under anti-affinity -------------------------------------------------------------

  datatype Scope = ShardScope | ReplicaScope | ClusterScope | ChiScope | NamespaceScope | GlobalScope | NoScope

  /** The labels of a pod that the MaxNumberPerNode term matches on, within one cluster. */
  datatype Labels = Labels(cycle: nat, shard: string, replica: string)

  /** newMatchLabels on the cycle index: what two pods of one cluster must agree on to repel each other.
      Namespace, CHI and cluster names agree anyway. */
  function MatchLabels(scope: Scope, l: Labels): Labels {
    match scope
    case ShardScope => l.(replica := "")
    case ReplicaScope => l.(shard := "")
    case _ => Labels(l.cycle, "", "")
  }

  /** Two pods of a cluster repel each other if they are of one cycle and, when the scope names the shard or the
      replica, of one shard or one replica. */
  lemma {:induction false} RepelWhen(scope: Scope, a: Labels, b: Labels)
    ensures MatchLabels(scope, a) == MatchLabels(scope, b) <==>
            && a.cycle == b.cycle
            && (scope == ShardScope ==> a.shard == b.shard)
            && (scope == ReplicaScope ==> a.replica == b.replica)
  {
  }

  /** Two pods that repel each other are on different nodes. */
  ghost predicate Obeys(scope: Scope, pods: seq<Labels>, place: seq<int>) {
    && |place| == |pods|
    && forall i, j :: 0 <= i < j < |pods| && MatchLabels(scope, pods[i]) == MatchLabels(scope, pods[j]) ==>
         place[i] != place[j]
  }

  /** The pods on a node. */
  ghost function On(place: seq<int>, node: int): set<int> {
    set i | 0 <= i < |place| && place[i] == node
  }

  /** The labels that the pods of a cluster are told apart by. */
  ghost function Classes(scope: Scope, pods: seq<Labels>): set<Labels> {
    set i | 0 <= i < |pods| :: MatchLabels(scope, pods[i])
  }

  /** Different values at some places of a list are as many as the places. */
  lemma {:induction false} PlacesSize<T>(place: seq<T>, some: set<int>)
    requires forall i :: i in some ==> 0 <= i < |place|
    requires forall i, j :: i in some && j in some && place[i] == place[j] ==> i == j
    ensures |set i | i in some :: place[i]| == |some|
  {
    if exists i :: i in some {
      var i :| i in some;
      var rest := some - {i};
      PlacesSize(place, rest);
      assert (set k | k in some :: place[k]) == (set k | k in rest :: place[k]) + {place[i]};
    }
  }

  lemma {:induction false} ImageSize(scope: Scope, pods: seq<Labels>, some: set<int>)
    requires forall i :: i in some ==> 0 <= i < |pods|
    requires forall i, j ::
               i in some && j in some && MatchLabels(scope, pods[i]) == MatchLabels(scope, pods[j]) ==> i == j
    ensures |set i | i in some :: MatchLabels(scope, pods[i])| == |some|
  {
    var labels := seq(|pods|, i requires 0 <= i < |pods| => MatchLabels(scope, pods[i]));
    PlacesSize(labels, some);
    assert (set i | i in some :: MatchLabels(scope, pods[i])) == set i | i in some :: labels[i];
  }

  lemma {:induction false} SubsetSize<T>(a: set<T>, b: set<T>)
    requires a <= b
    ensures |a| <= |b|
  {
    assert b == a + (b - a);
  }

  /** No node holds more pods of the cluster than there are classes. */
  lemma {:induction false} AtMostOnePerClass(scope: Scope, pods: seq<Labels>, place: seq<int>, node: int)
    requires Obeys(scope, pods, place)
    ensures |On(place, node)| <= |Classes(scope, pods)|
  {
    var on := On(place, node);
    ImageSize(scope, pods, on);
    SubsetSize(set i | i in on :: MatchLabels(scope, pods[i]), Classes(scope, pods));
  }

  /** The pod is the first of its class. */
  predicate IsFirst(scope: Scope, pods: seq<Labels>, i: nat)
    requires i < |pods|
  {
    forall j :: 0 <= j < i ==> MatchLabels(scope, pods[j]) != MatchLabels(scope, pods[i])
  }

  /** A placement that puts the first pod of every class on node 0, and every other pod alone. */
  function Crowded(scope: Scope, pods: seq<Labels>): seq<int> {
    seq(|pods|, i requires 0 <= i < |pods| => if IsFirst(scope, pods, i) then 0 else i + 1)
  }

  lemma {:induction false} FirstOf(scope: Scope, pods: seq<Labels>, i: nat) returns (j: nat)
    requires i < |pods|
    ensures j <= i && MatchLabels(scope, pods[j]) == MatchLabels(scope, pods[i]) && IsFirst(scope, pods, j)
  {
    j := i;
    if !IsFirst(scope, pods, i) {
      var k :| 0 <= k < i && MatchLabels(scope, pods[k]) == MatchLabels(scope, pods[i]);
      j := FirstOf(scope, pods, k);
    }
  }

  lemma {:induction false} CrowdedObeys(scope: Scope, pods: seq<Labels>)
    ensures Obeys(scope, pods, Crowded(scope, pods))
  {
  }

  lemma {:induction false} FirstsMeetEveryClass(scope: Scope, pods: seq<Labels>, firsts: set<int>)
    requires forall i :: i in firsts <==> 0 <= i < |pods| && IsFirst(scope, pods, i)
    ensures (set i | i in firsts :: MatchLabels(scope, pods[i])) == Classes(scope, pods)
  {
    forall l | l in Classes(scope, pods)
      ensures exists j :: j in firsts && MatchLabels(scope, pods[j]) == l
    {
      var i :| 0 <= i < |pods| && MatchLabels(scope, pods[i]) == l;
      var j := FirstOf(scope, pods, i);
      assert j in firsts;
    }
  }

  lemma {:induction false} CrowdedFillsANode(scope: Scope, pods: seq<Labels>)
    ensures |On(Crowded(scope, pods), 0)| == |Classes(scope, pods)|
  {
    var firsts := On(Crowded(scope, pods), 0);
    FirstsMeetEveryClass(scope, pods, firsts);
    ImageSize(scope, pods, firsts);
  }

  ghost predicate BoundsEveryNode(scope: Scope, pods: seq<Labels>, most: nat) {
    forall place, node :: Obeys(scope, pods, place) ==> |On(place, node)| <= most
  }

  /** The exact strength of the term, whatever its scope: it keeps every node at or below a number of
      pods if and only if there are at most that many classes. */
  lemma {:induction false} BoundIsNumberOfClasses(scope: Scope, pods: seq<Labels>, most: nat)
    ensures BoundsEveryNode(scope, pods, most) <==> |Classes(scope, pods)| <= most
  {
    CrowdedObeys(scope, pods);
    CrowdedFillsANode(scope, pods);
    if |Classes(scope, pods)| <= most {
      forall place, node | Obeys(scope, pods, place)
        ensures |On(place, node)| <= most
      {
        AtMostOnePerClass(scope, pods, place, node);
      }
    }
  }

  /** The pods of a cluster carry the cycle of their index. */
  ghost predicate Cycled(pods: seq<Labels>, size: nat) {
    forall i :: 0 <= i < |pods| ==> pods[i].cycle == CycleOf(size, i)
  }

  predicate Coarse(scope: Scope) {
    scope != ShardScope && scope != ReplicaScope
  }

  /** The first n cycles, as labels of a coarse scope. */
  function CycleLabels(n: nat): (s: set<Labels>)
    ensures |s| == n
    ensures forall l :: l in s <==> l.shard == "" && l.replica == "" && l.cycle < n
  {
    if n == 0 then {} else CycleLabels(n - 1) + {Labels(n - 1, "", "")}
  }

  /** How many cycles so many pods make. */
  function CyclesOf(size: nat, pods: nat): nat {
    if pods == 0 then 0 else CycleOf(size, pods - 1) + 1
  }

  lemma {:induction false} CycleMonotone(size: nat, i: nat, j: nat)
    requires i <= j
    ensures CycleOf(size, i) <= CycleOf(size, j)
  {
    if size > 0 {
      assert i == i / size * size + i % size && j == j / size * size + j % size;
      Multiple(i / size - j / size, size);
    }
  }

  lemma {:induction false} EveryCycleIsMet(size: nat, pods: nat, k: nat)
    requires k < CyclesOf(size, pods)
    ensures exists i :: 0 <= i < pods && CycleOf(size, i) == k
  {
    if CycleOf(size, pods - 1) != k {
      NextInCycle(size, pods - 2);
      EveryCycleIsMet(size, pods - 1, k);
    }
  }

  lemma {:induction false} CycleIsAClass(scope: Scope, pods: seq<Labels>, size: nat, l: Labels)
    requires Coarse(scope) && Cycled(pods, size)
    requires l.shard == "" && l.replica == "" && l.cycle < CyclesOf(size, |pods|)
    ensures l in Classes(scope, pods)
  {
    EveryCycleIsMet(size, |pods|, l.cycle);
    var i :| 0 <= i < |pods| && CycleOf(size, i) == l.cycle;
    assert MatchLabels(scope, pods[i]) == l;
  }

  lemma {:induction false} ClassIsACycle(scope: Scope, pods: seq<Labels>, size: nat, i: nat)
    requires Coarse(scope) && Cycled(pods, size) && i < |pods|
    ensures MatchLabels(scope, pods[i]) in CycleLabels(CyclesOf(size, |pods|))
  {
    CycleMonotone(size, i, |pods| - 1);
  }

  /** In a coarse scope the classes are the cycles. */
  lemma {:induction false} CoarseClassesAreCycles(scope: Scope, pods: seq<Labels>, size: nat)
    requires Coarse(scope) && Cycled(pods, size)
    ensures |Classes(scope, pods)| == CyclesOf(size, |pods|)
  {
    var cycles := CycleLabels(CyclesOf(size, |pods|));
    assert cycles <= Classes(scope, pods) by {
      forall l | l in cycles { CycleIsAClass(scope, pods, size, l); }
    }
    assert Classes(scope, pods) <= cycles by {
      forall i | 0 <= i < |pods| { ClassIsACycle(scope, pods, size, i); }
    }
    assert Classes(scope, pods) == cycles;
  }

  lemma {:induction false} DivBelow(x: nat, d: nat, n: nat)
    requires d > 0 && x < d * n
    ensures x / d < n
  {
    var q := x / d;
    assert x == q * d + x % d;
    Multiple(q - n + 1, d);
    assert (q - n + 1) * d == q * d - d * n + d;
  }

  lemma {:induction false} SameCycleAndOffset(d: nat, i: nat, j: nat)
    requires d > 0 && i / d == j / d && i != j
    ensures i % d != j % d
  {
    assert i == i / d * d + i % d && j == j / d * d + j % d;
  }

  /** The promise of MaxNumberPerNode: with a coarse scope, no node holds more pods of a cluster than
      asked for, wherever the scheduler puts them within the term. */
  lemma {:induction false} MaxNumberPerNodeHolds(scope: Scope, pods: seq<Labels>, hosts: nat, maxPerNode: int)
    requires Coarse(scope) && |pods| <= hosts
    requires CycleSize(hosts, maxPerNode) >= 0 && Cycled(pods, CycleSize(hosts, maxPerNode))
    ensures BoundsEveryNode(scope, pods, Requested(maxPerNode))
  {
    var n, size := Requested(maxPerNode), CycleSize(hosts, maxPerNode);
    CoarseClassesAreCycles(scope, pods, size);
    if |pods| > 0 && n > 1 {
      CycleSizeIsLeast(hosts, maxPerNode);
      DivBelow(|pods| - 1, size, n);
    }
    BoundIsNumberOfClasses(scope, pods, n);
  }

  /** With the Shard scope the promise fails: one pod per node is asked for, and two shards of one
      replica may share a node. */
  lemma {:induction false} ShardScopeBreaksThePromise()
    ensures var pods := [Labels(0, "0", "0"), Labels(0, "1", "0")];
            Cycled(pods, CycleSize(2, 1)) && !BoundsEveryNode(ShardScope, pods, Requested(1))
  {
    var pods := [Labels(0, "0", "0"), Labels(0, "1", "0")];
    var place := [7, 7];
    assert MatchLabels(ShardScope, pods[0]) != MatchLabels(ShardScope, pods[1]);
    assert Obeys(ShardScope, pods, place);
    assert On(place, 7) == {0, 1};
  }

  // ---- The least number of nodes -----------------------------------------------------------------

  ghost function Nodes(place: seq<int>): set<int> {
    set i | 0 <= i < |place| :: place[i]
  }

  /** The integers below n. */
  function Below(n: nat): (s: set<int>)
    ensures |s| == n && forall k :: k in s <==> 0 <= k < n
  {
    if n == 0 then {} else Below(n - 1) + {n - 1}
  }

  /** For a CHI of a single cluster that asks for two pods per node or more, as many nodes as a cycle is
      long are enough, and no placement does with fewer. */
  lemma {:induction false} CycleSizeNodesAreLeast(scope: Scope, pods: seq<Labels>, maxPerNode: int)
    requires Coarse(scope) && maxPerNode >= 2 && |pods| > 0
    requires CycleSize(|pods|, maxPerNode) >= 0 && Cycled(pods, CycleSize(|pods|, maxPerNode))
    ensures exists place :: Obeys(scope, pods, place) && |Nodes(place)| == CycleSize(|pods|, maxPerNode)
    ensures forall place :: Obeys(scope, pods, place) ==> |Nodes(place)| >= CycleSize(|pods|, maxPerNode)
  {
    var size := CycleSize(|pods|, maxPerNode);
    CycleSizeIsLeast(|pods|, maxPerNode);
    RoundRobinObeys(scope, pods, size);
    forall place | Obeys(scope, pods, place)
      ensures |Nodes(place)| >= size
    {
      var first := Below(size);
      forall i | i in first
        ensures pods[i].cycle == 0
      {
        DivModUnique(size, i, 0, i);
      }
      PlacesSize(place, first);
      SubsetSize(set i | i in first :: place[i], Nodes(place));
    }
  }

  /** Each host on the node of its offset. */
  lemma {:induction false} RoundRobinObeys(scope: Scope, pods: seq<Labels>, size: nat)
    requires Coarse(scope) && 0 < size <= |pods| && Cycled(pods, size)
    ensures exists place :: Obeys(scope, pods, place) && |Nodes(place)| == size
  {
    var place := seq(|pods|, i requires 0 <= i < |pods| => i % size);
    forall i, j | 0 <= i < j < |pods| && MatchLabels(scope, pods[i]) == MatchLabels(scope, pods[j])
      ensures place[i] != place[j]
    {
      SameCycleAndOffset(size, i, j);
    }
    forall k | k in Below(size)
      ensures k in Nodes(place)
    {
      DivModUnique(size, k, 0, k);
      assert place[k] == k;
    }
    assert Nodes(place) == Below(size);
    assert Obeys(scope, pods, place) && |Nodes(place)| == size;
  }

  // ---- From the pod templates to the nodes ---------------------------------------------------------

  /** The hosts of the first n shards of a cluster. */
  function HostsOf(cluster: Cluster, n: nat): seq<Host>
    requires n <= |cluster|
  {
    if n == 0 then [] else HostsOf(cluster, n - 1) + cluster[n - 1]
  }

  /** The hosts of the first n clusters. */
  function HostsOfAll(clusters: seq<Cluster>, n: nat): seq<Host>
    requires n <= |clusters|
  {
    if n == 0 then [] else HostsOfAll(clusters, n - 1) + HostsOf(clusters[n - 1], |clusters[n - 1]|)
  }

  lemma {:induction false} HostsOfAllSize(clusters: seq<Cluster>, n: nat)
    requires n <= |clusters|
    ensures |HostsOfAll(clusters, n)| == ClustersBefore(clusters, n)
  {
    if n > 0 {
      HostsOfAllSize(clusters, n - 1);
      HostsOfSize(clusters[n - 1], |clusters[n - 1]|);
    }
  }

  /** The address tells the place of the host, its index among all hosts and among those of its cluster, and each index
      divided into cycles of its size, or into none. */
  ghost predicate AddressByField(
    clusters: seq<Cluster>, c: int, s: int, r: int, a: Address, chiSize: nat, size: nat)
    requires IsHost(clusters, c, s, r)
  {
    var inCluster := |HostsOf(clusters[c], s)| + r;
    var inChi := |HostsOfAll(clusters, c)| + inCluster;
    && a.clusterIndex == c && a.shardIndex == s && a.replicaIndex == r
    && a.clusterScopeIndex == inCluster
    && a.chiScopeIndex == inChi
    && a.chiScopeCycleIndex == (if chiSize == 0 then 0 else inChi / chiSize)
    && a.chiScopeCycleOffset == (if chiSize == 0 then inChi else inChi % chiSize)
    && a.clusterScopeCycleSize == size
    && a.clusterScopeCycleIndex == (if size == 0 then 0 else inCluster / size)
    && a.clusterScopeCycleOffset == (if size == 0 then inCluster else inCluster % size)
  }

  lemma {:induction false} ExpectedByField(
    clusters: seq<Cluster>, chiSize: nat, size: nat, c: nat, s: nat, r: nat)
    requires IsHost(clusters, c, s, r)
    ensures AddressByField(clusters, c, s, r, Expected(clusters, chiSize, size, c, s, r), chiSize, size)
  {
    HostsOfSize(clusters[c], s);
    HostsOfAllSize(clusters, c);
  }

  /** The labels of a host's pod, given the names of shards and replicas. */
  function LabelsOf(host: Host, shardName: nat -> string, replicaName: nat -> string): Labels
    reads host
  {
    var a := host.address;
    Labels(a.clusterScopeCycleIndex, shardName(a.shardIndex), replicaName(a.replicaIndex))
  }

  /** The pods of a cluster, in the order of the walk. */
  ghost predicate PodsOf(cluster: Cluster, pods: seq<Labels>, shardName: nat -> string, replicaName: nat -> string)
    reads HostsOf(cluster, |cluster|)
  {
    var hosts := HostsOf(cluster, |cluster|);
    |pods| == |hosts| && forall i :: 0 <= i < |hosts| ==> pods[i] == LabelsOf(hosts[i], shardName, replicaName)
  }

  /** The walk's i-th host of a cluster is some host r of some shard s. */
  lemma {:induction false} PlaceOf(cluster: Cluster, n: nat, i: nat) returns (s: nat, r: nat)
    requires n <= |cluster| && i < |HostsOf(cluster, n)|
    ensures s < n && r < |cluster[s]| && HostsBefore(cluster, s) + r == i && HostsOf(cluster, n)[i] == cluster[s][r]
  {
    HostsOfSize(cluster, n - 1);
    if i < |HostsOf(cluster, n - 1)| {
      s, r := PlaceOf(cluster, n - 1, i);
    } else {
      s, r := n - 1, i - |HostsOf(cluster, n - 1)|;
    }
  }

  lemma {:induction false} HostsOfSize(cluster: Cluster, n: nat)
    requires n <= |cluster|
    ensures |HostsOf(cluster, n)| == HostsBefore(cluster, n)
  {
    if n > 0 {
      HostsOfSize(cluster, n - 1);
    }
  }

  lemma {:induction false} ClusterWithinChi(clusters: seq<Cluster>, c: nat, n: nat)
    requires c < n <= |clusters|
    ensures HostsCount(clusters[c]) <= ClustersBefore(clusters, n)
  {
    if c < n - 1 {
      ClusterWithinChi(clusters, c, n - 1);
    }
  }

  /** Every address is the expected one. */
  ghost predicate Addressed(clusters: seq<Cluster>, all: set<Host>, chiSize: nat, clusterSize: nat)
    requires forall c, s, r :: IsHost(clusters, c, s, r) ==> clusters[c][s][r] in all
    reads all
  {
    forall c, s, r :: IsHost(clusters, c, s, r) ==>
      clusters[c][s][r].address == Expected(clusters, chiSize, clusterSize, c, s, r)
  }

  /** The pods of an addressed cluster carry the cycle of their index. */
  lemma {:induction false} AddressedPodsAreCycled(
    clusters: seq<Cluster>, all: set<Host>, chiSize: nat, size: nat, c: nat, pods: seq<Labels>,
    shardName: nat -> string, replicaName: nat -> string)
    requires forall c, s, r :: IsHost(clusters, c, s, r) ==> clusters[c][s][r] in all
    requires Addressed(clusters, all, chiSize, size)
    requires c < |clusters| && PodsOf(clusters[c], pods, shardName, replicaName)
    ensures Cycled(pods, size) && |pods| == HostsCount(clusters[c])
  {
    var cluster := clusters[c];
    HostsOfSize(cluster, |cluster|);
    forall i | 0 <= i < |pods|
      ensures pods[i].cycle == CycleOf(size, i)
    {
      var s, r := PlaceOf(cluster, |cluster|, i);
      assert IsHost(clusters, c, s, r);
    }
  }

  /** The cluster scope index of an addressed host is its place in the walk. */
  lemma {:induction false} AddressedIndexIsPlace(
    clusters: seq<Cluster>, all: set<Host>, chiSize: nat, size: nat, c: nat, i: nat)
    requires forall c, s, r :: IsHost(clusters, c, s, r) ==> clusters[c][s][r] in all
    requires Addressed(clusters, all, chiSize, size)
    requires c < |clusters| && i < |HostsOf(clusters[c], |clusters[c]|)|
    ensures HostsOf(clusters[c], |clusters[c]|)[i].address.clusterScopeIndex == i
  {
    var s, r := PlaceOf(clusters[c], |clusters[c]|, i);
    assert IsHost(clusters, c, s, r);
  }

  /** As many nodes as this can take the pods, and no fewer. */
  ghost predicate LeastNodes(scope: Scope, pods: seq<Labels>, nodes: nat) {
    && (exists place :: Obeys(scope, pods, place) && |Nodes(place)| == nodes)
    && (forall place :: Obeys(scope, pods, place) ==> |Nodes(place)| >= nodes)
  }

  method CountHosts(clusters: seq<Cluster>) returns (n: nat)
    ensures n == ClustersBefore(clusters, |clusters|)
  {
    n := 0;
    for c := 0 to |clusters|
      invariant n == ClustersBefore(clusters, c)
    {
      for s := 0 to |clusters[c]|
        invariant n == ClustersBefore(clusters, c) + HostsBefore(clusters[c], s)
      {
        for r := 0 to |clusters[c][s]|
          invariant n == ClustersBefore(clusters, c) + HostsBefore(clusters[c], s) + r
        {
          n := n + 1;
        }
      }
    }
  }

  /** What the addresses do for the pods of every cluster under an anti-affinity whose scope names neither shard
      nor replica: no node gets more pods than asked for, and the pods of an installation with a single cluster
      that asks for two or more need exactly as many nodes as a cycle is long. */
  lemma {:induction false} AddressesBoundNodes(
    clusters: seq<Cluster>, all: set<Host>, maxPerNode: int, size: nat, scope: Scope, c: nat, pods: seq<Labels>,
    shardName: nat -> string, replicaName: nat -> string)
    requires forall c, s, r :: IsHost(clusters, c, s, r) ==> clusters[c][s][r] in all
    requires size == CycleSize(ClustersBefore(clusters, |clusters|), maxPerNode)
    requires Addressed(clusters, all, 0, size)
    requires Coarse(scope) && c < |clusters| && PodsOf(clusters[c], pods, shardName, replicaName)
    ensures BoundsEveryNode(scope, pods, Requested(maxPerNode))
    ensures |clusters| == 1 && maxPerNode >= 2 && pods != [] ==> LeastNodes(scope, pods, size)
  {
    var hosts := ClustersBefore(clusters, |clusters|);
    AddressedPodsAreCycled(clusters, all, 0, size, c, pods, shardName, replicaName);
    ClusterWithinChi(clusters, c, |clusters|);
    MaxNumberPerNodeHolds(scope, pods, hosts, maxPerNode);
    if |clusters| == 1 && maxPerNode >= 2 && pods != [] {
      assert hosts == |pods|;
      CycleSizeNodesAreLeast(scope, pods, maxPerNode);
    }
  }

  /** FillSelfCalculatedAddressInfo: the number asked for, the number of hosts, the size of a cycle, the walk.
      The pods of every cluster, under any names of shards and replicas and for any scope of the term that names
      neither, are then spread as AddressesBoundNodes says. */
  method FillSelfCalculatedAddressInfo(clusters: seq<Cluster>, distributions: seq<Distribution>, ghost all: set<Host>)
    returns (maxPerNode: int, size: nat)
    requires DistinctHosts(clusters)
    requires forall c, s, r :: IsHost(clusters, c, s, r) ==> clusters[c][s][r] in all
    modifies all
    ensures (forall d :: d in distributions ==> d.kind != MaxNumberPerNode) ==> maxPerNode == 0
    ensures forall k :: IsLast(distributions, k) ==> maxPerNode == distributions[k].number
    ensures size == CycleSize(ClustersBefore(clusters, |clusters|), maxPerNode)
    ensures Addressed(clusters, all, 0, size)
    // the size and the addresses, field by field
    ensures maxPerNode <= 1 ==> size == 0
    ensures maxPerNode >= 2 ==>
              var hosts := ClustersBefore(clusters, |clusters|);
              (size - 1) * maxPerNode < hosts <= size * maxPerNode
    ensures forall c, s, r :: IsHost(clusters, c, s, r) ==>
              AddressByField(clusters, c, s, r, clusters[c][s][r].address, 0, size)
    ensures forall scope, c, pods, shardName, replicaName ::
              (Coarse(scope) && 0 <= c < |clusters| && PodsOf(clusters[c], pods, shardName, replicaName)) ==>
              BoundsEveryNode(scope, pods, Requested(maxPerNode))
  {
    maxPerNode := MaxPerNode(distributions);
    var hosts := CountHosts(clusters);
    if maxPerNode >= 2 {
      CycleSizeIsLeast(hosts, maxPerNode);
    }
    size := CycleSize(hosts, maxPerNode);
    FillAddresses(clusters, 0, size, all);
    forall c, s, r | IsHost(clusters, c, s, r)
      ensures AddressByField(clusters, c, s, r, clusters[c][s][r].address, 0, size)
    {
      ExpectedByField(clusters, 0, size, c, s, r);
    }
    forall scope, c, pods, shardName, replicaName |
      Coarse(scope) && 0 <= c < |clusters| && PodsOf(clusters[c], pods, shardName, replicaName)
      ensures BoundsEveryNode(scope, pods, Requested(maxPerNode))
    {
      AddressesBoundNodes(clusters, all, maxPerNode, size, scope, c, pods, shardName, replicaName);
    }
  }
}
