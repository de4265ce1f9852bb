/** The instance allocator of the simulator (dev/RnD/chopsim/parser/parser.go): overlapping clusters
    share StatefulSets, one group of instances for each deployment key. */
module Chopsim {

  /** chiDeployment.key: scenario, pod template and the values of the zone labels, joined. */
  datatype Key = Key(text: string)

  datatype ShardSpec =
    | ByCount(replicas: nat, key: Key)    // definitionType ReplicasCount
    | ByReplicas(keys: seq<Key>)          // every replica with its own deployment, defaults filled in

  datatype LayoutSpec =
    | Standard(shards: nat, replicas: nat, key: Key)
    | Advanced(shardSpecs: seq<ShardSpec>)
    | Unknown

  /** A normalised cluster: the deployment keys of the replicas of each shard. */
  datatype Cluster = Cluster(name: string, shards: seq<seq<Key>>)

  type Refs = map<Key, nat>

  /** A StatefulSet name: the random ID of a deployment key and an instance number. */
  datatype Name = Name(id: string, instance: int)

  function Flat<T>(rows: seq<seq<T>>): seq<T> {
    if rows == [] then [] else Flat(rows[..|rows| - 1]) + rows[|rows| - 1]
  }

  lemma {:induction false} FlatNext<T>(rows: seq<seq<T>>, i: nat)
    requires i < |rows|
    ensures Flat(rows[..i + 1]) == Flat(rows[..i]) + rows[i]
  {
    assert rows[..i + 1][..i] == rows[..i];
  }

  function Repeat(key: Key, n: nat): seq<Key> {
    seq(n, _ => key)
  }

  /** The keys of the shards a layout asks for. */
  function ShardsOf(layout: LayoutSpec): seq<seq<Key>> {
    match layout
    case Standard(s, r, key) => seq(if s == 0 then 1 else s, _ => Repeat(key, if r == 0 then 1 else r))
    case Advanced(specs) => seq(|specs|, i requires 0 <= i < |specs| => KeysOf(specs[i]))
    case Unknown => []
  }

  /** A standard layout has as many shards, and in each as many replicas of its deployment, as it says, at least one; an
      advanced one has its shards, with as many replicas of the shard's deployment as it says or with the replicas it
      lists; any other layout has none. */
  ghost predicate Expanded(layout: LayoutSpec, shards: seq<seq<Key>>) {
    match layout
    case Standard(s, r, key) =>
      && |shards| == (if s > 0 then s else 1)
      && forall i :: 0 <= i < |shards| ==> AllOf(shards[i], if r > 0 then r else 1, key)
    case Advanced(specs) =>
      && |shards| == |specs|
      && (forall i :: 0 <= i < |specs| && specs[i].ByCount? ==> AllOf(shards[i], specs[i].replicas, specs[i].key))
      && (forall i :: 0 <= i < |specs| && specs[i].ByReplicas? ==> shards[i] == specs[i].keys)
    case Unknown => shards == []
  }

  predicate AllOf(keys: seq<Key>, n: nat, key: Key) {
    |keys| == n && forall j :: 0 <= j < n ==> keys[j] == key
  }

  function KeysOf(spec: ShardSpec): seq<Key> {
    match spec
    case ByCount(n, key) => Repeat(key, n)
    case ByReplicas(keys) => keys
  }

  /** How often a key occurs among the first n. */
  function Count(keys: seq<Key>, n: nat, k: Key): nat
    requires n <= |keys|
  {
    if n == 0 then 0 else Count(keys, n - 1, k) + if keys[n - 1] == k then 1 else 0
  }

  /** How often a key occurs. */
  function Occ(keys: seq<Key>, k: Key): nat {
    Count(keys, |keys|, k)
  }

  lemma {:induction false} CountConcat(a: seq<Key>, b: seq<Key>, n: nat, k: Key)
    requires n <= |a| + |b|
    ensures Count(a + b, n, k) == if n <= |a| then Count(a, n, k) else Count(a, |a|, k) + Count(b, n - |a|, k)
  {
    if n > 0 {
      CountConcat(a, b, n - 1, k);
    }
  }

  lemma {:induction false} OccNext(keys: seq<Key>, more: Key, k: Key)
    ensures Occ(keys + [more], k) == Occ(keys, k) + if more == k then 1 else 0
  {
    CountConcat(keys, [more], |keys| + 1, k);
  }

  lemma {:induction false} CountIn(keys: seq<Key>, n: nat, k: Key)
    requires n <= |keys|
    ensures Count(keys, n, k) > 0 <==> k in keys[..n]
  {
    if n > 0 {
      CountIn(keys, n - 1, k);
      assert keys[..n] == keys[..n - 1] + [keys[n - 1]];
    }
  }

  lemma {:induction false} OccIn(keys: seq<Key>, k: Key)
    ensures k in keys <==> Occ(keys, k) > 0
  {
    CountIn(keys, |keys|, k);
    assert keys[..|keys|] == keys;
  }

  /** An absent entry of a Go map reads as 0. */
  function Get(d: Refs, k: Key): nat {
    if k in d then d[k] else 0
  }

  /** The reference counts of a list of keys. */
  ghost predicate CountsOf(d: Refs, keys: seq<Key>) {
    (forall k :: Occ(keys, k) == Get(d, k)) && (forall k :: k in d ==> d[k] > 0)
  }

  /** d[key]++ for each replica of a shard. */
  method CountShard(d0: Refs, keys: seq<Key>, ghost before: seq<Key>) returns (d: Refs)
    requires CountsOf(d0, before)
    ensures CountsOf(d, before + keys)
  {
    d := d0;
    assert before + keys[..0] == before;
    for j := 0 to |keys|
      invariant CountsOf(d, before + keys[..j])
    {
      assert before + keys[..j + 1] == before + keys[..j] + [keys[j]];
      forall k { OccNext(before + keys[..j], keys[j], k); }
      d := d[keys[j] := Get(d, keys[j]) + 1];
    }
    assert before + keys[..|keys|] == before + keys;
  }

  /** getNormalizedClusterLayoutData */
  method NormalizeCluster(name: string, layout: LayoutSpec) returns (cluster: Cluster, d: Refs)
    ensures cluster == Cluster(name, ShardsOf(layout)) && Expanded(layout, cluster.shards)
    ensures CountsOf(d, Flat(cluster.shards))
  {
    var shards: seq<seq<Key>> := [];
    d := map[];
    match layout {
      case Standard(s, r, key) =>
        var replicas := if r == 0 then 1 else r;
        var count := if s == 0 then 1 else s;
        while |shards| < count
          invariant |shards| <= count && forall i :: 0 <= i < |shards| ==> shards[i] == Repeat(key, replicas)
          invariant CountsOf(d, Flat(shards))
        {
          var row := Repeat(key, replicas);
          d := CountShard(d, row, Flat(shards));
          assert (shards + [row])[..|shards|] == shards;
          shards := shards + [row];
        }
      case Advanced(specs) =>
        while |shards| < |specs|
          invariant |shards| <= |specs| && forall i :: 0 <= i < |shards| ==> shards[i] == KeysOf(specs[i])
          invariant CountsOf(d, Flat(shards))
        {
          var row := KeysOf(specs[|shards|]);
          d := CountShard(d, row, Flat(shards));
          assert (shards + [row])[..|shards|] == shards;
          shards := shards + [row];
        }
      case Unknown =>
    }
    cluster := Cluster(name, shards);
  }

  /** For each key, refs holds the largest number of its replicas in one cluster, and nothing else. */
  ghost predicate Largest(refs: Refs, clusters: seq<Cluster>) {
    && (forall i :: 0 <= i < |clusters| ==> Covered(refs, clusters[i]))
    && (forall k :: k in refs ==> Attained(refs[k], k, clusters))
  }

  /** The cluster has no more replicas of any key. */
  ghost predicate Covered(refs: Refs, cluster: Cluster) {
    forall k :: k in Flat(cluster.shards) ==> k in refs && Occ(Flat(cluster.shards), k) <= refs[k]
  }

  /** Some cluster has exactly this many replicas of the key, and at least one. */
  ghost predicate Attained(n: nat, k: Key, clusters: seq<Cluster>) {
    n > 0 && exists i :: 0 <= i < |clusters| && Occ(Flat(clusters[i].shards), k) == n
  }

  function Larger(d: Refs, another: Refs, k: Key): nat
    requires k in d || k in another
  {
    if k !in another then d[k] else if k !in d || another[k] > d[k] then another[k] else d[k]
  }

  /** The maximum for every key of either. */
  ghost predicate Merged(merged: Refs, d: Refs, another: Refs) {
    && merged.Keys == d.Keys + another.Keys
    && forall k :: k in merged ==> merged[k] == Larger(d, another, k)
  }

  /** mergeWith, in whatever order the map is walked: the maximum for every key. */
  method MergeWith(d: Refs, another: Refs) returns (merged: Refs)
    ensures Merged(merged, d, another)
    // neither count is larger, and it is one of them
    ensures forall k :: k in d || k in another ==> k in merged
    ensures forall k :: k in d ==> merged[k] >= d[k]
    ensures forall k :: k in another ==> merged[k] >= another[k]
    ensures forall k :: k in merged ==> (k in d && merged[k] == d[k]) || (k in another && merged[k] == another[k])
  {
    merged := d;
    var todo := another.Keys;
    while todo != {}
      invariant todo <= another.Keys
      invariant merged.Keys == d.Keys + (another.Keys - todo)
      invariant forall k :: k in merged ==> merged[k] == if k in todo then d[k] else Larger(d, another, k)
      decreases todo
    {
      var k :| k in todo;
      todo := todo - {k};
      if k !in merged || another[k] > merged[k] {
        merged := merged[k := another[k]];
      }
    }
  }

  lemma {:induction false} LargestAfterMerge(
    d: Refs, clusters: seq<Cluster>, cluster: Cluster, another: Refs, merged: Refs)
    requires Largest(d, clusters)
    requires CountsOf(another, Flat(cluster.shards))
    requires Merged(merged, d, another)
    ensures Largest(merged, clusters + [cluster])
  {
    var longer := clusters + [cluster];
    CoveredByCounts(cluster, d, another, merged);
    forall i | 0 <= i < |clusters|
      ensures Covered(merged, clusters[i])
    {
      CoveredAfterMerge(clusters[i], d, another, merged);
    }
    forall k | k in merged
      ensures Attained(merged[k], k, longer)
    {
      AttainedAfterMerge(d, clusters, cluster, another, merged, k);
    }
  }

  lemma {:induction false} CoveredAfterMerge(cluster: Cluster, d: Refs, another: Refs, merged: Refs)
    requires Covered(d, cluster) && Merged(merged, d, another)
    ensures Covered(merged, cluster)
  {
  }

  lemma {:induction false} CoveredByCounts(cluster: Cluster, d: Refs, another: Refs, merged: Refs)
    requires CountsOf(another, Flat(cluster.shards)) && Merged(merged, d, another)
    ensures Covered(merged, cluster)
  {
    forall k | k in Flat(cluster.shards)
      ensures k in merged && Occ(Flat(cluster.shards), k) <= merged[k]
    {
      OccIn(Flat(cluster.shards), k);
    }
  }

  lemma {:induction false} AttainedAfterMerge(
    d: Refs, clusters: seq<Cluster>, cluster: Cluster, another: Refs, merged: Refs, k: Key)
    requires k in d ==> Attained(d[k], k, clusters)
    requires CountsOf(another, Flat(cluster.shards))
    requires Merged(merged, d, another) && k in merged
    ensures Attained(merged[k], k, clusters + [cluster])
  {
    var longer := clusters + [cluster];
    if k in d && merged[k] == d[k] {
      var i :| 0 <= i < |clusters| && Occ(Flat(clusters[i].shards), k) == d[k];
      assert longer[i] == clusters[i];
    } else {
      assert longer[|clusters|] == cluster;
    }
  }

  lemma {:induction false} TakeOut(s: seq<Cluster>, i: nat)
    requires i < |s|
    ensures multiset(s) == multiset(s[..i] + s[i + 1..]) + multiset{s[i]}
  {
    assert s == s[..i] + [s[i]] + s[i + 1..];
  }

  /** getNormalizedClusters: the clusters are normalised concurrently and arrive in any order. */
  method NormalizeClusters(specs: seq<(string, LayoutSpec)>) returns (clusters: seq<Cluster>, refs: Refs)
    ensures multiset(clusters) ==
              multiset(seq(|specs|, i requires 0 <= i < |specs| => Cluster(specs[i].0, ShardsOf(specs[i].1))))
    ensures Largest(refs, clusters)
  {
    clusters, refs := [], map[];
    ghost var wanted := seq(|specs|, i requires 0 <= i < |specs| => Cluster(specs[i].0, ShardsOf(specs[i].1)));
    var todo := specs;
    ghost var left := wanted;
    while todo != []
      invariant |left| == |todo| && forall i :: 0 <= i < |todo| ==> left[i] == Cluster(todo[i].0, ShardsOf(todo[i].1))
      invariant multiset(clusters) + multiset(left) == multiset(wanted)
      invariant Largest(refs, clusters)
      decreases |todo|
    {
      var i :| 0 <= i < |todo|;
      var cluster, d := NormalizeCluster(todo[i].0, todo[i].1);
      var merged := MergeWith(refs, d);
      LargestAfterMerge(refs, clusters, cluster, d, merged);
      TakeOut(left, i);
      clusters, refs := clusters + [cluster], merged;
      todo, left := todo[..i] + todo[i + 1..], left[..i] + left[i + 1..];
    }
  }

  // ---- The allocator -----------------------------------------------------------------------------

  /** The instance number of the (t+1)-st replica of a key with so many instances: the numbers go round. */
  function Instance(t: nat, max: nat): (v: int)
    requires max > 0
    ensures 1 <= v <= max
  {
    if t == 0 then 1
    else
      var last := Instance(t - 1, max);
      if last + 1 > max then 1 else last + 1
  }

  /** Up to one full round further, the number is found by adding and wrapping once. */
  lemma {:induction false} InstancesGoRound(t: nat, max: nat)
    requires max > 0
    ensures Instance(0, max) == 1
    ensures Instance(t + 1, max) == if Instance(t, max) == max then 1 else Instance(t, max) + 1
  {
    InstanceLater(t, 1, max);
  }

  lemma {:induction false} InstanceLater(t: nat, d: nat, max: nat)
    requires max > 0 && d <= max
    ensures var v := Instance(t, max) + d; Instance(t + d, max) == if v > max then v - max else v
  {
    if d > 0 {
      InstanceLater(t, d - 1, max);
    }
  }

  /** Every key of these is counted in refs and has an ID. */
  ghost predicate Known(keys: seq<Key>, refs: Refs, ids: map<Key, string>) {
    ids.Keys == refs.Keys && forall k :: k in keys ==> k in refs && refs[k] > 0
  }

  /** The name for the p-th of all replicas in the order they are written. */
  function NameAt(keys: seq<Key>, refs: Refs, ids: map<Key, string>, p: nat): Name
    requires p < |keys| && keys[p] in refs && keys[p] in ids && refs[keys[p]] > 0
  {
    Name(ids[keys[p]], Instance(Count(keys, p, keys[p]), refs[keys[p]]))
  }

  ghost function SetOf(names: seq<Name>): set<Name> {
    set n | n in names
  }

  lemma {:induction false} SetOfNext(names: seq<Name>, name: Name)
    ensures SetOf(names + [name]) == SetOf(names) + {name}
  {
  }

  /** The names are those of the keys, in order. */
  ghost predicate NamesOf(names: seq<Name>, keys: seq<Key>, refs: Refs, ids: map<Key, string>) {
    && Known(keys, refs, ids) && |names| == |keys|
    && forall p {:trigger names[p]} :: 0 <= p < |keys| ==> names[p] == NameAt(keys, refs, ids, p)
  }

  /** dRefIndex: for each key met, the instance number given last. */
  ghost predicate Cursor(index: map<Key, int>, keys: seq<Key>, refs: Refs) {
    forall k :: k in refs && refs[k] > 0 ==>
      if Occ(keys, k) == 0 then k !in index else k in index && index[k] == Instance(Occ(keys, k) - 1, refs[k])
  }

  /** The names written for the keys, dRefIndex and ssNames after them. */
  ghost predicate Allocated(
    names: seq<Name>, index: map<Key, int>, ssNames: set<Name>, keys: seq<Key>, refs: Refs, ids: map<Key, string>)
  {
    NamesOf(names, keys, refs, ids) && Cursor(index, keys, refs) && ssNames == SetOf(names)
  }

  /** The innermost loop of genRemoteServersConfig: the replicas of one shard. */
  method AllocateShard(
    refs: Refs, ids: map<Key, string>, row: seq<Key>, ghost before: seq<Key>,
    names0: seq<Name>, index0: map<Key, int>, ssNames0: set<Name>)
    returns (names: seq<Name>, index: map<Key, int>, ssNames: set<Name>)
    requires Known(before + row, refs, ids)
    requires Allocated(names0, index0, ssNames0, before, refs, ids)
    ensures Allocated(names, index, ssNames, before + row, refs, ids)
  {
    names, index, ssNames := names0, index0, ssNames0;
    assert before + row[..0] == before;
    for j := 0 to |row|
      invariant Allocated(names, index, ssNames, before + row[..j], refs, ids)
    {
      assert before + row[..j + 1] == before + row[..j] + [row[j]];
      assert forall k :: k in before + row[..j + 1] ==> k in before + row;
      names, index, ssNames := AllocateReplica(refs, ids, row[j], before + row[..j], names, index, ssNames);
    }
    assert before + row[..|row|] == before + row;
  }

  /** One turn: the number after the one given last, or one. */
  method AllocateReplica(
    refs: Refs, ids: map<Key, string>, k: Key, ghost keys: seq<Key>,
    names0: seq<Name>, index0: map<Key, int>, ssNames0: set<Name>)
    returns (names: seq<Name>, index: map<Key, int>, ssNames: set<Name>)
    requires Known(keys + [k], refs, ids)
    requires Allocated(names0, index0, ssNames0, keys, refs, ids)
    ensures Allocated(names, index, ssNames, keys + [k], refs, ids)
  {
    assert k in keys + [k];
    var idx := 1;
    if k in index0 {
      idx := index0[k] + 1;
      if idx > refs[k] {
        idx := 1;
      }
    }
    AllocateOne(names0, keys, refs, ids, index0, k, idx);
    index := index0[k := idx];
    var name := Name(ids[k], idx);
    SetOfNext(names0, name);
    ssNames := ssNames0 + {name};
    names := names0 + [name];
  }

  /** One step of the allocator follows the numbering. */
  lemma {:induction false} AllocateOne(
    names: seq<Name>, keys: seq<Key>, refs: Refs, ids: map<Key, string>, index: map<Key, int>, k: Key, idx: int)
    requires NamesOf(names, keys, refs, ids) && Cursor(index, keys, refs) && Known(keys + [k], refs, ids)
    requires k in refs && refs[k] > 0
    requires idx == if k !in index then 1 else if index[k] + 1 > refs[k] then 1 else index[k] + 1
    ensures NamesOf(names + [Name(ids[k], idx)], keys + [k], refs, ids)
    ensures Cursor(index[k := idx], keys + [k], refs)
  {
    var n := Occ(keys, k);
    assert idx == Instance(n, refs[k]);
    var longer := keys + [k];
    forall p | 0 <= p < |longer|
      ensures (names + [Name(ids[k], idx)])[p] == NameAt(longer, refs, ids, p)
    {
      CountConcat(keys, [k], p, longer[p]);
    }
    forall other { OccNext(keys, k, other); }
  }

  /** The keys of all replicas of these clusters, in the order they are written. */
  function AllKeys(clusters: seq<Cluster>): seq<Key> {
    if clusters == [] then [] else AllKeys(clusters[..|clusters| - 1]) + Flat(clusters[|clusters| - 1].shards)
  }

  lemma {:induction false} AllKeysNext(clusters: seq<Cluster>, i: nat)
    requires i < |clusters|
    ensures AllKeys(clusters[..i + 1]) == AllKeys(clusters[..i]) + Flat(clusters[i].shards)
  {
    assert clusters[..i + 1][..i] == clusters[..i];
  }

  /** All keys are those before a cluster, its own, and those after it. */
  lemma {:induction false} AllKeysAround(clusters: seq<Cluster>, i: nat) returns (after: seq<Key>)
    requires i < |clusters|
    ensures AllKeys(clusters) == AllKeys(clusters[..i]) + Flat(clusters[i].shards) + after
  {
    var n := |clusters| - 1;
    if i == n {
      after := [];
      assert clusters[..n + 1] == clusters;
      AllKeysNext(clusters, n);
    } else {
      var shorter := clusters[..n];
      var rest := AllKeysAround(shorter, i);
      assert shorter[..i] == clusters[..i];
      after := rest + Flat(clusters[n].shards);
    }
  }

  lemma {:induction false} LargestKnowsAll(clusters: seq<Cluster>, refs: Refs, ids: map<Key, string>, n: nat)
    requires Largest(refs, clusters) && ids.Keys == refs.Keys && n <= |clusters|
    ensures Known(AllKeys(clusters[..n]), refs, ids)
  {
    if n > 0 {
      LargestKnowsAll(clusters, refs, ids, n - 1);
      AllKeysNext(clusters, n - 1);
      forall k | k in Flat(clusters[n - 1].shards)
        ensures k in refs && refs[k] > 0
      {
        OccIn(Flat(clusters[n - 1].shards), k);
      }
    }
  }

  /** genRemoteServersConfig: the names written, in order, and the set of StatefulSets they need. */
  method GenRemoteServers(refs: Refs, ids: map<Key, string>, clusters: seq<Cluster>)
    returns (names: seq<Name>, ssNames: set<Name>)
    requires Largest(refs, clusters) && ids.Keys == refs.Keys
    ensures NamesOf(names, AllKeys(clusters), refs, ids)
    ensures ssNames == SetOf(names)
  {
    names, ssNames := [], {};
    var index: map<Key, int> := map[];
    LargestKnowsAll(clusters, refs, ids, 0);
    for i := 0 to |clusters|
      invariant Allocated(names, index, ssNames, AllKeys(clusters[..i]), refs, ids)
    {
      LargestKnowsAll(clusters, refs, ids, i + 1);
      AllKeysNext(clusters, i);
      names, index, ssNames :=
        AllocateCluster(refs, ids, clusters[i].shards, AllKeys(clusters[..i]), names, index, ssNames);
    }
    assert clusters[..|clusters|] == clusters;
  }

  /** The middle loop: the shards of one cluster. */
  method AllocateCluster(
    refs: Refs, ids: map<Key, string>, shards: seq<seq<Key>>, ghost before: seq<Key>,
    names0: seq<Name>, index0: map<Key, int>, ssNames0: set<Name>)
    returns (names: seq<Name>, index: map<Key, int>, ssNames: set<Name>)
    requires Known(before + Flat(shards), refs, ids)
    requires Allocated(names0, index0, ssNames0, before, refs, ids)
    ensures Allocated(names, index, ssNames, before + Flat(shards), refs, ids)
  {
    names, index, ssNames := names0, index0, ssNames0;
    assert before + Flat(shards[..0]) == before;
    for j := 0 to |shards|
      invariant Allocated(names, index, ssNames, before + Flat(shards[..j]), refs, ids)
    {
      FlatNext(shards, j);
      FlatWithin(shards, j + 1);
      assert before + Flat(shards[..j + 1]) == before + Flat(shards[..j]) + shards[j];
      names, index, ssNames := AllocateShard(refs, ids, shards[j], before + Flat(shards[..j]), names, index, ssNames);
    }
    assert shards[..|shards|] == shards;
  }

  lemma {:induction false} FlatWithin<T>(rows: seq<seq<T>>, n: nat)
    requires n <= |rows|
    ensures forall x :: x in Flat(rows[..n]) ==> x in Flat(rows)
    decreases |rows| - n
  {
    if n < |rows| {
      FlatNext(rows, n);
      FlatWithin(rows, n + 1);
    } else {
      assert rows[..n] == rows;
    }
  }

  // ---- What the allocation is for ----------------------------------------------------------------

  lemma {:induction false} CountGrows(keys: seq<Key>, p: nat, q: nat, k: Key)
    requires p <= q <= |keys|
    ensures Count(keys, p, k) <= Count(keys, q, k)
    ensures p < q && keys[p] == k ==> Count(keys, p, k) < Count(keys, q, k)
  {
    if p < q {
      CountGrows(keys, p, q - 1, k);
    }
  }

  /** The number of earlier replicas of a key, at place a of a cluster's own keys. */
  lemma {:induction false} CountAt(before: seq<Key>, own: seq<Key>, after: seq<Key>, a: nat, k: Key)
    requires a < |own|
    ensures var keys := before + own + after;
            keys[|before| + a] == own[a] && Count(keys, |before| + a, k) == Occ(before, k) + Count(own, a, k)
  {
    CountConcat(before + own, after, |before| + a, k);
    CountConcat(before, own, |before| + a, k);
  }

  /** The name of replica a of cluster i. */
  lemma {:induction false} ClusterName(
    refs: Refs, ids: map<Key, string>, clusters: seq<Cluster>, names: seq<Name>, i: nat, a: nat)
    requires NamesOf(names, AllKeys(clusters), refs, ids)
    requires i < |clusters| && a < |Flat(clusters[i].shards)|
    ensures var before, own := AllKeys(clusters[..i]), Flat(clusters[i].shards);
            var k := own[a];
            && k in refs && k in ids && refs[k] > 0 && |before| + a < |names|
            && names[|before| + a] == Name(ids[k], Instance(Occ(before, k) + Count(own, a, k), refs[k]))
  {
    var before, own := AllKeys(clusters[..i]), Flat(clusters[i].shards);
    var after := AllKeysAround(clusters, i);
    NameInside(refs, ids, before, own, after, names, a);
  }

  lemma {:induction false} NameInside(
    refs: Refs, ids: map<Key, string>, before: seq<Key>, own: seq<Key>, after: seq<Key>, names: seq<Name>, a: nat)
    requires NamesOf(names, before + own + after, refs, ids) && a < |own|
    ensures var k := own[a];
            && k in refs && k in ids && refs[k] > 0
            && names[|before| + a] == Name(ids[k], Instance(Occ(before, k) + Count(own, a, k), refs[k]))
  {
    NameOfPlace(refs, ids, before + own + after, names, |before| + a);
    CountAt(before, own, after, a, own[a]);
  }

  lemma {:induction false} NameOfPlace(refs: Refs, ids: map<Key, string>, keys: seq<Key>, names: seq<Name>, p: nat)
    requires NamesOf(names, keys, refs, ids) && p < |keys|
    ensures var k := keys[p];
            && k in refs && k in ids && refs[k] > 0
            && names[p] == Name(ids[k], Instance(Count(keys, p, k), refs[k]))
  {
    assert keys[p] in keys;
    assert names[p] == NameAt(keys, refs, ids, p);
  }

  /** Two replicas of a cluster with the same key got different instances. */
  ghost predicate Apart(refs: Refs, names: seq<Name>, k: Key, p: nat, q: nat) {
    && p < |names| && q < |names| && k in refs
    && 1 <= names[p].instance <= refs[k] && 1 <= names[q].instance <= refs[k]
    && names[p].instance != names[q].instance
  }

  lemma {:induction false} ApartWhenCounted(
    refs: Refs, ids: map<Key, string>, clusters: seq<Cluster>, names: seq<Name>, i: nat, a: nat, b: nat)
    requires NamesOf(names, AllKeys(clusters), refs, ids)
    requires i < |clusters| && a < b < |Flat(clusters[i].shards)|
    requires var own := Flat(clusters[i].shards); own[a] == own[b] && Occ(own, own[a]) <= Get(refs, own[a])
    ensures var start := |AllKeys(clusters[..i])|; Apart(refs, names, Flat(clusters[i].shards)[a], start + a, start + b)
  {
    var own := Flat(clusters[i].shards);
    ClusterName(refs, ids, clusters, names, i, a);
    ClusterName(refs, ids, clusters, names, i, b);
    InstancesInside(own, Occ(AllKeys(clusters[..i]), own[a]), Get(refs, own[a]), a, b);
  }

  /** Whatever order the clusters arrive in, two replicas of one cluster never share a StatefulSet, and
      instance numbers stay within the number of instances. */
  lemma {:induction false} ReplicasOfAClusterAreApart(
    refs: Refs, ids: map<Key, string>, clusters: seq<Cluster>, names: seq<Name>, i: nat, a: nat, b: nat)
    requires Largest(refs, clusters) && NamesOf(names, AllKeys(clusters), refs, ids)
    requires i < |clusters| && a < b < |Flat(clusters[i].shards)|
    requires Flat(clusters[i].shards)[a] == Flat(clusters[i].shards)[b]
    ensures var start := |AllKeys(clusters[..i])|; Apart(refs, names, Flat(clusters[i].shards)[a], start + a, start + b)
  {
    LargestCovers(refs, clusters, i, Flat(clusters[i].shards)[a]);
    ApartWhenCounted(refs, ids, clusters, names, i, a, b);
  }

  lemma {:induction false} LargestCovers(refs: Refs, clusters: seq<Cluster>, i: nat, k: Key)
    requires Largest(refs, clusters) && i < |clusters| && k in Flat(clusters[i].shards)
    ensures Occ(Flat(clusters[i].shards), k) <= Get(refs, k)
  {
  }

  lemma {:induction false} InstancesInside(own: seq<Key>, base: nat, max: nat, a: nat, b: nat)
    requires a < b < |own| && own[a] == own[b] && Occ(own, own[a]) <= max
    ensures max > 0 && Instance(base + Count(own, a, own[a]), max) != Instance(base + Count(own, b, own[b]), max)
  {
    var k := own[a];
    CountGrows(own, a, b, k);
    CountGrows(own, b, |own|, k);
    InstanceLater(base + Count(own, a, k), Count(own, b, k) - Count(own, a, k), max);
  }

  lemma {:induction false} CountReached(keys: seq<Key>, n: nat, k: Key, m: nat) returns (a: nat)
    requires n <= |keys| && m < Count(keys, n, k)
    ensures a < n && keys[a] == k && Count(keys, a, k) == m
  {
    if keys[n - 1] == k && Count(keys, n - 1, k) == m {
      a := n - 1;
    } else {
      a := CountReached(keys, n - 1, k, m);
    }
  }

  /** Among as many consecutive allocations as there are instances, each instance is met. */
  lemma {:induction false} EveryInstanceIsMet(base: nat, max: nat, v: int) returns (m: nat)
    requires 1 <= v <= max
    ensures m < max && Instance(base + m, max) == v
  {
    var first := Instance(base, max);
    m := if v >= first then v - first else v - first + max;
    InstanceLater(base, m, max);
  }

  /** The names that the reference counts call for. */
  ghost function Wanted(refs: Refs, ids: map<Key, string>): set<Name>
    requires ids.Keys == refs.Keys
  {
    set k, v | k in refs && v in OneTo(refs[k]) :: Name(ids[k], v)
  }

  function OneTo(n: nat): (s: set<int>)
    ensures |s| == n && forall v :: v in s <==> 1 <= v <= n
  {
    if n == 0 then {} else OneTo(n - 1) + {n}
  }

  lemma {:induction false} InstanceIsUsed(
    refs: Refs, ids: map<Key, string>, clusters: seq<Cluster>, names: seq<Name>, i: nat, k: Key, v: int)
    requires NamesOf(names, AllKeys(clusters), refs, ids)
    requires i < |clusters| && Occ(Flat(clusters[i].shards), k) == Get(refs, k)
    requires 1 <= v <= Get(refs, k)
    ensures Name(ids[k], v) in names
  {
    var before, own := AllKeys(clusters[..i]), Flat(clusters[i].shards);
    var m := EveryInstanceIsMet(Occ(before, k), refs[k], v);
    var a := CountReached(own, |own|, k, m);
    ClusterName(refs, ids, clusters, names, i, a);
    assert names[|before| + a] == Name(ids[k], v);
  }

  lemma {:induction false} UsedIsWanted(refs: Refs, ids: map<Key, string>, keys: seq<Key>, names: seq<Name>, p: nat)
    requires NamesOf(names, keys, refs, ids) && p < |names|
    ensures names[p] in Wanted(refs, ids)
  {
    var k := keys[p];
    assert k in keys;
    assert names[p] == NameAt(keys, refs, ids, p);
    assert names[p].instance in OneTo(refs[k]);
  }

  /** The StatefulSets used are exactly all instances of all keys: no instance is left without a use. */
  lemma {:induction false} EveryInstanceIsUsed(
    refs: Refs, ids: map<Key, string>, clusters: seq<Cluster>, names: seq<Name>)
    requires Largest(refs, clusters) && NamesOf(names, AllKeys(clusters), refs, ids)
    ensures SetOf(names) == Wanted(refs, ids)
  {
    assert Wanted(refs, ids) <= SetOf(names) by {
      forall k, v | k in refs && v in OneTo(refs[k])
        ensures Name(ids[k], v) in names
      {
        assert Attained(refs[k], k, clusters);
        var i :| 0 <= i < |clusters| && Occ(Flat(clusters[i].shards), k) == refs[k];
        InstanceIsUsed(refs, ids, clusters, names, i, k, v);
      }
    }
    assert SetOf(names) <= Wanted(refs, ids) by {
      forall p | 0 <= p < |names| { UsedIsWanted(refs, ids, AllKeys(clusters), names, p); }
    }
  }

  /** The sum of all reference counts. */
  ghost function Total(refs: Refs): nat {
    if refs == map[] then 0
    else
      var k :| k in refs;
      refs[k] + Total(refs - {k})
  }

  lemma {:induction false} WantedSplit(refs: Refs, ids: map<Key, string>, k: Key, own: set<Name>)
    requires ids.Keys == refs.Keys && k in refs
    requires forall k, l :: k in ids && l in ids && ids[k] == ids[l] ==> k == l
    requires own == set v | v in OneTo(refs[k]) :: Name(ids[k], v)
    ensures Wanted(refs, ids) == Wanted(refs - {k}, ids - {k}) + own
    ensures Wanted(refs - {k}, ids - {k}) !! own
  {
    var fewer, fewerIds := refs - {k}, ids - {k};
    forall l, v | l in refs && v in OneTo(refs[l])
      ensures Name(ids[l], v) in Wanted(fewer, fewerIds) + own
    {
      if l != k {
        assert l in fewer && fewerIds[l] == ids[l] && fewer[l] == refs[l];
        assert Name(fewerIds[l], v) in Wanted(fewer, fewerIds);
      }
    }
    forall l, v | l in fewer && v in OneTo(fewer[l])
      ensures Name(fewerIds[l], v) in Wanted(refs, ids) - own
    {
      assert Name(ids[l], v) in Wanted(refs, ids);
    }
    forall v | v in OneTo(refs[k])
      ensures Name(ids[k], v) in Wanted(refs, ids)
    {
    }
  }

  /** With an ID of its own for every key, as many StatefulSets are used as the counts add up to. */
  lemma {:induction false} WantedSize(refs: Refs, ids: map<Key, string>)
    requires ids.Keys == refs.Keys
    requires forall k, l :: k in ids && l in ids && ids[k] == ids[l] ==> k == l
    ensures |Wanted(refs, ids)| == Total(refs)
  {
    if refs != map[] {
      var k :| k in refs && Total(refs) == refs[k] + Total(refs - {k});
      var fewer, fewerIds := refs - {k}, ids - {k};
      WantedSize(fewer, fewerIds);
      var own := set v | v in OneTo(refs[k]) :: Name(ids[k], v);
      NamesSize(ids[k], OneTo(refs[k]));
      WantedSplit(refs, ids, k, own);
    }
  }

  lemma {:induction false} NamesSize(id: string, some: set<int>)
    ensures |set v | v in some :: Name(id, v)| == |some|
  {
    if exists v :: v in some {
      var v :| v in some;
      NamesSize(id, some - {v});
      assert (set w | w in some :: Name(id, w)) == (set w | w in some - {v} :: Name(id, w)) + {Name(id, v)};
    }
  }
}
