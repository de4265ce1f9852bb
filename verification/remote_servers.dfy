/** The remote_servers section that every host reads (ch_config_generator.go): what is printed, told by
    what a strict reader of the text gets back. */
module RemoteServers {
  import opened Wrappers

  // ---- The installation and the options -------------------------------------------------------------

  datatype Attributes = Attributes(add: bool, remove: bool, modified: bool, unclear: bool)
  {
    /** ChiHostReconcileAttributes.Any: some attribute is set in both. */
    predicate Any(to: Attributes) {
      (add && to.add) || (remove && to.remove) || (modified && to.modified) || (unclear && to.unclear)
    }
  }

  /** The id stands for the identity of the host object. */
  datatype Host = Host(id: nat, name: string, port: int, attributes: Attributes)

  datatype Shard = Shard(internalReplication: string, weight: int, hosts: seq<Host>)

  datatype Cluster = Cluster(name: string, shards: seq<Shard>)

  datatype Options = Options(attributes: Option<Attributes>, hosts: seq<Host>)

  /** RemoteServersGeneratorOptions.Include; no options at all include nothing. */
  predicate Include(options: Option<Options>, host: Host) {
    && options.Some?
    && !(options.value.attributes.Some? && options.value.attributes.value.Any(host.attributes))
    && host !in options.value.hosts
  }

  datatype Replica = Replica(host: string, port: int)

  /** The included hosts, as they are listed. */
  function Listed(hosts: seq<Host>, options: Option<Options>): seq<Replica> {
    if hosts == [] then []
    else
      var last, before := hosts[|hosts| - 1], Listed(hosts[..|hosts| - 1], options);
      if Include(options, last) then before + [Replica(last.name, last.port)] else before
  }

  function HostsOf(shards: seq<Shard>): seq<Host> {
    if shards == [] then [] else HostsOf(shards[..|shards| - 1]) + shards[|shards| - 1].hosts
  }

  function ShardsOf(clusters: seq<Cluster>): seq<Shard> {
    if clusters == [] then [] else ShardsOf(clusters[..|clusters| - 1]) + clusters[|clusters| - 1].shards
  }

  function HostsOfChi(clusters: seq<Cluster>): seq<Host> {
    HostsOf(ShardsOf(clusters))
  }

  lemma {:induction false} ListedConcat(a: seq<Host>, b: seq<Host>, options: Option<Options>)
    ensures Listed(a + b, options) == Listed(a, options) + Listed(b, options)
  {
    if b == [] {
      assert a + b == a;
    } else {
      var last := |b| - 1;
      ListedConcat(a, b[..last], options);
      assert (a + b)[..|a + b| - 1] == a + b[..last];
    }
  }

  lemma {:induction false} HostsConcat(a: seq<Shard>, b: seq<Shard>)
    ensures HostsOf(a + b) == HostsOf(a) + HostsOf(b)
  {
    if b == [] {
      assert a + b == a;
    } else {
      var last, all := |b| - 1, a + b;
      HostsConcat(a, b[..last]);
      assert all[..|all| - 1] == a + b[..last] && all[|all| - 1] == b[last];
      assert HostsOf(a) + HostsOf(b[..last]) + b[last].hosts == HostsOf(a) + (HostsOf(b[..last]) + b[last].hosts);
    }
  }

  /** The next shard of a cluster. */
  lemma {:induction false} ListedNextShard(shards: seq<Shard>, i: nat, options: Option<Options>)
    requires i < |shards|
    ensures Listed(HostsOf(shards[..i + 1]), options) ==
            Listed(HostsOf(shards[..i]), options) + Listed(shards[i].hosts, options)
  {
    assert shards[..i + 1][..i] == shards[..i];
    ListedConcat(HostsOf(shards[..i]), shards[i].hosts, options);
  }

  /** The next cluster of the installation. */
  lemma {:induction false} ListedNextCluster(clusters: seq<Cluster>, c: nat, options: Option<Options>)
    requires c < |clusters|
    ensures Listed(HostsOfChi(clusters[..c + 1]), options) ==
            Listed(HostsOfChi(clusters[..c]), options) + Listed(HostsOf(clusters[c].shards), options)
  {
    assert clusters[..c + 1][..c] == clusters[..c];
    HostsConcat(ShardsOf(clusters[..c]), clusters[c].shards);
    ListedConcat(HostsOfChi(clusters[..c]), HostsOf(clusters[c].shards), options);
  }

  // ---- Counting ----------------------------------------------------------------------------------------

  method ShardHostsNum(shard: Shard, options: Option<Options>) returns (num: nat)
    ensures num == |Listed(shard.hosts, options)|
  {
    num := 0;
    for i := 0 to |shard.hosts|
      invariant num == |Listed(shard.hosts[..i], options)|
    {
      assert shard.hosts[..i + 1][..i] == shard.hosts[..i];
      if Include(options, shard.hosts[i]) {
        num := num + 1;
      }
    }
    assert shard.hosts[..|shard.hosts|] == shard.hosts;
  }

  method ClusterHostsNum(cluster: Cluster, options: Option<Options>) returns (num: nat)
    ensures num == |Listed(HostsOf(cluster.shards), options)|
  {
    num := 0;
    var shards := cluster.shards;
    for i := 0 to |shards|
      invariant num == |Listed(HostsOf(shards[..i]), options)|
    {
      ListedNextShard(shards, i, options);
      var n := ShardHostsNum(shards[i], options);
      num := num + n;
    }
    assert shards[..|shards|] == shards;
  }

  /** CHIHostsNum, which walks all hosts. */
  method ChiHostsNum(clusters: seq<Cluster>, options: Option<Options>) returns (num: nat)
    ensures num == |Listed(HostsOfChi(clusters), options)|
  {
    num := 0;
    var hosts := HostsOfChi(clusters);
    for i := 0 to |hosts|
      invariant num == |Listed(hosts[..i], options)|
    {
      assert hosts[..i + 1][..i] == hosts[..i];
      if Include(options, hosts[i]) {
        num := num + 1;
      }
    }
    assert hosts[..|hosts|] == hosts;
  }

  function Total(clusters: seq<Cluster>, options: Option<Options>): nat {
    if clusters == [] then 0
    else Total(clusters[..|clusters| - 1], options) + |Listed(HostsOf(clusters[|clusters| - 1].shards), options)|
  }

  /** What CHIHostsNum counts is the sum of what ClusterHostsNum counts. */
  lemma {:induction false} TotalIsSum(clusters: seq<Cluster>, options: Option<Options>)
    ensures |Listed(HostsOfChi(clusters), options)| == Total(clusters, options)
  {
    if clusters != [] {
      TotalIsSum(clusters[..|clusters| - 1], options);
      ListedNextCluster(clusters, |clusters| - 1, options);
      assert clusters[..|clusters|] == clusters;
    }
  }

  // ---- The text and its reader -----------------------------------------------------------------------------

  datatype Line =
    | Open(tag: string)
    | Close(tag: string)
    | Text(tag: string, text: string)
    | Number(tag: string, number: int)
    | Comment(comment: string)

  datatype ShardNode = ShardNode(replication: Option<string>, weight: Option<int>, replicas: seq<Replica>)

  datatype ClusterNode = ClusterNode(name: string, shards: seq<ShardNode>)

  /** Where a reader is, and what it has read of the clusters. */
  datatype Reader =
    | Start
    | InYandex(named: bool)
    | InServers(clusters: seq<ClusterNode>)
    | InCluster(clusters: seq<ClusterNode>, cluster: ClusterNode)
    | InShard(clusters: seq<ClusterNode>, cluster: ClusterNode, shard: ShardNode)
    | InReplica(clusters: seq<ClusterNode>, cluster: ClusterNode, shard: ShardNode, host: Option<string>,
        port: Option<int>)
    | AfterServers(clusters: seq<ClusterNode>)
    | End(clusters: seq<ClusterNode>)
    | Bad

  /** A shard lists its replication, then its weight, then its replicas; a replica its host, then its port. */
  function Next(r: Reader, line: Line): Reader {
    match r
    case Start => if line == Open("yandex") then InYandex(false) else Bad
    case InYandex(named) =>
      if !named && line == Text("default_on_cluster_name", "all-sharded") then InYandex(true)
      else if named && line == Open("remote_servers") then InServers([])
      else Bad
    case InServers(cs) =>
      if line.Comment? then r
      else if line.Open? then InCluster(cs, ClusterNode(line.tag, []))
      else if line == Close("remote_servers") then AfterServers(cs)
      else Bad
    case InCluster(cs, c) =>
      if line == Open("shard") then InShard(cs, c, ShardNode(None, None, []))
      else if line == Close(c.name) then InServers(cs + [c])
      else Bad
    case InShard(cs, c, s) =>
      if line == Open("replica") then InReplica(cs, c, s, None, None)
      else if line == Close("shard") then InCluster(cs, c.(shards := c.shards + [s]))
      else if line.Text? && line.tag == "internal_replication" && s == ShardNode(None, None, []) then
        InShard(cs, c, s.(replication := Some(line.text)))
      else if line.Number? && line.tag == "weight" && s.weight == None && s.replicas == [] then
        InShard(cs, c, s.(weight := Some(line.number)))
      else Bad
    case InReplica(cs, c, s, host, port) =>
      if line.Text? && line.tag == "host" && host == None && port == None then r.(host := Some(line.text))
      else if line.Number? && line.tag == "port" && host != None && port == None then r.(port := Some(line.number))
      else if line == Close("replica") && host.Some? && port.Some? then
        InShard(cs, c, s.(replicas := s.replicas + [Replica(host.value, port.value)]))
      else Bad
    case AfterServers(cs) => if line == Close("yandex") then End(cs) else Bad
    case _ => Bad
  }

  /** The reader in a shard once it has read these replicas too. */
  function WithReplicas(r: Reader, replicas: seq<Replica>): Reader
    requires r.InShard?
  {
    var InShard(clusters, cluster, shard) := r;
    InShard(clusters, cluster, shard.(replicas := shard.replicas + replicas))
  }

  function Read(lines: seq<Line>): Reader {
    if lines == [] then Start else Next(Read(lines[..|lines| - 1]), lines[|lines| - 1])
  }

  /** The tags that are open, outermost first; None once a tag closes what is not the innermost open one. */
  function StillOpen(lines: seq<Line>): Option<seq<string>> {
    if lines == [] then Some([])
    else
      var line := lines[|lines| - 1];
      match StillOpen(lines[..|lines| - 1])
      case None => None
      case Some(open) =>
        if line.Open? then Some(open + [line.tag])
        else if !line.Close? then Some(open)
        else if open != [] && open[|open| - 1] == line.tag then Some(open[..|open| - 1])
        else None
  }

  function OpenTags(r: Reader): seq<string> {
    match r
    case Start => []
    case InYandex(_) => ["yandex"]
    case InServers(_) => ["yandex", "remote_servers"]
    case InCluster(_, c) => ["yandex", "remote_servers", c.name]
    case InShard(_, c, _) => ["yandex", "remote_servers", c.name, "shard"]
    case InReplica(_, c, _, _, _) => ["yandex", "remote_servers", c.name, "shard", "replica"]
    case AfterServers(_) => ["yandex"]
    case End(_) => []
    case Bad => []
  }

  lemma {:induction false} OpenTagsNext(r: Reader, line: Line)
    requires Next(r, line) != Bad
    ensures line.Open? ==> OpenTags(Next(r, line)) == OpenTags(r) + [line.tag]
    ensures line.Close? ==> OpenTags(r) == OpenTags(Next(r, line)) + [line.tag]
    ensures !line.Open? && !line.Close? ==> OpenTags(Next(r, line)) == OpenTags(r)
  {
  }

  /** The tags of any text that the reader takes are balanced. */
  lemma {:induction false} ReadableIsBalanced(lines: seq<Line>)
    requires Read(lines) != Bad
    ensures StillOpen(lines) == Some(OpenTags(Read(lines)))
    ensures Read(lines).End? ==> StillOpen(lines) == Some([])
  {
    if lines != [] {
      var last := |lines| - 1;
      ReadableIsBalanced(lines[..last]);
      OpenTagsNext(Read(lines[..last]), lines[last]);
    }
  }

  // ---- What is to be read --------------------------------------------------------------------------------

  const ALL_SHARDED := "all-sharded"
  const PHYSICAL := "physical_consistency_cluster"
  const LOGICAL := "logical_consistency_cluster"
  const ALL_REPLICATED := "all-replicated"

  /** The included hosts of a shard, with its weight, and with its internal replication if asked. */
  function NodeOf(shard: Shard, replication: bool, options: Option<Options>): ShardNode {
    ShardNode(if replication then Some(shard.internalReplication) else None,
              if shard.weight > 0 then Some(shard.weight) else None,
              Listed(shard.hosts, options))
  }

  /** The shards that have an included host. */
  function NodesOf(shards: seq<Shard>, replication: bool, options: Option<Options>): seq<ShardNode> {
    if shards == [] then []
    else
      var last, before := shards[|shards| - 1], NodesOf(shards[..|shards| - 1], replication, options);
      if Listed(last.hosts, options) == [] then before else before + [NodeOf(last, replication, options)]
  }

  /** The clusters that have an included host. */
  function UserClusters(clusters: seq<Cluster>, options: Option<Options>): seq<ClusterNode> {
    if clusters == [] then []
    else
      var last, before := clusters[|clusters| - 1], UserClusters(clusters[..|clusters| - 1], options);
      if Listed(HostsOf(last.shards), options) == [] then before
      else before + [ClusterNode(last.name, NodesOf(last.shards, true, options))]
  }

  /** A shard for each replica. */
  function Singles(replicas: seq<Replica>): seq<ShardNode> {
    if replicas == [] then []
    else Singles(replicas[..|replicas| - 1]) + [ShardNode(Some("false"), None, [replicas[|replicas| - 1]])]
  }

  function AutoClusters(clusters: seq<Cluster>, options: Option<Options>): seq<ClusterNode> {
    var replicas := Listed(HostsOfChi(clusters), options);
    if replicas == [] then []
    else [
      ClusterNode(ALL_SHARDED, Singles(replicas)),
      ClusterNode(PHYSICAL, NodesOf(ShardsOf(clusters), true, options)),
      ClusterNode(LOGICAL, NodesOf(ShardsOf(clusters), false, options)),
      ClusterNode(ALL_REPLICATED, [ShardNode(Some("true"), None, replicas)])
    ]
  }

  function Effective(options: Option<Options>): Option<Options> {
    if options == None then Some(Options(None, [])) else options
  }

  lemma {:induction false} NodesConcat(a: seq<Shard>, b: seq<Shard>, replication: bool, options: Option<Options>)
    ensures NodesOf(a + b, replication, options) == NodesOf(a, replication, options) + NodesOf(b, replication, options)
  {
    if b == [] {
      assert a + b == a;
    } else {
      var last := |b| - 1;
      NodesConcat(a, b[..last], replication, options);
      assert (a + b)[..|a + b| - 1] == a + b[..last];
    }
  }

  // ---- Printing --------------------------------------------------------------------------------------------

  /** The text so far, with where its reader is. */
  class Buffer {
    var lines: seq<Line>
    ghost var reader: Reader

    ghost predicate Valid()
      reads this
    {
      reader == Read(lines)
    }

    constructor ()
      ensures Valid() && reader == Start
    {
      lines, reader := [], Start;
    }

    method Append(line: Line)
      requires Valid()
      modifies this
      ensures Valid() && lines == old(lines) + [line] && reader == Next(old(reader), line)
    {
      assert (lines + [line])[..|lines|] == lines;
      lines, reader := lines + [line], Next(reader, line);
    }

    method WriteReplica(host: Host)
      requires Valid() && reader.InShard?
      modifies this
      ensures Valid()
      ensures reader == WithReplicas(old(reader), [Replica(host.name, host.port)])
    {
      Append(Open("replica"));
      Append(Text("host", host.name));
      Append(Number("port", host.port));
      Append(Close("replica"));
    }

    /** The included hosts among these. */
    method WriteReplicas(hosts: seq<Host>, options: Option<Options>)
      requires Valid() && reader.InShard?
      modifies this
      ensures Valid()
      ensures reader == WithReplicas(old(reader), Listed(hosts, options))
    {
      ghost var was := reader;
      assert was.shard.replicas + [] == was.shard.replicas;
      for i := 0 to |hosts|
        invariant Valid()
        invariant reader == WithReplicas(was, Listed(hosts[..i], options))
      {
        assert hosts[..i + 1][..i] == hosts[..i];
        if Include(options, hosts[i]) {
          WriteReplica(hosts[i]);
        }
      }
      assert hosts[..|hosts|] == hosts;
    }

    ghost predicate AtCluster(clusters: seq<ClusterNode>, name: string, shards: seq<ShardNode>)
      reads this
    {
      Valid() && reader == InCluster(clusters, ClusterNode(name, shards))
    }

    /** One shard, unless it has no included host. */
    method WriteShard(shard: Shard, replication: bool, options: Option<Options>,
                      ghost clusters: seq<ClusterNode>, ghost name: string, ghost shards: seq<ShardNode>)
      requires AtCluster(clusters, name, shards)
      modifies this
      ensures AtCluster(clusters, name,
                        if Listed(shard.hosts, options) == [] then shards
                        else shards + [NodeOf(shard, replication, options)])
    {
      var num := ShardHostsNum(shard, options);
      if num < 1 {
        return;
      }
      Append(Open("shard"));
      if replication {
        Append(Text("internal_replication", shard.internalReplication));
      }
      if shard.weight > 0 {
        Append(Number("weight", shard.weight));
      }
      WriteReplicas(shard.hosts, options);
      assert reader.shard == NodeOf(shard, replication, options);
      Append(Close("shard"));
    }

    method WriteShards(shards: seq<Shard>, replication: bool, options: Option<Options>,
                       ghost clusters: seq<ClusterNode>, ghost name: string, ghost before: seq<ShardNode>)
      requires AtCluster(clusters, name, before)
      modifies this
      ensures AtCluster(clusters, name, before + NodesOf(shards, replication, options))
    {
      assert before + [] == before;
      for i := 0 to |shards|
        invariant AtCluster(clusters, name, before + NodesOf(shards[..i], replication, options))
      {
        assert shards[..i + 1][..i] == shards[..i];
        ghost var sofar := NodesOf(shards[..i], replication, options);
        WriteShard(shards[i], replication, options, clusters, name, before + sofar);
        assert before + (sofar + [NodeOf(shards[i], replication, options)]) ==
               before + sofar + [NodeOf(shards[i], replication, options)];
      }
      assert shards[..|shards|] == shards;
    }

    method WriteUserCluster(cluster: Cluster, options: Option<Options>, ghost clusters: seq<ClusterNode>)
      requires Valid() && reader == InServers(clusters)
      modifies this
      ensures Valid()
      ensures reader == InServers(if Listed(HostsOf(cluster.shards), options) == [] then clusters
                                  else clusters + [ClusterNode(cluster.name, NodesOf(cluster.shards, true, options))])
    {
      var num := ClusterHostsNum(cluster, options);
      if num < 1 {
        return;
      }
      Append(Open(cluster.name));
      WriteShards(cluster.shards, true, options, clusters, cluster.name, []);
      assert [] + NodesOf(cluster.shards, true, options) == NodesOf(cluster.shards, true, options);
      Append(Close(cluster.name));
    }

    method WriteUserClusters(clusters: seq<Cluster>, options: Option<Options>)
      requires Valid() && reader == InServers([])
      modifies this
      ensures Valid() && reader == InServers(UserClusters(clusters, options))
    {
      for c := 0 to |clusters|
        invariant Valid() && reader == InServers(UserClusters(clusters[..c], options))
      {
        assert clusters[..c + 1][..c] == clusters[..c];
        WriteUserCluster(clusters[c], options, UserClusters(clusters[..c], options));
      }
      assert clusters[..|clusters|] == clusters;
    }

    method WriteSingle(host: Host)
      requires Valid() && reader.InCluster?
      modifies this
      ensures var node := ShardNode(Some("false"), None, [Replica(host.name, host.port)]);
              AtCluster(old(reader.clusters), old(reader.cluster.name), old(reader.cluster.shards) + [node])
    {
      Append(Open("shard"));
      Append(Text("internal_replication", "false"));
      WriteReplica(host);
      assert [] + [Replica(host.name, host.port)] == [Replica(host.name, host.port)];
      Append(Close("shard"));
    }

    /** all-sharded: a shard of one replica for each included host. */
    method WriteAllSharded(hosts: seq<Host>, options: Option<Options>, ghost clusters: seq<ClusterNode>)
      requires Valid() && reader == InServers(clusters)
      modifies this
      ensures Valid()
      ensures reader == InServers(clusters + [ClusterNode(ALL_SHARDED, Singles(Listed(hosts, options)))])
    {
      Append(Open(ALL_SHARDED));
      for i := 0 to |hosts|
        invariant AtCluster(clusters, ALL_SHARDED, Singles(Listed(hosts[..i], options)))
      {
        assert hosts[..i + 1][..i] == hosts[..i];
        if Include(options, hosts[i]) {
          ghost var sofar, replica := Listed(hosts[..i], options), Replica(hosts[i].name, hosts[i].port);
          assert (sofar + [replica])[..|sofar|] == sofar;
          WriteSingle(hosts[i]);
        }
      }
      assert hosts[..|hosts|] == hosts;
      Append(Close(ALL_SHARDED));
    }

    /** The physical or the logical consistency cluster: every shard of the installation. */
    method WriteConsistencyCluster(name: string, all: seq<Cluster>, replication: bool, options: Option<Options>,
                                   ghost clusters: seq<ClusterNode>)
      requires Valid() && reader == InServers(clusters)
      modifies this
      ensures Valid()
      ensures reader == InServers(clusters + [ClusterNode(name, NodesOf(ShardsOf(all), replication, options))])
    {
      Append(Open(name));
      for c := 0 to |all|
        invariant AtCluster(clusters, name, NodesOf(ShardsOf(all[..c]), replication, options))
      {
        assert all[..c + 1][..c] == all[..c];
        NodesConcat(ShardsOf(all[..c]), all[c].shards, replication, options);
        WriteShards(all[c].shards, replication, options, clusters, name,
                    NodesOf(ShardsOf(all[..c]), replication, options));
      }
      assert all[..|all|] == all;
      Append(Close(name));
    }

    /** all-replicated: one shard with every included host. */
    method WriteAllReplicated(hosts: seq<Host>, options: Option<Options>, ghost clusters: seq<ClusterNode>)
      requires Valid() && reader == InServers(clusters)
      modifies this
      ensures Valid()
      ensures reader == InServers(clusters +
                [ClusterNode(ALL_REPLICATED, [ShardNode(Some("true"), None, Listed(hosts, options))])])
    {
      Append(Open(ALL_REPLICATED));
      Append(Open("shard"));
      Append(Text("internal_replication", "true"));
      WriteReplicas(hosts, options);
      ghost var node := ShardNode(Some("true"), None, Listed(hosts, options));
      assert reader == InShard(clusters, ClusterNode(ALL_REPLICATED, []), node);
      assert [] + [node] == [node];
      Append(Close("shard"));
      Append(Close(ALL_REPLICATED));
    }

    method WriteAutoClusters(all: seq<Cluster>, options: Option<Options>, ghost clusters: seq<ClusterNode>)
      requires Listed(HostsOfChi(all), options) != []
      requires Valid() && reader == InServers(clusters)
      modifies this
      ensures Valid() && reader == InServers(clusters + AutoClusters(all, options))
    {
      var hosts := HostsOfChi(all);
      ghost var auto := AutoClusters(all, options);
      WriteAllSharded(hosts, options, clusters);
      WriteConsistencyCluster(PHYSICAL, all, true, options, clusters + [auto[0]]);
      WriteConsistencyCluster(LOGICAL, all, false, options, clusters + [auto[0]] + [auto[1]]);
      WriteAllReplicated(hosts, options, clusters + [auto[0]] + [auto[1]] + [auto[2]]);
      assert clusters + [auto[0]] + [auto[1]] + [auto[2]] + [auto[3]] == clusters + auto;
    }

    method WritePrologue()
      requires Valid() && reader == Start
      modifies this
      ensures Valid() && reader == InServers([])
    {
      Append(Open("yandex"));
      Append(Text("default_on_cluster_name", ALL_SHARDED));
      Append(Open("remote_servers"));
      Append(Comment("User-specified clusters"));
    }

    method WriteEpilogue(ghost clusters: seq<ClusterNode>)
      requires Valid() && reader == InServers(clusters)
      modifies this
      ensures Valid() && reader == End(clusters)
    {
      Append(Close("remote_servers"));
      Append(Close("yandex"));
    }
  }

  /** Whoever reads the text gets exactly the clusters of the user that have an included host, followed by the
      generated clusters. Absent options exclude nothing. */
  method GetRemoteServers(clusters: seq<Cluster>, maybe: Option<Options>)
    returns (lines: seq<Line>, ghost user: seq<ClusterNode>, ghost auto: seq<ClusterNode>)
    ensures Read(lines) == End(user + auto)
    ensures user == UserClusters(clusters, Effective(maybe)) && auto == AutoClusters(clusters, Effective(maybe))
    // without options every host is listed, in the clusters of the user together and in each generated one
    ensures maybe == None ==> ReplicasOfAll(user) == Everyone(HostsOfChi(clusters))
    ensures maybe == None ==> forall i :: 0 <= i < |auto| ==>
              ReplicasOf(auto[i].shards) == Everyone(HostsOfChi(clusters))
    ensures maybe == None && NothingEmpty(clusters) ==>
              user == seq(|clusters|, i requires 0 <= i < |clusters| => Whole(clusters[i]))
    // with options, exactly the hosts that are not excluded
    ensures maybe.Some? ==> ListsExactly(ReplicasOfAll(user), HostsOfChi(clusters), maybe.value)
    ensures maybe.Some? ==> forall i :: 0 <= i < |auto| ==>
              ListsExactly(ReplicasOf(auto[i].shards), HostsOfChi(clusters), maybe.value)
    // the generated clusters
    ensures auto == [] <==> ReplicasOfAll(user) == []
    ensures auto != [] ==> Generated(auto, user)
  {
    var options := Effective(maybe);
    var b := new Buffer();
    b.WritePrologue();
    b.WriteUserClusters(clusters, options);
    user, auto := UserClusters(clusters, options), AutoClusters(clusters, options);
    var num := ChiHostsNum(clusters, options);
    if num < 1 {
      b.Append(Comment("Autogenerated clusters are skipped due to absence of hots"));
      assert user + [] == user;
    } else {
      b.Append(Comment("Autogenerated clusters"));
      b.WriteAutoClusters(clusters, options, user);
    }
    b.WriteEpilogue(user + auto);
    lines := b.lines;
    WhoIsListed(clusters, maybe);
    GeneratedFromUser(clusters, options);
  }

  // ---- Who is listed -----------------------------------------------------------------------------------------

  /** The replicas of a cluster, shard after shard. */
  function ReplicasOf(shards: seq<ShardNode>): seq<Replica> {
    if shards == [] then [] else ReplicasOf(shards[..|shards| - 1]) + shards[|shards| - 1].replicas
  }

  function ReplicasOfAll(clusters: seq<ClusterNode>): seq<Replica> {
    if clusters == [] then []
    else ReplicasOfAll(clusters[..|clusters| - 1]) + ReplicasOf(clusters[|clusters| - 1].shards)
  }

  lemma {:induction false} ReplicasOfNext(shards: seq<ShardNode>, shard: ShardNode)
    ensures ReplicasOf(shards + [shard]) == ReplicasOf(shards) + shard.replicas
  {
    assert (shards + [shard])[..|shards|] == shards;
  }

  lemma {:induction false} ReplicasOfNextCluster(clusters: seq<ClusterNode>, cluster: ClusterNode)
    ensures ReplicasOfAll(clusters + [cluster]) == ReplicasOfAll(clusters) + ReplicasOf(cluster.shards)
  {
    assert (clusters + [cluster])[..|clusters|] == clusters;
  }

  predicate NoEmptyShard(shards: seq<ShardNode>) {
    forall i :: 0 <= i < |shards| ==> shards[i].replicas != []
  }

  predicate NoEmptyCluster(clusters: seq<ClusterNode>) {
    forall i :: 0 <= i < |clusters| ==> clusters[i].shards != [] && NoEmptyShard(clusters[i].shards)
  }

  lemma {:induction false} NodesListIncluded(shards: seq<Shard>, replication: bool, options: Option<Options>)
    ensures ReplicasOf(NodesOf(shards, replication, options)) == Listed(HostsOf(shards), options)
  {
    if shards != [] {
      var last := |shards| - 1;
      NodesListIncluded(shards[..last], replication, options);
      ListedNextShard(shards, last, options);
      assert shards[..last + 1] == shards;
      ReplicasOfNext(NodesOf(shards[..last], replication, options), NodeOf(shards[last], replication, options));
    }
  }

  lemma {:induction false} NodesAreNotEmpty(shards: seq<Shard>, replication: bool, options: Option<Options>)
    ensures NoEmptyShard(NodesOf(shards, replication, options))
  {
    if shards != [] {
      NodesAreNotEmpty(shards[..|shards| - 1], replication, options);
    }
  }

  lemma {:induction false} UserClustersListIncluded(clusters: seq<Cluster>, options: Option<Options>)
    ensures ReplicasOfAll(UserClusters(clusters, options)) == Listed(HostsOfChi(clusters), options)
  {
    if clusters != [] {
      var last := |clusters| - 1;
      UserClustersListIncluded(clusters[..last], options);
      NodesListIncluded(clusters[last].shards, true, options);
      ListedNextCluster(clusters, last, options);
      assert clusters[..last + 1] == clusters;
      ReplicasOfNextCluster(UserClusters(clusters[..last], options),
                            ClusterNode(clusters[last].name, NodesOf(clusters[last].shards, true, options)));
    }
  }

  lemma {:induction false} UserClustersAreNotEmpty(clusters: seq<Cluster>, options: Option<Options>)
    ensures NoEmptyCluster(UserClusters(clusters, options))
  {
    if clusters != [] {
      var last := |clusters| - 1;
      UserClustersAreNotEmpty(clusters[..last], options);
      NodesAreNotEmpty(clusters[last].shards, true, options);
      NodesListIncluded(clusters[last].shards, true, options);
    }
  }

  lemma {:induction false} SinglesListAll(replicas: seq<Replica>)
    ensures ReplicasOf(Singles(replicas)) == replicas
    ensures NoEmptyShard(Singles(replicas)) && |Singles(replicas)| == |replicas|
  {
    if replicas != [] {
      var last := |replicas| - 1;
      SinglesListAll(replicas[..last]);
      ReplicasOfNext(Singles(replicas[..last]), ShardNode(Some("false"), None, [replicas[last]]));
      assert replicas == replicas[..last] + [replicas[last]];
    }
  }

  /** A cluster that lists these replicas in shards that are not empty. */
  predicate Lists(cluster: ClusterNode, replicas: seq<Replica>) {
    ReplicasOf(cluster.shards) == replicas && cluster.shards != [] && NoEmptyShard(cluster.shards)
  }

  lemma {:induction false} AutoClustersListIncluded(clusters: seq<Cluster>, options: Option<Options>, i: nat)
    requires i < |AutoClusters(clusters, options)|
    ensures Lists(AutoClusters(clusters, options)[i], Listed(HostsOfChi(clusters), options))
  {
    var listed := Listed(HostsOfChi(clusters), options);
    if i == 0 {
      SinglesListAll(listed);
    } else if i < 3 {
      NodesListIncluded(ShardsOf(clusters), i == 1, options);
      NodesAreNotEmpty(ShardsOf(clusters), i == 1, options);
    } else {
      var whole := ShardNode(Some("true"), None, listed);
      ReplicasOfNext([], whole);
      assert [] + [whole] == [whole];
    }
  }

  /** The clusters of the user together, and each of the generated clusters, list the included hosts, each once
      and in the order of the walk; no cluster or shard is empty; and nothing is generated for no host. */
  lemma {:induction false} EveryClusterListsTheIncluded(clusters: seq<Cluster>, options: Option<Options>)
    ensures var user, auto, listed :=
              UserClusters(clusters, options), AutoClusters(clusters, options), Listed(HostsOfChi(clusters), options);
            && NoEmptyCluster(user)
            && ReplicasOfAll(user) == listed
            && (|auto| == if listed == [] then 0 else 4)
            && forall i :: 0 <= i < |auto| ==> Lists(auto[i], listed)
  {
    UserClustersListIncluded(clusters, options);
    UserClustersAreNotEmpty(clusters, options);
    forall i | 0 <= i < |AutoClusters(clusters, options)| {
      AutoClustersListIncluded(clusters, options, i);
    }
  }

  // ---- The same by cases on the options ----------------------------------------------------------------------

  function Everyone(hosts: seq<Host>): seq<Replica> {
    seq(|hosts|, i requires 0 <= i < |hosts| => Replica(hosts[i].name, hosts[i].port))
  }

  /** A cluster as it is printed with all its hosts. */
  function Whole(c: Cluster): ClusterNode {
    ClusterNode(c.name, seq(|c.shards|, i requires 0 <= i < |c.shards| =>
      ShardNode(Some(c.shards[i].internalReplication),
                if c.shards[i].weight > 0 then Some(c.shards[i].weight) else None,
                Everyone(c.shards[i].hosts))))
  }

  predicate NothingEmpty(clusters: seq<Cluster>) {
    forall i :: 0 <= i < |clusters| ==> clusters[i].shards != [] && NoShardEmpty(clusters[i].shards)
  }

  predicate NoShardEmpty(shards: seq<Shard>) {
    forall i :: 0 <= i < |shards| ==> shards[i].hosts != []
  }

  /** The options name the host, or share an attribute with it that is set in both. */
  predicate Excludes(o: Options, h: Host) {
    || h in o.hosts
    || (&& o.attributes.Some?
        && var a := o.attributes.value;
        || (a.add && h.attributes.add) || (a.remove && h.attributes.remove)
        || (a.modified && h.attributes.modified) || (a.unclear && h.attributes.unclear))
  }

  /** These are the replicas of exactly the hosts that the options do not exclude. */
  ghost predicate ListsExactly(replicas: seq<Replica>, hosts: seq<Host>, o: Options) {
    && (forall h :: h in hosts && !Excludes(o, h) ==> Replica(h.name, h.port) in replicas)
    && (forall r :: r in replicas ==> exists h :: h in hosts && !Excludes(o, h) && r == Replica(h.name, h.port))
  }

  function ShardNodesOf(clusters: seq<ClusterNode>): seq<ShardNode> {
    if clusters == [] then []
    else ShardNodesOf(clusters[..|clusters| - 1]) + clusters[|clusters| - 1].shards
  }

  function WithoutReplication(shards: seq<ShardNode>): seq<ShardNode> {
    seq(|shards|, i requires 0 <= i < |shards| => ShardNode(None, shards[i].weight, shards[i].replicas))
  }

  /** The four generated clusters, by name: a shard for each replica, without replication; the shards of the user's
      clusters as they are, and again without their replication setting; one shard with every replica. */
  ghost predicate Generated(auto: seq<ClusterNode>, user: seq<ClusterNode>) {
    var all := ReplicasOfAll(user);
    && |auto| == 4
    && auto[0] == ClusterNode("all-sharded",
         seq(|all|, i requires 0 <= i < |all| => ShardNode(Some("false"), None, [all[i]])))
    && auto[1] == ClusterNode("physical_consistency_cluster", ShardNodesOf(user))
    && auto[2] == ClusterNode("logical_consistency_cluster", WithoutReplication(ShardNodesOf(user)))
    && auto[3] == ClusterNode("all-replicated", [ShardNode(Some("true"), None, all)])
  }

  lemma {:induction false} ListedWithoutOptions(hosts: seq<Host>)
    ensures Listed(hosts, Effective(None)) == Everyone(hosts)
  {
    if hosts != [] {
      ListedWithoutOptions(hosts[..|hosts| - 1]);
      var last := hosts[|hosts| - 1];
      assert Everyone(hosts) == Everyone(hosts[..|hosts| - 1]) + [Replica(last.name, last.port)];
    }
  }

  lemma {:induction false} ListedIsExact(hosts: seq<Host>, o: Options)
    ensures ListsExactly(Listed(hosts, Effective(Some(o))), hosts, o)
  {
    if hosts != [] {
      var last := |hosts| - 1;
      ListedIsExact(hosts[..last], o);
      assert hosts == hosts[..last] + [hosts[last]];
      assert Include(Effective(Some(o)), hosts[last]) <==> !Excludes(o, hosts[last]);
    }
  }

  lemma {:induction false} WhoIsListed(clusters: seq<Cluster>, maybe: Option<Options>)
    ensures var user, auto := UserClusters(clusters, Effective(maybe)), AutoClusters(clusters, Effective(maybe));
            var hosts := HostsOfChi(clusters);
            && (maybe == None ==>
                  && ReplicasOfAll(user) == Everyone(hosts)
                  && (forall i :: 0 <= i < |auto| ==> ReplicasOf(auto[i].shards) == Everyone(hosts))
                  && (NothingEmpty(clusters) ==>
                        user == seq(|clusters|, i requires 0 <= i < |clusters| => Whole(clusters[i]))))
            && (maybe.Some? ==>
                  && ListsExactly(ReplicasOfAll(user), hosts, maybe.value)
                  && forall i :: 0 <= i < |auto| ==> ListsExactly(ReplicasOf(auto[i].shards), hosts, maybe.value))
  {
    EveryClusterListsTheIncluded(clusters, Effective(maybe));
    if maybe == None {
      ListedWithoutOptions(HostsOfChi(clusters));
      if NothingEmpty(clusters) {
        UserClustersAreWhole(clusters);
      }
    } else {
      ListedIsExact(HostsOfChi(clusters), maybe.value);
    }
  }

  lemma {:induction false} NodesAreWhole(shards: seq<Shard>, name: string)
    requires NoShardEmpty(shards)
    ensures NodesOf(shards, true, Effective(None)) == Whole(Cluster(name, shards)).shards
  {
    if shards != [] {
      var last := |shards| - 1;
      NodesAreWhole(shards[..last], name);
      ListedWithoutOptions(shards[last].hosts);
      var whole := Whole(Cluster(name, shards)).shards;
      assert whole == whole[..last] + [whole[last]];
      assert whole[..last] == Whole(Cluster(name, shards[..last])).shards;
    }
  }

  lemma {:induction false} UserClustersAreWhole(clusters: seq<Cluster>)
    requires NothingEmpty(clusters)
    ensures UserClusters(clusters, Effective(None)) ==
            seq(|clusters|, i requires 0 <= i < |clusters| => Whole(clusters[i]))
  {
    if clusters != [] {
      var last := |clusters| - 1;
      UserClustersAreWhole(clusters[..last]);
      NodesAreWhole(clusters[last].shards, clusters[last].name);
      ListedWithoutOptions(HostsOf(clusters[last].shards));
      SomeHost(clusters[last].shards);
    }
  }

  lemma {:induction false} SomeHost(shards: seq<Shard>)
    requires shards != [] && NoShardEmpty(shards)
    ensures HostsOf(shards) != []
  {
    assert shards[|shards| - 1].hosts != [];
  }

  lemma {:induction false} GeneratedFromUser(clusters: seq<Cluster>, options: Option<Options>)
    ensures var user, auto := UserClusters(clusters, options), AutoClusters(clusters, options);
            (auto == [] <==> ReplicasOfAll(user) == []) && (auto != [] ==> Generated(auto, user))
  {
    UserClustersListIncluded(clusters, options);
    var listed := Listed(HostsOfChi(clusters), options);
    SinglesOneByOne(listed);
    ShardsOfUserClusters(clusters, options);
    NodesWithoutReplication(ShardsOf(clusters), options);
  }

  lemma {:induction false} SinglesOneByOne(replicas: seq<Replica>)
    ensures Singles(replicas) ==
            seq(|replicas|, i requires 0 <= i < |replicas| => ShardNode(Some("false"), None, [replicas[i]]))
  {
    if replicas != [] {
      SinglesOneByOne(replicas[..|replicas| - 1]);
    }
  }

  lemma {:induction false} NodesWithoutReplication(shards: seq<Shard>, options: Option<Options>)
    ensures NodesOf(shards, false, options) == WithoutReplication(NodesOf(shards, true, options))
  {
    if shards != [] {
      NodesWithoutReplication(shards[..|shards| - 1], options);
    }
  }

  lemma {:induction false} ShardsOfUserClusters(clusters: seq<Cluster>, options: Option<Options>)
    ensures ShardNodesOf(UserClusters(clusters, options)) == NodesOf(ShardsOf(clusters), true, options)
  {
    if clusters != [] {
      var last := |clusters| - 1;
      ShardsOfUserClusters(clusters[..last], options);
      NodesConcat(ShardsOf(clusters[..last]), clusters[last].shards, true, options);
      if Listed(HostsOf(clusters[last].shards), options) == [] {
        NoNodes(clusters[last].shards, options);
      } else {
        var before := UserClusters(clusters[..last], options);
        var node := ClusterNode(clusters[last].name, NodesOf(clusters[last].shards, true, options));
        assert (before + [node])[..|before|] == before;
      }
    }
  }

  lemma {:induction false} NoNodes(shards: seq<Shard>, options: Option<Options>)
    requires Listed(HostsOf(shards), options) == []
    ensures NodesOf(shards, true, options) == []
  {
    if shards != [] {
      var last := |shards| - 1;
      ListedNextShard(shards, last, options);
      assert shards[..last + 1] == shards;
      NoNodes(shards[..last], options);
    }
  }
}
