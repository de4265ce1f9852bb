/** The layout of a cluster: shard-major and replica-major host lists folded into one field of shared
    host objects and rebuilt from it (pkg/model/normalizer.go, type_cluster.go, type_hosts_field.go). */
module Layout {
  import opened Wrappers

  /** ChiTemplateNames */
  datatype TemplateNames = TemplateNames(
    host: string, pod: string, dataVolumeClaim: string, logVolumeClaim: string, volumeClaim: string,
    service: string, clusterService: string, shardService: string, replicaService: string)

  const NO_TEMPLATES := TemplateNames("", "", "", "", "", "", "", "", "")

  /** The fields of a host that merging concerns. */
  datatype Attrs = Attrs(port: int, tcp: int, http: int, interserver: int, templates: Option<TemplateNames>)

  const NEW_HOST := Attrs(0, 0, 0, 0, None)

  function FillString(dst: string, src: string): string {
    if dst == "" then src else dst
  }

  function FillPort(dst: int, src: int): int {
    if dst == 0 then src else dst
  }

  /** ChiTemplateNames.MergeFrom with MergeTypeFillEmptyValues */
  function FillTemplates(dst: Option<TemplateNames>, src: Option<TemplateNames>): Option<TemplateNames> {
    match src
    case None => dst
    case Some(s) =>
      var d := if dst.None? then NO_TEMPLATES else dst.value;
      Some(TemplateNames(
             FillString(d.host, s.host), FillString(d.pod, s.pod),
             FillString(d.dataVolumeClaim, s.dataVolumeClaim), FillString(d.logVolumeClaim, s.logVolumeClaim),
             FillString(d.volumeClaim, s.volumeClaim), FillString(d.service, s.service),
             FillString(d.clusterService, s.clusterService), FillString(d.shardService, s.shardService),
             FillString(d.replicaService, s.replicaService)))
  }

  /** HandleDeprecatedFields */
  function HandleDeprecated(t: Option<TemplateNames>): Option<TemplateNames> {
    match t
    case None => None
    case Some(n) => Some(n.(dataVolumeClaim := FillString(n.dataVolumeClaim, n.volumeClaim)))
  }

  /** ChiHost.MergeFrom of a host that exists. */
  function Merge(dst: Attrs, src: Attrs): Attrs {
    Attrs(FillPort(dst.port, src.port), FillPort(dst.tcp, src.tcp), FillPort(dst.http, src.http),
          FillPort(dst.interserver, src.interserver), HandleDeprecated(FillTemplates(dst.templates, src.templates)))
  }

  class Host {
    var attrs: Attrs

    constructor ()
      ensures attrs == NEW_HOST
    {
      attrs := NEW_HOST;
    }

    method MergeFrom(from: Host?)
      modifies this
      ensures attrs == if from == null then old(attrs) else Merge(old(attrs), old(from.attrs))
    {
      if from == null {
        return;
      }
      var src := from.attrs;
      if attrs.port == 0 {
        attrs := attrs.(port := src.port);
      }
      if attrs.tcp == 0 {
        attrs := attrs.(tcp := src.tcp);
      }
      if attrs.http == 0 {
        attrs := attrs.(http := src.http);
      }
      if attrs.interserver == 0 {
        attrs := attrs.(interserver := src.interserver);
      }
      attrs := attrs.(templates := FillTemplates(attrs.templates, src.templates));
      attrs := attrs.(templates := HandleDeprecated(attrs.templates));
    }
  }

  /** A shard or, with the roles exchanged, a replica: an explicit count (0 when absent) and a list of
      hosts, any of which may be nil. */
  datatype Row = Row(count: int, hosts: seq<Host?>)

  /** The 2-D field of hosts; a cell is nil until it is set. */
  class HostsField {
    const cells: array2<Host?>

    constructor (shards: nat, replicas: nat)
      ensures fresh(cells) && cells.Length0 == shards && cells.Length1 == replicas
      ensures forall s, r :: 0 <= s < shards && 0 <= r < replicas ==> cells[s, r] == null
    {
      cells := new Host?[shards, replicas]((s, r) => null);
    }

    /** Whether Go's bounds checks let this access through. */
    predicate InRange(s: int, r: int) {
      0 <= s < cells.Length0 && 0 <= r < cells.Length1
    }

    method GetOrCreate(s: nat, r: nat) returns (host: Host)
      requires InRange(s, r)
      modifies cells
      ensures cells[s, r] == host
      ensures old(cells[s, r]) != null ==> host == old(cells[s, r])
      ensures old(cells[s, r]) == null ==> fresh(host) && host.attrs == NEW_HOST
      ensures forall i, j :: InRange(i, j) && (i != s || j != r) ==> cells[i, j] == old(cells[i, j])
    {
      if cells[s, r] == null {
        var created := new Host();
        cells[s, r] := created;
      }
      host := cells[s, r];
    }
  }

  /** The host a list gives for an index, nil when it gives none. */
  function At(rows: seq<Row>, i: int, j: int): Host? {
    if 0 <= i < |rows| && 0 <= j < |rows[i].hosts| then rows[i].hosts[j] else null
  }

  function Max(a: int, b: int): int {
    if a < b then b else a
  }

  /** The least count that is at least 1 and covers these rows' counts and lists. */
  function Widest(rows: seq<Row>): (n: int)
    ensures n >= 1
    ensures forall i :: 0 <= i < |rows| ==> rows[i].count <= n && |rows[i].hosts| <= n
    ensures n == 1 || exists i :: 0 <= i < |rows| && (n == rows[i].count || n == |rows[i].hosts|)
  {
    if rows == [] then 1
    else
      var k := |rows| - 1;
      Max(Widest(rows[..k]), Max(rows[k].count, |rows[k].hosts|))
  }

  /** The count of rows after normalizeClusterLayoutShardsCountAndReplicasCount. */
  function LayoutCount(explicit: int, rows: seq<Row>, across: seq<Row>): int {
    if explicit != 0 then explicit else Max(|rows|, Widest(across))
  }

  /** No row, nor count or list across, is longer than n, which is positive, and every smaller such number is
      exceeded by one of them. */
  ghost predicate LeastToCover(n: int, rows: seq<Row>, across: seq<Row>) {
    && 1 <= n && |rows| <= n
    && (forall i :: 0 <= i < |across| ==> across[i].count <= n && |across[i].hosts| <= n)
    && (n == 1 || n == |rows| || exists i :: 0 <= i < |across| && (n == across[i].count || n == |across[i].hosts|))
  }

  /** The length of a row's host list after normalizeShardReplicasCount or normalizeReplicaShardsCount. */
  function RowCount(row: Row, layoutCount: int): int {
    if row.count > 0 then row.count else if |row.hosts| > 0 then |row.hosts| else layoutCount
  }

  /** What an explicit layout count must cover; a count of 0 is computed and covers everything. */
  predicate Covers(count: int, rows: seq<Row>, across: seq<Row>) {
    count == 0 || (count >= 1 && |rows| <= count &&
                   forall i :: 0 <= i < |across| ==> across[i].count <= count && |across[i].hosts| <= count)
  }

  /** Distinct coordinates hold distinct hosts; a shard list and a replica list may share one. */
  ghost predicate Unaliased(shards: seq<Row>, replicas: seq<Row>) {
    && (forall s, r, s', r' :: At(shards, s, r) != null && At(shards, s, r) == At(shards, s', r') ==>
          s == s' && r == r')
    && (forall s, r, s', r' :: At(replicas, r, s) != null && At(replicas, r, s) == At(replicas, r', s') ==>
          s == s' && r == r')
    && (forall s, r, s', r' :: At(shards, s, r) != null && At(shards, s, r) == At(replicas, r', s') ==>
          s == s' && r == r')
  }

  /** Every host the lists give. */
  ghost predicate Pooled(pool: set<Host>, rows: seq<Row>) {
    forall i, j :: At(rows, i, j) != null ==> At(rows, i, j) in pool
  }

  /** Every list is within the field. */
  ghost predicate ListsFit(rows: seq<Row>, n: int, m: int) {
    forall i :: 0 <= i < |rows| && rows[i].hosts != [] ==> i < n && |rows[i].hosts| <= m
  }

  /** createHostsField, first half: hosts migrate from the shards. True means Go would panic. */
  method MigrateShards(field: HostsField, shards: seq<Row>) returns (panicked: bool)
    requires forall s, r :: field.InRange(s, r) ==> field.cells[s, r] == null
    modifies field.cells
    ensures panicked == !ListsFit(shards, field.cells.Length0, field.cells.Length1)
    ensures !panicked ==> forall s, r :: field.InRange(s, r) ==> field.cells[s, r] == At(shards, s, r)
  {
    var s := 0;
    while s < |shards|
      invariant s <= |shards|
      invariant ListsFit(shards[..s], field.cells.Length0, field.cells.Length1)
      invariant forall i, j :: field.InRange(i, j) ==> field.cells[i, j] == if i < s then At(shards, i, j) else null
    {
      var r := 0;
      while r < |shards[s].hosts|
        invariant r <= |shards[s].hosts|
        invariant r > 0 ==> s < field.cells.Length0 && r <= field.cells.Length1
        invariant forall i, j :: field.InRange(i, j) ==>
                    field.cells[i, j] == if i < s || (i == s && j < r) then At(shards, i, j) else null
      {
        if !field.InRange(s, r) {
          return true;
        }
        if field.cells[s, r] == null {
          field.cells[s, r] := shards[s].hosts[r];
        } else {
          assert false;  // every cell of a new field is visited once: nothing to merge into yet
        }
        r := r + 1;
      }
      s := s + 1;
    }
    assert shards[..|shards|] == shards;
    return false;
  }

  /** Coordinates merged before the host (s, r) of the walk by replicas. */
  predicate Before(i: int, j: int, s: int, r: int) {
    j < r || (j == r && i < s)
  }

  /** The host of a cell once both lists are migrated. */
  function Pick(shards: seq<Row>, replicas: seq<Row>, s: int, r: int): Host? {
    if At(shards, s, r) != null then At(shards, s, r) else At(replicas, r, s)
  }

  /** What the walk by replicas has done before (s, r). */
  twostate predicate Migrated(field: HostsField, shards: seq<Row>, replicas: seq<Row>, pool: set<Host>, s: int, r: int)
    reads field.cells, pool
  {
    && (forall i, j :: field.InRange(i, j) ==>
          field.cells[i, j] == if Before(i, j, s, r) then Pick(shards, replicas, i, j) else At(shards, i, j))
    && (forall i, j :: Before(i, j, s, r) && At(shards, i, j) in pool && At(replicas, j, i) in pool ==>
          At(shards, i, j).attrs == Merge(old(At(shards, i, j).attrs), old(At(replicas, j, i).attrs)))
    && (forall h ::
          h in pool && (forall i, j :: Before(i, j, s, r) && At(replicas, j, i) != null ==> At(shards, i, j) != h) ==>
          h.attrs == old(h.attrs))
  }

  /** One host of the walk by replicas: into an empty cell, or merged into the host already there. */
  method MigrateOne(
    field: HostsField, ghost shards: seq<Row>, replicas: seq<Row>, ghost pool: set<Host>, s: nat, r: nat)
    requires r < |replicas| && s < |replicas[r].hosts| && field.InRange(s, r)
    requires field.cells[s, r] == At(shards, s, r)
    requires At(shards, s, r) == null || At(shards, s, r) in pool
    modifies field.cells, pool
    ensures field.cells[s, r] == Pick(shards, replicas, s, r)
    ensures forall i, j :: field.InRange(i, j) && (i != s || j != r) ==> field.cells[i, j] == old(field.cells[i, j])
    ensures At(shards, s, r) != null && At(replicas, r, s) != null ==>
              At(shards, s, r).attrs == Merge(old(At(shards, s, r).attrs), old(At(replicas, r, s).attrs))
    ensures forall h :: h in pool && (h != At(shards, s, r) || At(replicas, r, s) == null) ==> h.attrs == old(h.attrs)
  {
    var host := replicas[r].hosts[s];
    var cur := field.cells[s, r];
    if cur == null {
      field.cells[s, r] := host;
    } else {
      cur.MergeFrom(host);
    }
  }

  /** createHostsField, second half: hosts migrate from the replicas. True means Go would panic. */
  method MigrateReplicas(
    field: HostsField, shards: seq<Row>, replicas: seq<Row>, ghost pool: set<Host>) returns (panicked: bool)
    requires Unaliased(shards, replicas) && Pooled(pool, shards) && Pooled(pool, replicas)
    requires forall s, r :: field.InRange(s, r) ==> field.cells[s, r] == At(shards, s, r)
    modifies field.cells, pool
    ensures panicked == !ListsFit(replicas, field.cells.Length1, field.cells.Length0)
    ensures !panicked ==> Migrated(field, shards, replicas, pool, 0, |replicas|)
  {
    var r := 0;
    while r < |replicas|
      invariant r <= |replicas|
      invariant ListsFit(replicas[..r], field.cells.Length1, field.cells.Length0)
      invariant Migrated(field, shards, replicas, pool, 0, r)
    {
      var s := 0;
      while s < |replicas[r].hosts|
        invariant s <= |replicas[r].hosts|
        invariant s > 0 ==> r < field.cells.Length1 && s <= field.cells.Length0
        invariant Migrated(field, shards, replicas, pool, s, r)
      {
        if !field.InRange(s, r) {
          return true;
        }
        MigrateOne(field, shards, replicas, pool, s, r);
        s := s + 1;
      }
      r := r + 1;
    }
    assert replicas[..|replicas|] == replicas;
    return false;
  }

  ghost predicate DistinctCells(field: HostsField)
    reads field.cells
  {
    forall s, r, s', r' ::
      (field.InRange(s, r) && field.InRange(s', r') && field.cells[s, r] != null &&
        field.cells[s, r] == field.cells[s', r'])
      ==> s == s' && r == r'
  }

  /** A cell goes from nil to a new host when it is asked for, and is otherwise as it was. */
  twostate predicate Filled(was: Host?, new now: Host?, asked: bool)
    reads now
  {
    if was == null && asked then now != null && fresh(now) && now.attrs == NEW_HOST else now == was
  }

  /** The cell (i, j) is among those the first n rows need. */
  predicate Asked(rows: seq<Row>, layoutCount: int, n: int, i: int, j: int) {
    0 <= i < n && i < |rows| && j < RowCount(rows[i], layoutCount)
  }

  /** normalizeShardHosts: the list is rebuilt from the field. True means Go would panic. */
  method RebuildShard(field: HostsField, i: nat, count: int) returns (panicked: bool, hosts: seq<Host?>)
    requires DistinctCells(field) && count >= 1
    modifies field.cells
    ensures panicked == !(i < field.cells.Length0 && count <= field.cells.Length1)
    ensures !panicked ==> |hosts| == count
    ensures !panicked ==> forall j :: 0 <= j < count ==> hosts[j] == field.cells[i, j] && hosts[j] != null
    ensures DistinctCells(field)
    ensures !panicked ==> forall k, j :: field.InRange(k, j) ==>
              Filled(old(field.cells[k, j]), field.cells[k, j], k == i && j < count)
  {
    hosts := [];
    while |hosts| < count
      invariant |hosts| <= count
      invariant hosts != [] ==> i < field.cells.Length0 && |hosts| <= field.cells.Length1
      invariant forall j :: 0 <= j < |hosts| ==> hosts[j] == field.cells[i, j] && hosts[j] != null
      invariant DistinctCells(field)
      invariant forall k, j :: field.InRange(k, j) ==>
                  Filled(old(field.cells[k, j]), field.cells[k, j], k == i && j < |hosts|)
    {
      if !field.InRange(i, |hosts|) {
        return true, hosts;
      }
      var host := field.GetOrCreate(i, |hosts|);
      hosts := hosts + [host];
    }
    return false, hosts;
  }

  /** The shards of normalizeCluster, one after the other. True means Go would panic. */
  method RebuildShards(field: HostsField, rows: seq<Row>, layoutCount: int) returns (panicked: bool, out: seq<Row>)
    requires DistinctCells(field) && layoutCount >= 1
    modifies field.cells
    ensures panicked == !(&& |rows| <= field.cells.Length0
                          && forall i :: 0 <= i < |rows| ==> RowCount(rows[i], layoutCount) <= field.cells.Length1)
    ensures !panicked ==> |out| == |rows|
    ensures !panicked ==> SizedByCase(rows, out, layoutCount)
    ensures !panicked ==> forall i :: 0 <= i < |rows| ==>
              out[i].count == |out[i].hosts| == RowCount(rows[i], layoutCount)
    ensures !panicked ==> forall i, j :: 0 <= i < |rows| && 0 <= j < out[i].count ==>
              out[i].hosts[j] == field.cells[i, j] && out[i].hosts[j] != null
    ensures DistinctCells(field)
    ensures !panicked ==> forall i, j :: field.InRange(i, j) ==>
              Filled(old(field.cells[i, j]), field.cells[i, j], Asked(rows, layoutCount, |rows|, i, j))
  {
    out := [];
    while |out| < |rows|
      invariant |out| <= |rows| && |out| <= field.cells.Length0
      invariant forall i :: 0 <= i < |out| ==>
                  out[i].count == |out[i].hosts| == RowCount(rows[i], layoutCount) <= field.cells.Length1
      invariant forall i, j :: 0 <= i < |out| && 0 <= j < out[i].count ==>
                  out[i].hosts[j] == field.cells[i, j] && out[i].hosts[j] != null
      invariant DistinctCells(field)
      invariant forall i, j :: field.InRange(i, j) ==>
                  Filled(old(field.cells[i, j]), field.cells[i, j], Asked(rows, layoutCount, |out|, i, j))
    {
      var i := |out|;
      var count := RowCount(rows[i], layoutCount);
      var hosts;
      panicked, hosts := RebuildShard(field, i, count);
      if panicked {
        return;
      }
      out := out + [Row(count, hosts)];
    }
    return false, out;
  }

  /** normalizeReplicaHosts: the list is rebuilt from the field. True means Go would panic. */
  method RebuildReplica(field: HostsField, i: nat, count: int) returns (panicked: bool, hosts: seq<Host?>)
    requires DistinctCells(field) && count >= 1
    modifies field.cells
    ensures panicked == !(i < field.cells.Length1 && count <= field.cells.Length0)
    ensures !panicked ==> |hosts| == count
    ensures !panicked ==> forall j :: 0 <= j < count ==> hosts[j] == field.cells[j, i] && hosts[j] != null
    ensures DistinctCells(field)
    ensures !panicked ==> forall k, j :: field.InRange(j, k) ==>
              Filled(old(field.cells[j, k]), field.cells[j, k], k == i && j < count)
  {
    hosts := [];
    while |hosts| < count
      invariant |hosts| <= count
      invariant hosts != [] ==> i < field.cells.Length1 && |hosts| <= field.cells.Length0
      invariant forall j :: 0 <= j < |hosts| ==> hosts[j] == field.cells[j, i] && hosts[j] != null
      invariant DistinctCells(field)
      invariant forall k, j :: field.InRange(j, k) ==>
                  Filled(old(field.cells[j, k]), field.cells[j, k], k == i && j < |hosts|)
    {
      if !field.InRange(|hosts|, i) {
        return true, hosts;
      }
      var host := field.GetOrCreate(|hosts|, i);
      hosts := hosts + [host];
    }
    return false, hosts;
  }

  /** The replicas of normalizeCluster, one after the other. True means Go would panic. */
  method RebuildReplicas(field: HostsField, rows: seq<Row>, layoutCount: int) returns (panicked: bool, out: seq<Row>)
    requires DistinctCells(field) && layoutCount >= 1
    modifies field.cells
    ensures panicked == !(&& |rows| <= field.cells.Length1
                          && forall i :: 0 <= i < |rows| ==> RowCount(rows[i], layoutCount) <= field.cells.Length0)
    ensures !panicked ==> |out| == |rows|
    ensures !panicked ==> SizedByCase(rows, out, layoutCount)
    ensures !panicked ==> forall i :: 0 <= i < |rows| ==>
              out[i].count == |out[i].hosts| == RowCount(rows[i], layoutCount)
    ensures !panicked ==> forall i, j :: 0 <= i < |rows| && 0 <= j < out[i].count ==>
              out[i].hosts[j] == field.cells[j, i] && out[i].hosts[j] != null
    ensures DistinctCells(field)
    ensures !panicked ==> forall i, j :: field.InRange(j, i) ==>
              Filled(old(field.cells[j, i]), field.cells[j, i], Asked(rows, layoutCount, |rows|, i, j))
  {
    out := [];
    while |out| < |rows|
      invariant |out| <= |rows| && |out| <= field.cells.Length1
      invariant forall i :: 0 <= i < |out| ==>
                  out[i].count == |out[i].hosts| == RowCount(rows[i], layoutCount) <= field.cells.Length0
      invariant forall i, j :: 0 <= i < |out| && 0 <= j < out[i].count ==>
                  out[i].hosts[j] == field.cells[j, i] && out[i].hosts[j] != null
      invariant DistinctCells(field)
      invariant forall i, j :: field.InRange(j, i) ==>
                  Filled(old(field.cells[j, i]), field.cells[j, i], Asked(rows, layoutCount, |out|, i, j))
    {
      var i := |out|;
      var count := RowCount(rows[i], layoutCount);
      var hosts;
      panicked, hosts := RebuildReplica(field, i, count);
      if panicked {
        return;
      }
      out := out + [Row(count, hosts)];
    }
    return false, out;
  }

  /** A host given by both lists is merged once, the shard's side first; all others keep their values. */
  twostate predicate MergedOnce(shards: seq<Row>, replicas: seq<Row>, pool: set<Host>)
    reads pool
  {
    && (forall s, r :: At(shards, s, r) in pool && At(replicas, r, s) in pool ==>
          At(shards, s, r).attrs == Merge(old(At(shards, s, r).attrs), old(At(replicas, r, s).attrs)))
    && (forall h :: h in pool && (forall s, r :: At(replicas, r, s) != null ==> At(shards, s, r) != h) ==>
          h.attrs == old(h.attrs))
  }

  /** createHostsField. True means Go would panic. */
  method CreateHostsField(
    shardsCount: int, replicasCount: int, shards: seq<Row>, replicas: seq<Row>, ghost pool: set<Host>)
    returns (panicked: bool, field: HostsField?)
    requires Unaliased(shards, replicas) && Pooled(pool, shards) && Pooled(pool, replicas)
    modifies pool
    ensures panicked == !(shardsCount >= 0 && replicasCount >= 0 &&
                          ListsFit(shards, shardsCount, replicasCount) &&
                          ListsFit(replicas, replicasCount, shardsCount))
    ensures !panicked ==> field != null && fresh(field) && fresh(field.cells)
    ensures !panicked ==> field.cells.Length0 == shardsCount && field.cells.Length1 == replicasCount
    ensures !panicked ==> forall s, r :: field.InRange(s, r) ==> field.cells[s, r] == Pick(shards, replicas, s, r)
    ensures !panicked ==> MergedOnce(shards, replicas, pool)
  {
    if shardsCount < 0 || replicasCount < 0 {
      return true, null;  // make with a negative length
    }
    field := new HostsField(shardsCount, replicasCount);
    panicked := MigrateShards(field, shards);
    if panicked {
      return;
    }
    panicked := MigrateReplicas(field, shards, replicas, pool);
    if !panicked {
      assert forall s, r :: At(replicas, r, s) != null ==> Before(s, r, 0, |replicas|);
    }
  }

  lemma {:induction false} PicksAreDistinct(field: HostsField, shards: seq<Row>, replicas: seq<Row>)
    requires Unaliased(shards, replicas)
    requires forall s, r :: field.InRange(s, r) ==> field.cells[s, r] == Pick(shards, replicas, s, r)
    ensures DistinctCells(field)
  {
  }

  /** Both directions list the hosts of the field, as many as their counts say. */
  ghost predicate GridOf(field: HostsField, shards: seq<Row>, replicas: seq<Row>)
    reads field.cells
  {
    && DistinctCells(field)
    && 1 <= |shards| == field.cells.Length0 && 1 <= |replicas| == field.cells.Length1
    && (forall s :: 0 <= s < |shards| ==> 1 <= shards[s].count == |shards[s].hosts| <= |replicas|)
    && (forall r :: 0 <= r < |replicas| ==> 1 <= replicas[r].count == |replicas[r].hosts| <= |shards|)
    && (forall s, r :: 0 <= s < |shards| && 0 <= r < |shards[s].hosts| ==>
          shards[s].hosts[r] != null && shards[s].hosts[r] == field.cells[s, r])
    && (forall s, r :: 0 <= r < |replicas| && 0 <= s < |replicas[r].hosts| ==>
          replicas[r].hosts[s] != null && replicas[r].hosts[s] == field.cells[s, r])
  }

  /** The walks over shards and over replicas of normalizeCluster. True means Go would panic. */
  method RebuildRows(field: HostsField, shards: seq<Row>, replicas: seq<Row>)
    returns (panicked: bool, newShards: seq<Row>, newReplicas: seq<Row>)
    requires DistinctCells(field)
    requires 1 <= field.cells.Length0 <= |shards| && 1 <= field.cells.Length1 <= |replicas|
    modifies field.cells
    ensures panicked == !RowsFit(shards, replicas, field.cells.Length0, field.cells.Length1)
    ensures !panicked ==> GridOf(field, newShards, newReplicas)
    ensures !panicked ==> forall s :: 0 <= s < |shards| ==>
              newShards[s].count == RowCount(shards[s], field.cells.Length1)
    ensures !panicked ==> forall r :: 0 <= r < |replicas| ==>
              newReplicas[r].count == RowCount(replicas[r], field.cells.Length0)
    ensures !panicked ==> forall s, r :: field.InRange(s, r) ==>
              Filled(old(field.cells[s, r]), field.cells[s, r], r < newShards[s].count || s < newReplicas[r].count)
  {
    panicked, newShards := RebuildShards(field, shards, field.cells.Length1);
    if panicked {
      return true, [], [];
    }
    panicked, newReplicas := RebuildReplicas(field, replicas, field.cells.Length0);
  }

  /** No row is outside the field, and no row's count exceeds it. */
  ghost predicate RowsFit(shards: seq<Row>, replicas: seq<Row>, n: int, m: int) {
    && |shards| <= n && |replicas| <= m
    && (forall s :: 0 <= s < |shards| ==> RowCount(shards[s], m) <= m)
    && (forall r :: 0 <= r < |replicas| ==> RowCount(replicas[r], n) <= n)
  }

  /** Rows with empty ones appended, up to a count. */
  ghost predicate Extended(rows: seq<Row>, longer: seq<Row>, count: int) {
    && |longer| == Max(|rows|, count) && rows <= longer
    && (forall i :: |rows| <= i < |longer| ==> longer[i] == Row(0, []))
  }

  lemma {:induction false} SameLists(rows: seq<Row>, longer: seq<Row>, count: int)
    requires Extended(rows, longer, count)
    ensures forall i, j :: At(longer, i, j) == At(rows, i, j)
  {
  }

  /** Each given row, and each row appended to it, has the count that the rules give it. */
  ghost predicate Counted(given: seq<Row>, rows: seq<Row>, layoutCount: int) {
    |given| <= |rows| && forall i :: 0 <= i < |rows| ==>
      rows[i].count == RowCount(if i < |given| then given[i] else Row(0, []), layoutCount)
  }

  /** A row keeps an explicit count, else it has as many hosts as it lists, else as many as the layout has the other
      way; so does a row that was not given. */
  ghost predicate SizedByCase(given: seq<Row>, rows: seq<Row>, layoutCount: int) {
    && |given| <= |rows|
    && (forall i :: 0 <= i < |given| && given[i].count > 0 ==> |rows[i].hosts| == given[i].count)
    && (forall i :: 0 <= i < |given| && given[i].count <= 0 && given[i].hosts != [] ==>
          |rows[i].hosts| == |given[i].hosts|)
    && (forall i :: 0 <= i < |given| && given[i].count <= 0 && given[i].hosts == [] ==> |rows[i].hosts| == layoutCount)
    && (forall i :: |given| <= i < |rows| ==> |rows[i].hosts| == layoutCount)
  }

  /** A shard's own host stays at its place; a place that no shard gives a host has the replica's own, if it gives one;
      and both directions list one object. */
  ghost predicate PlacedByCase(givenShards: seq<Row>, givenReplicas: seq<Row>, shards: seq<Row>, replicas: seq<Row>) {
    && (forall s, r :: 0 <= s < |shards| && 0 <= r < |shards[s].hosts| ==>
          shards[s].hosts[r] != null && Placed(givenShards, givenReplicas, s, r, shards[s].hosts[r]))
    && (forall s, r :: 0 <= r < |replicas| && 0 <= s < |replicas[r].hosts| ==>
          replicas[r].hosts[s] != null && Placed(givenShards, givenReplicas, s, r, replicas[r].hosts[s]))
    && (forall s, r :: 0 <= s < |shards| && 0 <= r < |shards[s].hosts| &&
                       r < |replicas| && s < |replicas[r].hosts| ==>
          shards[s].hosts[r] == replicas[r].hosts[s])
  }

  ghost predicate Placed(givenShards: seq<Row>, givenReplicas: seq<Row>, s: nat, r: nat, host: Host?) {
    if s < |givenShards| && r < |givenShards[s].hosts| && givenShards[s].hosts[r] != null
    then host == givenShards[s].hosts[r]
    else r < |givenReplicas| && s < |givenReplicas[r].hosts| && givenReplicas[r].hosts[s] != null ==>
           host == givenReplicas[r].hosts[s]
  }

  /** Every shard lists as many hosts as there are replicas, every replica as many as there are shards. */
  ghost predicate FullGrid(shards: seq<Row>, replicas: seq<Row>) {
    && (forall s :: 0 <= s < |shards| ==> |shards[s].hosts| == |replicas|)
    && (forall r :: 0 <= r < |replicas| ==> |replicas[r].hosts| == |shards|)
  }

  lemma {:induction false} HostsByCase(
    field: HostsField, givenShards: seq<Row>, givenReplicas: seq<Row>, shards: seq<Row>, replicas: seq<Row>)
    requires GridOf(field, shards, replicas)
    requires forall s, r :: field.InRange(s, r) && Pick(givenShards, givenReplicas, s, r) != null ==>
               field.cells[s, r] == Pick(givenShards, givenReplicas, s, r)
    ensures PlacedByCase(givenShards, givenReplicas, shards, replicas)
  {
    forall s: nat, r: nat | field.InRange(s, r)
      ensures Placed(givenShards, givenReplicas, s, r, field.cells[s, r])
    {
      assert At(givenShards, s, r) == null || At(givenShards, s, r) == givenShards[s].hosts[r];
    }
  }

  lemma {:induction false} LayoutCountByCase(explicit: int, rows: seq<Row>, across: seq<Row>)
    ensures explicit != 0 ==> LayoutCount(explicit, rows, across) == explicit
    ensures explicit == 0 ==> LeastToCover(LayoutCount(explicit, rows, across), rows, across)
  {
  }

  lemma {:induction false} CountsByCase(given: seq<Row>, rows: seq<Row>, layoutCount: int)
    requires Counted(given, rows, layoutCount)
    requires forall i :: 0 <= i < |rows| ==> |rows[i].hosts| == rows[i].count
    ensures SizedByCase(given, rows, layoutCount)
  {
  }

  /** The field and both directions' lists. True means Go would panic. */
  method MakeGrid(
    n: int, m: int, shards: seq<Row>, replicas: seq<Row>, ghost givenShards: seq<Row>, ghost givenReplicas: seq<Row>,
    ghost pool: set<Host>)
    returns (panicked: bool, field: HostsField?, newShards: seq<Row>, newReplicas: seq<Row>)
    requires Unaliased(givenShards, givenReplicas) && Pooled(pool, givenShards) && Pooled(pool, givenReplicas)
    requires Extended(givenShards, shards, n) && Extended(givenReplicas, replicas, m) && n != 0 && m != 0
    modifies pool
    ensures panicked == !(n >= 1 && m >= 1 && ListsFit(shards, n, m) && ListsFit(replicas, m, n) &&
                          RowsFit(shards, replicas, n, m))
    ensures !panicked ==> field != null && fresh(field) && fresh(field.cells) && GridOf(field, newShards, newReplicas)
    ensures !panicked ==> |newShards| == n && |newReplicas| == m
    ensures !panicked ==> Counted(givenShards, newShards, m) && Counted(givenReplicas, newReplicas, n)
    ensures !panicked ==> forall s, r :: field.InRange(s, r) ==>
              Filled(Pick(givenShards, givenReplicas, s, r), field.cells[s, r],
                     r < newShards[s].count || s < newReplicas[r].count)
    ensures !panicked ==> MergedOnce(givenShards, givenReplicas, pool)
  {
    newShards, newReplicas := [], [];
    SameLists(givenShards, shards, n);
    SameLists(givenReplicas, replicas, m);
    panicked, field := CreateHostsField(n, m, shards, replicas, pool);
    if panicked {
      return;
    }
    PicksAreDistinct(field, shards, replicas);
    panicked, newShards, newReplicas := RebuildRows(field, shards, replicas);
  }

  /** The bounds that the whole of the layout steps needs are those that Covers states of the input. */
  lemma {:induction false} CoversIsExact(
    shardsCount: int, replicasCount: int, shards: seq<Row>, replicas: seq<Row>, allShards: seq<Row>,
    allReplicas: seq<Row>)
    requires var n, m := LayoutCount(shardsCount, shards, replicas), LayoutCount(replicasCount, replicas, shards);
      Extended(shards, allShards, n) && Extended(replicas, allReplicas, m)
    ensures var n, m := LayoutCount(shardsCount, shards, replicas), LayoutCount(replicasCount, replicas, shards);
      Covers(shardsCount, shards, replicas) && Covers(replicasCount, replicas, shards) <==>
      n >= 1 && m >= 1 && ListsFit(allShards, n, m) && ListsFit(allReplicas, m, n) &&
      RowsFit(allShards, allReplicas, n, m)
  {
    var n, m := LayoutCount(shardsCount, shards, replicas), LayoutCount(replicasCount, replicas, shards);
    if n >= 1 && m >= 1 && ListsFit(allShards, n, m) && ListsFit(allReplicas, m, n) &&
       RowsFit(allShards, allReplicas, n, m) {
      forall s | 0 <= s < |shards|
        ensures shards[s].count <= m && |shards[s].hosts| <= m
      {
        assert allShards[s] == shards[s];
      }
      forall r | 0 <= r < |replicas|
        ensures replicas[r].count <= n && |replicas[r].hosts| <= n
      {
        assert allReplicas[r] == replicas[r];
      }
    }
  }

  /** ChiClusterLayout */
  class Cluster {
    var shardsCount: int
    var replicasCount: int
    var shards: seq<Row>
    var replicas: seq<Row>
    var field: HostsField?

    constructor (shardsCount: int, replicasCount: int, shards: seq<Row>, replicas: seq<Row>)
      ensures this.shardsCount == shardsCount && this.replicasCount == replicasCount
      ensures this.shards == shards && this.replicas == replicas && field == null
    {
      this.shardsCount, this.replicasCount, this.shards, this.replicas, field :=
        shardsCount, replicasCount, shards, replicas, null;
    }

    /** normalizeClusterLayoutShardsCountAndReplicasCount */
    method NormalizeCounts()
      modifies `shardsCount, `replicasCount
      ensures shardsCount == LayoutCount(old(shardsCount), shards, replicas)
      ensures replicasCount == LayoutCount(old(replicasCount), replicas, shards)
      // an explicit count is kept, a missing one is the least that is positive and covers what the rows ask for
      ensures old(shardsCount) != 0 ==> shardsCount == old(shardsCount)
      ensures old(replicasCount) != 0 ==> replicasCount == old(replicasCount)
      ensures old(shardsCount) == 0 ==> LeastToCover(shardsCount, shards, replicas)
      ensures old(replicasCount) == 0 ==> LeastToCover(replicasCount, replicas, shards)
    {
      if shardsCount == 0 {
        shardsCount := CountRows(shards, replicas);
      }
      if replicasCount == 0 {
        replicasCount := CountRows(replicas, shards);
      }
    }

    /** The count that is not specified: at least 1, the explicit rows, and all the other direction asks for. */
    static method CountRows(rows: seq<Row>, across: seq<Row>) returns (n: int)
      ensures n == Max(|rows|, Widest(across))
    {
      n := 1;
      if |rows| > n {
        n := |rows|;
      }
      for i := 0 to |across|
        invariant n == Max(Max(1, |rows|), Widest(across[..i]))
      {
        if across[i].count > n {
          n := across[i].count;
        }
        if |across[i].hosts| > n {
          n := |across[i].hosts|;
        }
        assert across[..i + 1][..i] == across[..i];
      }
      assert across[..|across|] == across;
    }

    /** ensureClusterLayoutShards and ensureClusterLayoutReplicas: empty rows up to the count. */
    static method EnsureRows(rows: seq<Row>, count: int) returns (out: seq<Row>)
      ensures Extended(rows, out, count)
    {
      out := rows;
      while |out| < count
        invariant |rows| <= |out| <= Max(|rows|, count) && rows <= out
        invariant forall i :: |rows| <= i < |out| ==> out[i] == Row(0, [])
      {
        out := out + [Row(0, [])];
      }
    }

    /** The counts and the slices of rows, before any host is moved. */
    method NormalizeSizes()
      modifies `shardsCount, `replicasCount, `shards, `replicas
      ensures shardsCount == LayoutCount(old(shardsCount), old(shards), old(replicas))
      ensures replicasCount == LayoutCount(old(replicasCount), old(replicas), old(shards))
      ensures Extended(old(shards), shards, shardsCount) && Extended(old(replicas), replicas, replicasCount)
    {
      NormalizeCounts();
      shards := EnsureRows(shards, shardsCount);
      replicas := EnsureRows(replicas, replicasCount);
    }

    /** The grid that normalisation leaves. */
    ghost predicate Grid()
      reads this, if field == null then {} else {field.cells}
    {
      field != null && GridOf(field, shards, replicas) && shardsCount == |shards| && replicasCount == |replicas|
    }

    /** The layout steps of normalizeCluster, in terms of the rules for counts and for places. */
    method FoldAndRebuild(ghost pool: set<Host>) returns (panicked: bool)
      requires Unaliased(shards, replicas) && Pooled(pool, shards) && Pooled(pool, replicas)
      modifies this, pool
      ensures panicked == !(Covers(old(shardsCount), old(shards), old(replicas)) &&
                            Covers(old(replicasCount), old(replicas), old(shards)))
      ensures !panicked ==> Grid() && fresh(field) && fresh(field.cells)
      ensures !panicked ==> shardsCount == LayoutCount(old(shardsCount), old(shards), old(replicas))
      ensures !panicked ==> replicasCount == LayoutCount(old(replicasCount), old(replicas), old(shards))
      ensures !panicked ==> Counted(old(shards), shards, replicasCount) && Counted(old(replicas), replicas, shardsCount)
      // explicit hosts keep their coordinates; every other host of the grid is new
      ensures !panicked ==> forall s, r :: field.InRange(s, r) ==>
                Filled(Pick(old(shards), old(replicas), s, r), field.cells[s, r],
                       r < shards[s].count || s < replicas[r].count)
      ensures !panicked ==> MergedOnce(old(shards), old(replicas), pool)
    {
      NormalizeSizes();
      CoversIsExact(old(shardsCount), old(replicasCount), old(shards), old(replicas), shards, replicas);
      panicked, field, shards, replicas :=
        MakeGrid(shardsCount, replicasCount, shards, replicas, old(shards), old(replicas), pool);
    }

    /** The layout steps of normalizeCluster. Every index that Go would check is checked here, and the
        run panics exactly when an explicit count does not cover the lists and the counts across it. */
    method Normalize(ghost pool: set<Host>) returns (panicked: bool)
      requires Unaliased(shards, replicas) && Pooled(pool, shards) && Pooled(pool, replicas)
      modifies this, pool
      ensures panicked == !(Covers(old(shardsCount), old(shards), old(replicas)) &&
                            Covers(old(replicasCount), old(replicas), old(shards)))
      ensures !panicked ==> Grid() && fresh(field) && fresh(field.cells)
      ensures !panicked ==> shardsCount == LayoutCount(old(shardsCount), old(shards), old(replicas))
      ensures !panicked ==> replicasCount == LayoutCount(old(replicasCount), old(replicas), old(shards))
      ensures !panicked ==> Counted(old(shards), shards, replicasCount) && Counted(old(replicas), replicas, shardsCount)
      // explicit hosts keep their coordinates; every other host of the grid is new
      ensures !panicked ==> forall s, r :: field.InRange(s, r) ==>
                Filled(Pick(old(shards), old(replicas), s, r), field.cells[s, r],
                       r < shards[s].count || s < replicas[r].count)
      ensures !panicked ==> MergedOnce(old(shards), old(replicas), pool)
      // the counts by cases
      ensures !panicked ==> |shards| == shardsCount && |replicas| == replicasCount
      ensures !panicked && old(shardsCount) != 0 ==> shardsCount == old(shardsCount)
      ensures !panicked && old(replicasCount) != 0 ==> replicasCount == old(replicasCount)
      ensures !panicked && old(shardsCount) == 0 ==> LeastToCover(shardsCount, old(shards), old(replicas))
      ensures !panicked && old(replicasCount) == 0 ==> LeastToCover(replicasCount, old(replicas), old(shards))
      ensures !panicked ==> SizedByCase(old(shards), shards, replicasCount)
      ensures !panicked ==> SizedByCase(old(replicas), replicas, shardsCount)
      // the hosts by cases; and a plain layout is a full grid
      ensures !panicked ==> PlacedByCase(old(shards), old(replicas), shards, replicas)
      ensures !panicked && old(shards) == [] && old(replicas) == [] ==> FullGrid(shards, replicas)
    {
      panicked := FoldAndRebuild(pool);
      if !panicked {
        LayoutCountByCase(old(shardsCount), old(shards), old(replicas));
        LayoutCountByCase(old(replicasCount), old(replicas), old(shards));
        CountsByCase(old(shards), shards, replicasCount);
        CountsByCase(old(replicas), replicas, shardsCount);
        HostsByCase(field, old(shards), old(replicas), shards, replicas);
      }
    }
  }

  /** The merged value is the destination's own if it has one, else the source's. */
  predicate Prefers<T(==)>(merged: T, dst: T, src: T, absent: T) {
    merged == (if dst != absent then dst else src)
  }

  /** The template names of a host that has none. */
  function NamesOf(t: Option<TemplateNames>): TemplateNames {
    if t.None? then NO_TEMPLATES else t.value
  }

  /** A value the destination has is kept and one it lacks is taken, port by port and name by name; the name of
      the data volume claim then falls back to the deprecated one. */
  lemma {:induction false} MergePrefersDestination(dst: Attrs, src: Attrs)
    ensures var m := Merge(dst, src);
            && Prefers(m.port, dst.port, src.port, 0) && Prefers(m.tcp, dst.tcp, src.tcp, 0)
            && Prefers(m.http, dst.http, src.http, 0) && Prefers(m.interserver, dst.interserver, src.interserver, 0)
    ensures Merge(dst, src).templates.None? <==> dst.templates.None? && src.templates.None?
    ensures var m, d, s := NamesOf(Merge(dst, src).templates), NamesOf(dst.templates), NamesOf(src.templates);
            && Prefers(m.host, d.host, s.host, "") && Prefers(m.pod, d.pod, s.pod, "")
            && Prefers(m.logVolumeClaim, d.logVolumeClaim, s.logVolumeClaim, "")
            && Prefers(m.volumeClaim, d.volumeClaim, s.volumeClaim, "") && Prefers(m.service, d.service, s.service, "")
            && Prefers(m.clusterService, d.clusterService, s.clusterService, "")
            && Prefers(m.shardService, d.shardService, s.shardService, "")
            && Prefers(m.replicaService, d.replicaService, s.replicaService, "")
            && (d.dataVolumeClaim != "" || s.dataVolumeClaim != "" ==>
                  Prefers(m.dataVolumeClaim, d.dataVolumeClaim, s.dataVolumeClaim, ""))
            && (d.dataVolumeClaim == "" && s.dataVolumeClaim == "" ==> m.dataVolumeClaim == m.volumeClaim)
  {
  }

  /** Merging the same source again, or a host into itself, changes no port. */
  lemma {:induction false} MergingTwice(dst: Attrs, src: Attrs)
    ensures Merge(Merge(dst, src), src) == Merge(dst, src)
    ensures Merge(dst, dst) == dst.(templates := HandleDeprecated(dst.templates))
  {
    assert forall s: string :: FillString(s, s) == s;
  }

  /** The hosts of a grid, listed in both directions, are unaliased input for another normalisation. */
  lemma {:induction false} GridIsInput(field: HostsField, shards: seq<Row>, replicas: seq<Row>)
    requires GridOf(field, shards, replicas)
    ensures Unaliased(shards, replicas)
    ensures forall s, r :: At(shards, s, r) != null ==> field.InRange(s, r) && At(shards, s, r) == field.cells[s, r]
    ensures forall s, r :: At(replicas, r, s) != null ==> field.InRange(s, r) && At(replicas, r, s) == field.cells[s, r]
    ensures Covers(|shards|, shards, replicas) && Covers(|replicas|, replicas, shards)
  {
  }

  /** Normalising a normalised layout leaves every list with the same objects, and every port as it is. */
  method NormalizeAgain(c: Cluster, ghost pool: set<Host>) returns (panicked: bool)
    requires c.Grid() && Pooled(pool, c.shards) && Pooled(pool, c.replicas)
    modifies c, pool
    ensures !panicked
    ensures c.shards == old(c.shards) && c.replicas == old(c.replicas)
    ensures c.shardsCount == old(c.shardsCount) && c.replicasCount == old(c.replicasCount)
    ensures forall h :: h in pool ==>
              || h.attrs == old(h.attrs)
              || h.attrs == old(h.attrs).(templates := HandleDeprecated(old(h.attrs).templates))
  {
    GridIsInput(c.field, c.shards, c.replicas);
    ghost var shards, replicas := c.shards, c.replicas;
    panicked := c.Normalize(pool);
    assert |c.shards| == |shards| && |c.replicas| == |replicas|;
    forall s | 0 <= s < |shards|
      ensures c.shards[s] == shards[s]
    {
      assert forall r :: 0 <= r < |shards[s].hosts| ==> c.shards[s].hosts[r] == At(shards, s, r);
      assert c.shards[s].hosts == shards[s].hosts;
    }
    forall r | 0 <= r < |replicas|
      ensures c.replicas[r] == replicas[r]
    {
      assert forall s :: 0 <= s < |replicas[r].hosts| ==> c.replicas[r].hosts[s] == At(replicas, r, s);
      assert c.replicas[r].hosts == replicas[r].hosts;
    }
    forall h | h in pool
      ensures h.attrs == old(h.attrs) || h.attrs == old(h.attrs).(templates := HandleDeprecated(old(h.attrs).templates))
    {
      MergingTwice(old(h.attrs), old(h.attrs));
    }
  }
}
