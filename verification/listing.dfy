/** The hosts that a reconcile run publishes, and the text by which it publishes them. */
module Listing {
  import Reconcile
  import RemoteServers
  import RunLog
  import opened Wrappers

  /** The hosts of the text are those of the run: the same places, and `add` as the only attribute that the
      options of a run ever exclude. */
  ghost predicate Mirrors(w: Reconcile.Worker, hosts: seq<RemoteServers.Host>)
    reads w.hosts
  {
    && |hosts| == |w.hosts|
    && forall i :: 0 <= i < |hosts| ==> hosts[i].id == w.hosts[i].id == i && hosts[i].attributes.add == w.hosts[i].add
  }

  /** The options of the generator for those of a run. */
  function OptionsOf(opt: Reconcile.Options, hosts: seq<RemoteServers.Host>): RemoteServers.Options
    requires forall h :: h in opt.excludeHosts ==> h.id < |hosts|
  {
    RemoteServers.Options(
      if opt.excludeAdd then Some(RemoteServers.Attributes(true, false, false, false))
      else None,
      seq(|opt.excludeHosts|, i requires 0 <= i < |opt.excludeHosts| =>
        assert opt.excludeHosts[i] in opt.excludeHosts;
        hosts[opt.excludeHosts[i].id]))
  }

  lemma {:induction false} IncludeAlike(
    w: Reconcile.Worker, hosts: seq<RemoteServers.Host>, opt: Reconcile.Options, i: nat)
    requires Mirrors(w, hosts) && i < |hosts|
    requires forall h :: h in opt.excludeHosts ==> h in w.hosts
    ensures (forall h :: h in opt.excludeHosts ==> h.id < |hosts|) &&
            (RemoteServers.Include(Some(OptionsOf(opt, hosts)), hosts[i]) <==>
             Reconcile.Worker.Include(opt, w.hosts[i]))
  {
    var options := OptionsOf(opt, hosts);
    if w.hosts[i] in opt.excludeHosts {
      var k :| 0 <= k < |opt.excludeHosts| && opt.excludeHosts[k] == w.hosts[i];
      assert options.hosts[k] == hosts[i];
    }
    if hosts[i] in options.hosts {
      var k :| 0 <= k < |options.hosts| && options.hosts[k] == hosts[i];
      assert opt.excludeHosts[k] in w.hosts;
      assert opt.excludeHosts[k].id == i;
    }
  }

  /** Of the first n hosts, those with these numbers, as the text lists them. */
  function Numbered(hosts: seq<RemoteServers.Host>, n: nat, numbers: set<nat>): seq<RemoteServers.Replica>
    requires n <= |hosts|
  {
    if n == 0 then []
    else
      var before := Numbered(hosts, n - 1, numbers);
      if n - 1 in numbers then before + [RemoteServers.Replica(hosts[n - 1].name, hosts[n - 1].port)] else before
  }

  lemma {:induction false} ListedUpTo(
    w: Reconcile.Worker, hosts: seq<RemoteServers.Host>, opt: Reconcile.Options, n: nat)
    requires |w.hosts| == w.conf.hosts && Mirrors(w, hosts) && n <= |hosts|
    requires forall h :: h in opt.excludeHosts ==> h in w.hosts
    ensures (forall h :: h in opt.excludeHosts ==> h.id < |hosts|) &&
            RemoteServers.Listed(hosts[..n], Some(OptionsOf(opt, hosts))) ==
            Numbered(hosts, n, w.Listed(opt))
  {
    IncludeAlikeAll(w, hosts, opt);
    if n > 0 {
      ListedUpTo(w, hosts, opt, n - 1);
      assert hosts[..n][..n - 1] == hosts[..n - 1];
    }
  }

  lemma {:induction false} IncludeAlikeAll(w: Reconcile.Worker, hosts: seq<RemoteServers.Host>, opt: Reconcile.Options)
    requires Mirrors(w, hosts)
    requires forall h :: h in opt.excludeHosts ==> h in w.hosts
    ensures forall h :: h in opt.excludeHosts ==> h.id < |hosts|
    ensures forall i :: 0 <= i < |hosts| ==>
              (RemoteServers.Include(Some(OptionsOf(opt, hosts)), hosts[i]) <==>
               Reconcile.Worker.Include(opt, w.hosts[i]))
  {
    forall i | 0 <= i < |hosts| {
      IncludeAlike(w, hosts, opt, i);
    }
  }

  /** The text that is generated for a publication lists the published hosts, in walk order and no others: in the
      clusters of the user together, and in each generated cluster. */
  lemma {:induction false} TextListsThePublished(
    w: Reconcile.Worker, clusters: seq<RemoteServers.Cluster>, opt: Reconcile.Options)
    requires |w.hosts| == w.conf.hosts && Mirrors(w, RemoteServers.HostsOfChi(clusters))
    requires forall h :: h in opt.excludeHosts ==> h in w.hosts
    ensures var hosts := RemoteServers.HostsOfChi(clusters);
            (forall h :: h in opt.excludeHosts ==> h.id < |hosts|) &&
            var options := Some(OptionsOf(opt, hosts));
            var published := Numbered(hosts, |hosts|, w.Listed(opt));
            && RemoteServers.ReplicasOfAll(RemoteServers.UserClusters(clusters, options)) == published
            && forall i :: 0 <= i < |RemoteServers.AutoClusters(clusters, options)| ==>
                 RemoteServers.ReplicasOf(RemoteServers.AutoClusters(clusters, options)[i].shards) == published
  {
    var hosts := RemoteServers.HostsOfChi(clusters);
    ListedUpTo(w, hosts, opt, |hosts|);
    assert hosts[..|hosts|] == hosts;
    RemoteServers.EveryClusterListsTheIncluded(clusters, Some(OptionsOf(opt, hosts)));
  }

  /** The last publication of a run is generated without options. Its text lists every host, which are the hosts that
      the run publishes by it. */
  lemma {:induction false} FinalTextListsAll(w: Reconcile.Worker, clusters: seq<RemoteServers.Cluster>)
    requires |w.hosts| == w.conf.hosts && Mirrors(w, RemoteServers.HostsOfChi(clusters))
    ensures var hosts := RemoteServers.HostsOfChi(clusters);
            var published := Numbered(hosts, |hosts|, w.Listed(Reconcile.Options(false, [])));
            && published == RemoteServers.Everyone(hosts)
            && RemoteServers.ReplicasOfAll(
                 RemoteServers.UserClusters(clusters, RemoteServers.Effective(None))) == published
  {
    var hosts := RemoteServers.HostsOfChi(clusters);
    RemoteServers.WhoIsListed(clusters, None);
    forall i: nat | i < |hosts|
      ensures i in w.Listed(Reconcile.Options(false, []))
    {
      assert i in RunLog.FirstHosts(|w.hosts|) && Reconcile.Worker.Include(Reconcile.Options(false, []), w.hosts[i]);
    }
    NumberedAll(hosts, |hosts|, w.Listed(Reconcile.Options(false, [])));
  }

  lemma {:induction false} NumberedAll(hosts: seq<RemoteServers.Host>, n: nat, numbers: set<nat>)
    requires n <= |hosts| && forall i: nat :: i < |hosts| ==> i in numbers
    ensures Numbered(hosts, n, numbers) == RemoteServers.Everyone(hosts[..n])
    ensures n == |hosts| ==> Numbered(hosts, n, numbers) == RemoteServers.Everyone(hosts)
  {
    if n > 0 {
      NumberedAll(hosts, n - 1, numbers);
    }
    assert n == |hosts| ==> hosts[..n] == hosts;
  }
}
