/** One reconcile run of the worker (pkg/controller/chi/worker.go), against an API server whose every
    call may fail and a context that may be cancelled before any check. */
module Reconcile {
  import opened Registries
  import opened RunLog
  import opened Wrappers

  /** What a Go error can mean to the callers modelled here. Crash is a nil dereference. */
  datatype Err = Nil | NotFound | Failure | Crash

  datatype Got = Found | Absent | Broken

  /** A write is applied, or not; Lost was applied although its response is an error. */
  datatype Written = Applied | Lost | Missing | Rejected

  datatype Cleanup = Retain | Delete

  /** The cleanup policies of one group of objects, after normalisation. */
  datatype Policy = Policy(statefulSet: Cleanup, pvc: Cleanup, configMap: Cleanup, service: Cleanup)

  datatype WaitPolicy = Wait | NoWait | Unspecified

  const RECLAIM_POLICY_LABEL := "clickhouse.radondb.com/reclaimPolicy"

  class Host {
    const id: nat               // position in walk order
    const statefulSet: Meta
    const configMap: Meta       // the personal ConfigMap
    const service: Option<Meta>
    const claims: seq<Meta>     // the PVCs of the mounts that reference a VolumeClaimTemplate
    const alone: bool           // host.GetShard().HostsCount() == 1
    var add: bool
    var status: Status

    constructor (
      id: nat, statefulSet: Meta, configMap: Meta, service: Option<Meta>, claims: seq<Meta>, alone: bool, add: bool)
      ensures this.id == id && this.statefulSet == statefulSet && this.configMap == configMap
      ensures this.service == service && this.claims == claims && this.alone == alone && this.add == add
    {
      this.id, this.statefulSet, this.configMap, this.service := id, statefulSet, configMap, service;
      this.claims, this.alone, this.add, this.status := claims, alone, add, Unknown;
    }
  }

  datatype Shard = Shard(service: Option<Meta>, hosts: seq<Host>)

  datatype Cluster = Cluster(service: Option<Meta>, shards: seq<Shard>)

  datatype Chi = Chi(
    clusters: seq<Cluster>,
    service: Option<Meta>,
    commonConfigMap: Meta,
    usersConfigMap: Meta,
    stopped: bool,
    rolling: bool,
    waitPolicy: WaitPolicy,
    waitExcludeByDefault: bool,  // the operator's own setting, used when the policy says nothing
    unknown: Policy,
    failed: Policy)

  /** RemoteServersGeneratorOptions; nil options exclude nothing. */
  datatype Options = Options(excludeAdd: bool, excludeHosts: seq<Host>)

  ghost function HostsOfShards(shards: seq<Shard>): seq<Host> {
    if shards == [] then [] else HostsOfShards(shards[..|shards| - 1]) + shards[|shards| - 1].hosts
  }

  ghost function HostsOf(clusters: seq<Cluster>): seq<Host> {
    if clusters == [] then []
    else HostsOf(clusters[..|clusters| - 1]) + HostsOfShards(clusters[|clusters| - 1].shards)
  }

  function CleanupOf(p: Policy, et: EntityType): Cleanup {
    match et
    case StatefulSet => p.statefulSet
    case PVC => p.pvc
    case ConfigMap => p.configMap
    case Service => p.service
    case PV => Retain
  }

  /** GetReclaimPolicy: only a label that says Retain keeps the claim. */
  predicate ReclaimRetain(m: Meta) {
    RECLAIM_POLICY_LABEL in m.labels && m.labels[RECLAIM_POLICY_LABEL] == "Retain"
  }

  /** shouldWaitExcludeHost */
  predicate ShouldWaitExcludeHost(chi: Chi) {
    match chi.waitPolicy
    case Wait => true
    case NoWait => false
    case Unspecified => chi.waitExcludeByDefault
  }

  /** The rule by which purge deletes an object that is discovered but not reconciled. */
  ghost predicate MayPurge(chi: Chi, failed: set<(EntityType, Key)>, et: EntityType, m: Meta) {
    && et != PV
    && CleanupOf(if (et, m.key) in failed then chi.failed else chi.unknown, et) == Delete
    && (et == PVC ==> !ReclaimRetain(m))
  }

  /** What a run has achieved so far; it only grows. */
  datatype Facts = Facts(
    ready: set<nat>, joined: set<nat>,
    reconciled: set<(EntityType, Key)>, failed: set<(EntityType, Key)>,
    asked: set<Key>)
  {
    ghost predicate Within(later: Facts) {
      && ready <= later.ready && joined <= later.joined
      && reconciled <= later.reconciled && failed <= later.failed && asked <= later.asked
    }

    /** What a host has once its reconcile returned nil with a live context. */
    ghost predicate Host(host: Host) {
      && host.id in ready && host.id in joined
      && (StatefulSet, host.statefulSet.key) in reconciled
      && (ConfigMap, host.configMap.key) in reconciled
      && (host.service.Some? ==> (Service, host.service.value.key) in reconciled + failed)
      && (forall m :: m in host.claims ==> m.key in asked)
    }

    ghost predicate Hosts(some: seq<Host>) {
      forall h :: h in some ==> Host(h)
    }

    ghost predicate Served(service: Option<Meta>) {
      service.Some? ==> (Service, service.value.key) in reconciled
    }

    ghost predicate Shards(shards: seq<Shard>) {
      Hosts(HostsOfShards(shards)) && forall s :: s in shards ==> Served(s.service)
    }

    ghost predicate Clusters(clusters: seq<Cluster>) {
      && Hosts(HostsOf(clusters))
      && forall c :: c in clusters ==> Served(c.service) && Shards(c.shards)
    }
  }

  lemma {:induction false} FactsStay(
    f: Facts, later: Facts, hosts: seq<Host>, shards: seq<Shard>, clusters: seq<Cluster>)
    requires f.Within(later)
    ensures f.Hosts(hosts) ==> later.Hosts(hosts)
    ensures f.Shards(shards) ==> later.Shards(shards)
    ensures f.Clusters(clusters) ==> later.Clusters(clusters)
  {
  }

  lemma {:induction false} NextShard(f: Facts, later: Facts, shards: seq<Shard>, i: nat)
    requires f.Within(later) && i < |shards|
    requires later.Hosts(shards[i].hosts) && later.Served(shards[i].service)
    ensures f.Shards(shards[..i]) ==> later.Shards(shards[..i + 1])
  {
    FactsStay(f, later, [], shards[..i], []);
    HostsOfShardsAt(shards, i);
    assert shards[..i + 1] == shards[..i] + [shards[i]];
  }

  lemma {:induction false} NextCluster(f: Facts, later: Facts, clusters: seq<Cluster>, i: nat)
    requires f.Within(later) && i < |clusters|
    requires later.Shards(clusters[i].shards) && later.Served(clusters[i].service)
    ensures f.Clusters(clusters[..i]) ==> later.Clusters(clusters[..i + 1])
  {
    FactsStay(f, later, [], [], clusters[..i]);
    HostsOfAt(clusters, i);
    assert clusters[..i + 1] == clusters[..i] + [clusters[i]];
  }

  // ---- The walk over the claims of a host ----------------------------------------------------------

  /** What becomes of a claim on the walk of reconcilePVCs. */
  datatype Visit =
    | Skipped                // the context was done
    | NotFetched             // its Get failed
    | Dereferenced           // it was found, and the context was done before its update
    | Updated(outcome: Err)

  /** The walks over n claims: a done context skips all that is left, and a nil dereference ends the walk. The
      check at the very start may end it before any claim. */
  ghost predicate WalkOfClaims(visits: seq<Visit>, n: nat, doneAtStart: bool, err: Err) {
    && |visits| <= n
    && (doneAtStart ==> forall i :: 0 <= i < |visits| ==> visits[i] == Skipped)
    && (forall i, j :: 0 <= i < j < |visits| && visits[i] == Skipped ==> visits[j] == Skipped)
    && (forall i :: 0 <= i < |visits| - 1 ==> visits[i] != Dereferenced)
    && err == (if visits != [] && visits[|visits| - 1] == Dereferenced then Crash else Nil)
    && (err == Nil ==> |visits| == n || visits == [])
  }

  /** The walk can crash exactly if the context is live at its start and there is a claim. */
  lemma {:induction false} WalkMayCrash(n: nat, doneAtStart: bool)
    ensures (exists visits :: WalkOfClaims(visits, n, doneAtStart, Crash)) <==> !doneAtStart && n > 0
  {
    if !doneAtStart && n > 0 {
      assert WalkOfClaims([Dereferenced], n, doneAtStart, Crash);
    }
  }

  /** It does crash exactly if some claim is found and the context is done before its update. */
  lemma {:induction false} WalkCrashesAtLastVisit(visits: seq<Visit>, n: nat, doneAtStart: bool, err: Err)
    requires WalkOfClaims(visits, n, doneAtStart, err)
    ensures err == Crash <==> Dereferenced in visits
  {
    if Dereferenced in visits {
      var i :| 0 <= i < |visits| && visits[i] == Dereferenced;
      assert i == |visits| - 1;
    }
  }

  /** The second of three claims is found just before the context is done. */
  lemma {:induction false} CrashAtSecondClaim()
    ensures WalkOfClaims([Updated(Nil), Dereferenced], 3, false, Crash)
  {
  }

  /** The context of the run: once done, always done. */
  class Context {
    var done: bool

    constructor () {
      done := *;
    }

    twostate predicate Later()
      reads this
    {
      old(done) ==> done
    }

    /** util.IsContextDone: the context may become done before any check, never the reverse. */
    method IsDone() returns (b: bool)
      modifies this
      ensures Later() && b == done
    {
      if !done {
        done := *;
      }
      b := done;
    }
  }

  /** How reconcileStatefulSet succeeds; `tried` is the log after what failed before. */
  datatype Way = Unchanged | UpdatedInPlace | Recreated(tried: seq<Event>) | Created(tried: seq<Event>)

  function WhenFinal(h: nat, final: bool): seq<Event> {
    if final then [Event.Ready(h)] else []
  }

  /** The log of the run, with what it amounts to. */
  class Journal {
    ghost const conf: Conf
    ghost var log: seq<Event>
    ghost var view: View

    /** Every moment of the log is safe. */
    ghost predicate Valid()
      reads this
    {
      Safe(conf, log) && view == Replay(conf, log) && Ok(conf, view)
    }

    ghost constructor (conf: Conf)
      ensures Valid() && this.conf == conf && log == [] && view == Start(conf)
    {
      this.conf, log, view := conf, [], Start(conf);
    }

    twostate predicate Grown()
      reads this
    {
      && old(log) <= log
      && old(view).joined <= view.joined && old(view).ready <= view.ready
    }

    /** Who is listed, who is a member and who is being reconciled is as before. */
    twostate predicate SameServing()
      reads this
    {
      && view == old(view).(ready := view.ready, torn := view.torn)
      && old(view).ready <= view.ready
    }

    ghost method Emit(e: Event)
      requires Valid() && Ok(conf, Step(conf, view, e))
      modifies this
      ensures Valid() && Grown() && log == old(log) + [e]
      ensures view == Step(conf, old(view), e)
    {
      SafeAppend(conf, log, e);
      log, view := log + [e], Step(conf, view, e);
    }

    /** May a request change the StatefulSet of this host now? */
    ghost predicate MayTouch(h: nat)
      reads this
    {
      h in view.leaving && view.published && !view.failed ==> h !in view.live
    }

    ghost method Touch(h: nat, request: Request)
      requires Valid() && MayTouch(h)
      modifies this
      ensures Valid() && Grown() && view == old(view) && log == old(log) + [Event.Touch(h, request)]
    {
      Emit(Event.Touch(h, request));
    }

    /** Only the stage that brings the StatefulSet up makes its host ready. */
    ghost method Ready(h: nat, final: bool)
      requires Valid()
      modifies this
      ensures Valid() && Grown() && SameServing()
      ensures if final then h in view.ready else view == old(view)
      ensures log == old(log) + WhenFinal(h, final)
    {
      if final {
        Emit(Event.Ready(h));
      }
    }
  }

  /** Some call of which only the error matters here. */
  method Call() returns (err: Err)
    ensures err != Crash
  {
    err := *;
    if err == Crash {
      err := Failure;
    }
  }

  method Get() returns (r: Got) {
    r := *;
  }

  class Worker {
    const chi: Chi
    const hosts: seq<Host>
    const ctx: Context
    const reconciled: Registry
    const failed: Registry
    ghost const conf: Conf
    ghost const journal: Journal
    ghost var asked: set<Key>                      // PVCs of the hosts a Get was issued for
    ghost var discovered: set<(EntityType, Meta)>  // what discovery listed
    ghost var purged: set<(EntityType, Meta)>      // what purge asked to delete

    /** Constant for the run. */
    ghost predicate Shape() {
      && hosts == HostsOf(chi.clusters)
      && |hosts| == conf.hosts
      && (forall i :: 0 <= i < |hosts| ==> hosts[i].id == i)
      && (forall h :: h in hosts ==> h.alone == (h.id in conf.alone))
      && conf.rolling == chi.rolling
      && conf.waitExclude == (chi.waitPolicy == Wait || (chi.waitPolicy == Unspecified && chi.waitExcludeByDefault))
      && journal.conf == conf
    }

    /** A host carries the `add` flag until its Joined event. */
    ghost predicate Flagged()
      reads journal, hosts
    {
      forall h :: h in hosts ==> h.add == (h.id in conf.added && h.id !in journal.view.joined)
    }

    /** Holds at every step of a run. */
    ghost predicate Valid()
      reads reconciled, failed, journal, hosts
    {
      && reconciled != failed
      && reconciled.Valid() && failed.Valid() && journal.Valid()
      && Flagged()
    }

    /** As long as the context is live, a host has joined only with its StatefulSet reconciled. */
    ghost predicate Honest()
      reads ctx, journal
    {
      !ctx.done ==> journal.view.joined <= journal.view.ready
    }

    /** Between two hosts: while publications succeed no member is missing. */
    ghost predicate Settled()
      reads ctx, journal
    {
      !ctx.done && !journal.view.failed ==>
        journal.view.published && Members(conf, journal.view) <= journal.view.live
    }

    twostate predicate Grown()
      reads this, ctx, reconciled, failed, journal
    {
      && ctx.Later() && journal.Grown()
      && old(reconciled.held) <= reconciled.held && old(failed.held) <= failed.held
      && old(asked) <= asked
      && purged == old(purged) && discovered == old(discovered)
    }

    /** updateCHI starts with fresh registries and with the hosts to add already flagged. */
    constructor (chi: Chi, hosts: seq<Host>, ghost conf: Conf)
      requires hosts == HostsOf(chi.clusters) && |hosts| == conf.hosts
      requires forall i :: 0 <= i < |hosts| ==> hosts[i].id == i
      requires forall h :: h in hosts ==> h.alone == (h.id in conf.alone) && h.add == (h.id in conf.added)
      requires conf.rolling == chi.rolling
      requires conf.waitExclude ==
               (chi.waitPolicy == Wait || (chi.waitPolicy == Unspecified && chi.waitExcludeByDefault))
      ensures Shape() && Valid() && Honest()
      ensures this.chi == chi && this.conf == conf && this.hosts == hosts
      ensures fresh(ctx) && fresh(reconciled) && fresh(failed) && fresh(journal)
      ensures journal.log == [] && reconciled.held == {} && failed.held == {}
      ensures asked == {} && purged == {} && discovered == {}
    {
      this.chi, this.hosts, this.conf := chi, hosts, conf;
      ctx := new Context();
      reconciled := new Registry();
      failed := new Registry();
      journal := new Journal(conf);
      asked, discovered, purged := {}, {}, {};
    }

    // ---- The common ConfigMap --------------------------------------------------------------------

    /** Include: the host is listed in remote_servers under these options. */
    static predicate Include(opt: Options, host: Host)
      reads host
    {
      !(opt.excludeAdd && host.add) && host !in opt.excludeHosts
    }

    ghost function Listed(opt: Options): set<nat>
      requires |hosts| == conf.hosts
      reads hosts
    {
      set i | i in FirstHosts(|hosts|) && Include(opt, hosts[i]) :: i
    }

    method RemoteServers(opt: Options) returns (servers: set<nat>)
      requires Shape()
      ensures servers == Listed(opt)
    {
      servers := {};
      for i := 0 to |hosts|
        invariant servers == set k | k in FirstHosts(i) && Include(opt, hosts[k])
      {
        if Include(opt, hosts[i]) {
          servers := servers + {hosts[i].id};
        }
      }
    }

    /** One Update or Create of the common ConfigMap. */
    method WriteCommon(servers: set<nat>) returns (err: Err)
      requires journal.Valid() && Ok(journal.conf, Step(journal.conf, journal.view, Publish(servers)))
      modifies journal
      ensures journal.Valid() && journal.Grown() && err != Crash
      ensures journal.view == old(journal.view) ||
              journal.view == Step(journal.conf, old(journal.view), Publish(servers))
      ensures err == Nil ==> journal.view == Step(journal.conf, old(journal.view), Publish(servers))
    {
      var written: Written := *;
      if written in {Applied, Lost} {
        journal.Emit(Publish(servers));
      }
      match written
      case Applied => return Nil;
      case Missing => return NotFound;
      case Lost | Rejected => return Failure;
    }

    /** reconcileConfigMap on the common ConfigMap: get, then update, then create when it is not there. */
    method ReconcileCommon(servers: set<nat>)
      returns (err: Err, ghost got: Option<Got>, ghost update: Option<Err>, ghost create: Option<Err>)
      requires journal.Valid() && Ok(journal.conf, Step(journal.conf, journal.view, Publish(servers)))
      modifies journal, ctx
      ensures journal.Valid() && journal.Grown() && ctx.Later() && err != Crash
      ensures journal.view == old(journal.view) ||
              journal.view == Step(journal.conf, old(journal.view), Publish(servers))
      ensures err == Nil && !ctx.done ==> journal.view == Step(journal.conf, old(journal.view), Publish(servers))
      // an update follows a found ConfigMap, and a create follows an absent one or an update that did not find it
      ensures update.Some? ==> got == Some(Found)
      ensures create.Some? ==> got == Some(Absent) || update == Some(NotFound)
      ensures !ctx.done ==> got.Some? && (got == Some(Found) ==> update.Some?)
      ensures !ctx.done && (got == Some(Absent) || update == Some(NotFound)) ==> create.Some?
      ensures !ctx.done ==> err == if create.Some? then create.value else if update.Some? then update.value else Failure
    {
      got, update, create := None, None, None;
      var stop := ctx.IsDone();
      if stop {
        return Nil, got, update, create;
      }
      var answer := Get();
      got := Some(answer);
      err := if answer == Absent then NotFound else if answer == Broken then Failure else Nil;
      if answer == Found {
        stop := ctx.IsDone();
        if stop {
          return Nil, got, update, create;
        }
        err := WriteCommon(servers);
        update := Some(err);
      }
      if err == NotFound {
        stop := ctx.IsDone();
        if stop {
          return Nil, got, update, create;
        }
        err := WriteCommon(servers);
        create := Some(err);
      }
    }

    /** What asking to publish this list does to the view v, given the error and the context after it. */
    ghost predicate Published(v: View, listed: set<nat>, err: Err)
      reads journal, ctx
    {
      var view := journal.view;
      && view == v.(live := view.live, published := view.published, failed := v.failed || err != Nil)
      && ((view.live == v.live && view.published == v.published) || (view.live == listed && view.published))
      && (err == Nil && !ctx.done ==> view.live == listed && view.published)
    }

    /** The same, with the error logged. */
    method PublishCommon(servers: set<nat>) returns (err: Err)
      requires journal.Valid() && Ok(journal.conf, Step(journal.conf, journal.view, Publish(servers)))
      modifies journal, ctx
      ensures journal.Valid() && journal.Grown() && ctx.Later() && err != Crash
      ensures Published(old(journal.view), servers, err)
    {
      ghost var got, update, create;
      err, got, update, create := ReconcileCommon(servers);
      if err != Nil {
        journal.Emit(PublishFailed);
      }
    }

    /** reconcileCHIConfigMapCommon: safety is the caller's duty, to be met whenever the context is live. */
    method ReconcileConfigMapCommon(opt: Options) returns (err: Err)
      requires Shape() && Valid()
      requires !ctx.done ==> Ok(conf, Step(conf, journal.view, Publish(Listed(opt))))
      modifies ctx, journal, reconciled, failed
      ensures Valid() && Grown() && err != Crash
      ensures Published(old(journal.view), old(Listed(opt)), err)
      ensures err == Nil && !ctx.done ==> (ConfigMap, chi.commonConfigMap.key) in reconciled.held
    {
      var stop := ctx.IsDone();
      if stop {
        return Nil;
      }
      var servers := RemoteServers(opt);
      err := PublishCommon(servers);
      RegisterOutcome(ConfigMap, chi.commonConfigMap, err);
    }

    // ---- Objects registered by the outcome of their reconcile ------------------------------------

    /** The common tail of the reconcile steps: the object goes into one of the two registries. */
    method RegisterOutcome(et: EntityType, m: Meta, err: Err)
      requires reconciled.Valid() && failed.Valid() && reconciled != failed
      modifies reconciled, failed
      ensures reconciled.Valid() && failed.Valid()
      ensures reconciled.held == old(reconciled.held) + if err == Nil then {(et, m.key)} else {}
      ensures failed.held == old(failed.held) + if err == Nil then {} else {(et, m.key)}
    {
      if err == Nil {
        reconciled.Register(et, m);
      } else {
        failed.Register(et, m);
      }
    }

    /** reconcileService and reconcileConfigMap of a ConfigMap without remote_servers: some calls, each
        skipped with nil once the context is done. */
    method ReconcileObject() returns (err: Err)
      modifies ctx
      ensures ctx.Later() && err != Crash
    {
      var stop := ctx.IsDone();
      if stop {
        return Nil;
      }
      var got := Get();
      err := if got == Absent then NotFound else if got == Broken then Failure else Nil;
      if got == Found {
        stop := ctx.IsDone();
        if stop {
          return Nil;
        }
        err := Call();
      }
      if err != Nil {
        stop := ctx.IsDone();
        if stop {
          return Nil;
        }
        err := Call();
      }
    }

    /** reconcileCluster, reconcileShard and reconcileHostService (a Service may be omitted), and
        reconcileCHIConfigMapUsers and reconcileHostConfigMap. */
    method ReconcileAndRegister(et: EntityType, m: Option<Meta>) returns (err: Err)
      requires reconciled.Valid() && failed.Valid() && reconciled != failed
      modifies ctx, reconciled, failed
      ensures reconciled.Valid() && failed.Valid() && ctx.Later() && err != Crash
      ensures old(reconciled.held) <= reconciled.held && old(failed.held) <= failed.held
      ensures m.Some? && !ctx.done && err == Nil ==> (et, m.value.key) in reconciled.held
      ensures err == Nil ==> failed.held == old(failed.held)
      ensures err != Nil ==> m.Some? && failed.held == old(failed.held) + {(et, m.value.key)}
    {
      var stop := ctx.IsDone();
      if stop || m.None? {
        return Nil;
      }
      err := ReconcileObject();
      RegisterOutcome(et, m.value, err);
    }

    // ---- Persistent volume claims ----------------------------------------------------------------

    /** The body of the walk over volume mounts, for a mount of a known template. */
    method ReconcileClaim(m: Meta) returns (err: Err, ghost visit: Visit)
      requires reconciled.Valid() && failed.Valid() && reconciled != failed
      modifies this, ctx, reconciled, failed
      ensures reconciled.Valid() && failed.Valid() && ctx.Later()
      ensures err == if visit == Dereferenced then Crash else Nil
      ensures old(ctx.done) ==> visit == Skipped
      ensures visit in {Skipped, Dereferenced} ==> ctx.done
      ensures reconciled.held == old(reconciled.held) + if visit == Updated(Nil) then {(PVC, m.key)} else {}
      ensures failed.held == old(failed.held) + if visit.Updated? && visit != Updated(Nil) then {(PVC, m.key)} else {}
      ensures old(asked) <= asked && (visit != Skipped ==> m.key in asked)
      ensures purged == old(purged) && discovered == old(discovered)
    {
      var stop := ctx.IsDone();
      if stop {
        return Nil, Skipped;
      }
      asked := asked + {m.key};
      var got := Get();
      if got != Found {
        return Nil, NotFetched;  // a claim that cannot be fetched enters neither registry
      }
      // reconcilePVC and updatePersistentVolumeClaim return a nil claim, whose metadata is then read
      stop := ctx.IsDone();
      if stop {
        return Crash, Dereferenced;
      }
      stop := ctx.IsDone();
      if stop {
        return Crash, Dereferenced;
      }
      var outcome := Call();
      RegisterOutcome(PVC, m, outcome);
      return Nil, Updated(outcome);
    }

    /** reconcilePVCs: which claims were visited, and what became of each. */
    method ReconcilePVCs(host: Host) returns (err: Err, ghost visits: seq<Visit>)
      requires reconciled.Valid() && failed.Valid() && reconciled != failed
      modifies this, ctx, reconciled, failed
      ensures reconciled.Valid() && failed.Valid() && ctx.Later()
      ensures WalkOfClaims(visits, |host.claims|, old(ctx.done), err)
      ensures err == Crash ==> ctx.done
      ensures old(ctx.done) || host.claims == [] ==> err == Nil
      ensures old(reconciled.held) <= reconciled.held && old(failed.held) <= failed.held
      ensures forall i :: 0 <= i < |visits| ==> VisitedAs(host.claims[i].key, visits[i])
      ensures old(asked) <= asked && (!ctx.done ==> forall m :: m in host.claims ==> m.key in asked)
      ensures purged == old(purged) && discovered == old(discovered)
    {
      visits := [];
      var stop := ctx.IsDone();
      if stop {
        return Nil, visits;
      }
      for i := 0 to |host.claims|
        invariant reconciled.Valid() && failed.Valid() && ctx.Later()
        invariant |visits| == i && WalkOfClaims(visits, i, old(ctx.done), Nil)
        invariant visits != [] && visits[i - 1] == Skipped ==> ctx.done
        invariant old(reconciled.held) <= reconciled.held && old(failed.held) <= failed.held
        invariant forall k :: 0 <= k < i ==> VisitedAs(host.claims[k].key, visits[k])
        invariant old(asked) <= asked && (!ctx.done ==> forall k :: 0 <= k < i ==> host.claims[k].key in asked)
        invariant purged == old(purged) && discovered == old(discovered)
      {
        ghost var visit;
        err, visit := ReconcileClaim(host.claims[i]);
        visits := visits + [visit];
        if err == Crash {
          return;
        }
      }
      return Nil, visits;
    }

    /** A visited claim is registered exactly by the outcome of its update, if it had one. */
    ghost predicate VisitedAs(key: Key, visit: Visit)
      reads this, reconciled, failed
    {
      && (visit != Skipped ==> key in asked)
      && (visit.Updated? ==> (PVC, key) in if visit.outcome == Nil then reconciled.held else failed.held)
    }

    // ---- The StatefulSet of a host ---------------------------------------------------------------

    /** A step on the StatefulSet of h: the journal is safe, nobody's listing changed, and nil from the final stage
        with a live context means that h is ready. */
    twostate predicate Stepped(h: nat, err: Err, final: bool)
      reads journal, ctx
    {
      && journal.Valid() && journal.Grown() && journal.SameServing() && ctx.Later()
      && (err == Nil && !ctx.done && final ==> h in journal.view.ready)
      && (!final ==> journal.view == old(journal.view))
      && (err != Nil ==> journal.view == old(journal.view))
      && (err == Crash ==> ctx.done)
    }

    /** Both createStatefulSet functions: create, then wait until ready. When the wait fails the host may
        be deleted, and the result is always an error. */
    method CreateStatefulSet(h: nat, ghost final: bool)
      returns (err: Err, ghost made: Option<Err>, ghost wait: Option<Err>)
      requires journal.Valid() && journal.MayTouch(h)
      modifies ctx, journal
      ensures Stepped(h, err, final) && err != Crash
      ensures !ctx.done ==> made.Some? && (made.value != Nil ==> err == made.value)
      ensures wait.Some? <==> made == Some(Nil)
      ensures wait.Some? ==> err == if wait.value == Nil then Nil else Failure
      ensures err == Nil && !ctx.done ==>
                journal.log == old(journal.log) + [Event.Touch(h, Create)] + WhenFinal(h, final)
    {
      made, wait := None, None;
      var stop := ctx.IsDone();
      if stop {
        return Nil, made, wait;
      }
      journal.Touch(h, Create);
      err := Call();
      made := Some(err);
      if err != Nil {
        return;
      }
      var waited := Call();
      wait := Some(waited);
      stop := ctx.IsDone();
      if waited != Nil {
        if !stop {
          journal.Touch(h, Undo);
        }
        return Failure, made, wait;  // errAbort, errStop or errIgnore
      }
      if !stop {
        journal.Ready(h, final);  // a poll cut short by cancellation reads as success too
      }
      return Nil, made, wait;
    }

    /** recreateStatefulSet: delete, reconcile the claims, create. */
    method RecreateStatefulSet(host: Host, ghost final: bool) returns (err: Err)
      requires reconciled.Valid() && failed.Valid() && reconciled != failed
      requires journal.Valid() && journal.MayTouch(host.id)
      modifies this, ctx, journal, reconciled, failed
      ensures reconciled.Valid() && failed.Valid()
      ensures Stepped(host.id, err, final) && Grown()
      ensures host.claims == [] ==> err != Crash
      ensures err == Nil && !ctx.done ==> Replaced(old(journal.log), host.id, final)
      ensures err == Nil && !ctx.done ==> forall m :: m in host.claims ==> m.key in asked
    {
      var stop := ctx.IsDone();
      if stop {
        return Nil;
      }
      stop := ctx.IsDone();
      if !stop {
        journal.Touch(host.id, Remove);  // deleteStatefulSet
      }
      ghost var visits;
      err, visits := ReconcilePVCs(host);
      if err == Nil {
        ghost var made, wait;
        err, made, wait := CreateStatefulSet(host.id, final);
      }
    }

    /** Since the log was `was`, the StatefulSet of h was deleted and created, and became ready. */
    ghost predicate Replaced(was: seq<Event>, h: nat, final: bool)
      reads journal
    {
      journal.log == was + [Event.Touch(h, Remove)] + [Event.Touch(h, Create)] + WhenFinal(h, final)
    }

    /** The Update of a StatefulSet that is ready, with the wait for the new generation. Returns whether
        updateStatefulSet is finished; when not, the StatefulSet is recreated. */
    method UpdateReadyStatefulSet(h: nat, ghost final: bool)
      returns (finished: bool, ghost update: Option<Err>, ghost changed: bool, ghost wait: Option<Err>)
      requires journal.Valid() && journal.MayTouch(h)
      modifies ctx, journal
      ensures Stepped(h, if finished then Nil else Failure, final)
      // only an update that changes the generation is waited for
      ensures !ctx.done ==> update.Some? && (wait.Some? <==> update == Some(Nil) && changed)
      ensures !ctx.done ==> (finished <==> update == Some(Nil) && (changed ==> wait == Some(Nil)))
      ensures finished && !ctx.done ==>
                journal.log == old(journal.log) + [Event.Touch(h, Update)] + WhenFinal(h, final)
    {
      update, changed, wait := None, false, None;
      var stop := ctx.IsDone();
      if stop {
        return true, update, changed, wait;
      }
      journal.Touch(h, Update);
      var updated := Call();
      update := Some(updated);
      if updated != Nil {
        return false, update, changed, wait;
      }
      var newGeneration: bool := *;
      changed := newGeneration;
      if !newGeneration {
        journal.Ready(h, final);
        return true, update, changed, wait;
      }
      var waited := Call();
      wait := Some(waited);
      stop := ctx.IsDone();
      if waited == Nil {
        if !stop {
          journal.Ready(h, final);
        }
        return true, update, changed, wait;
      }
      if !stop {
        journal.Touch(h, Undo);  // onStatefulSetUpdateFailed may roll back, and always returns an error
      }
      return false, update, changed, wait;
    }

    /** updateStatefulSet: waits for the ConfigMap to propagate, updates a ready StatefulSet, and
        recreates one that is not ready or cannot be updated. */
    method UpdateStatefulSet(host: Host, ghost final: bool)
      returns (err: Err, ghost ready: bool, ghost finished: bool, ghost tried: seq<Event>)
      requires reconciled.Valid() && failed.Valid() && reconciled != failed
      requires journal.Valid() && journal.MayTouch(host.id)
      modifies this, ctx, journal, reconciled, failed
      ensures reconciled.Valid() && failed.Valid()
      ensures Stepped(host.id, err, final) && Grown()
      ensures host.claims == [] ==> err != Crash
      ensures finished ==> ready && err == Nil
      ensures finished && !ctx.done ==>
                journal.log == old(journal.log) + [Event.Touch(host.id, Update)] + WhenFinal(host.id, final)
      ensures !finished && err == Nil && !ctx.done ==> tried <= journal.log && Replaced(tried, host.id, final)
      ensures !ready ==> tried == old(journal.log)
      ensures old(journal.log) <= tried
    {
      ready, finished, tried := false, false, journal.log;
      var stop := ctx.IsDone();
      if stop {
        return Nil, ready, finished, tried;
      }
      stop := ctx.IsDone();
      if stop {
        return Nil, ready, finished, tried;
      }
      var isReady: bool := *;
      ready := isReady;
      if isReady {
        ghost var update, changed, wait;
        var done;
        done, update, changed, wait := UpdateReadyStatefulSet(host.id, final);
        finished, tried := done, journal.log;
        if done {
          return Nil, ready, finished, tried;
        }
      }
      err := RecreateStatefulSet(host, final);
    }

    /** reconcileStatefulSet: nothing to do when it is the same; else update or create. */
    method ReconcileStatefulSet(host: Host, ghost final: bool) returns (err: Err, ghost way: Way)
      requires reconciled.Valid() && failed.Valid() && reconciled != failed
      requires journal.Valid() && (!ctx.done ==> journal.MayTouch(host.id))
      modifies this, ctx, journal, reconciled, failed
      ensures reconciled.Valid() && failed.Valid()
      ensures Stepped(host.id, err, final) && Grown()
      ensures host.claims == [] ==> err != Crash
      ensures err == Nil && !ctx.done ==> Arrived(old(journal.log), way, host.id, final)
      ensures !ctx.done ==> (way == Unchanged <==> host.status == Same)
    {
      way := Unchanged;
      var stop := ctx.IsDone();
      if stop {
        return Nil, way;
      }
      if host.status == Same {
        journal.Ready(host.id, final);
        return Nil, way;
      }
      var got := Get();
      err := if got == Absent then NotFound else if got == Broken then Failure else Nil;
      way := Created(journal.log);
      if got == Found {
        ghost var ready, finished, tried;
        err, ready, finished, tried := UpdateStatefulSet(host, final);
        way := if finished then UpdatedInPlace else if err == NotFound then Created(journal.log) else Recreated(tried);
      }
      if err == NotFound {
        ghost var made, wait;
        err, made, wait := CreateStatefulSet(host.id, final);
      }
    }

    /** Since the log was `was`, this is how the StatefulSet of h came to be as desired. */
    ghost predicate Arrived(was: seq<Event>, way: Way, h: nat, final: bool)
      reads journal
    {
      match way
      case Unchanged => journal.log == was + WhenFinal(h, final)
      case UpdatedInPlace => journal.log == was + [Event.Touch(h, Update)] + WhenFinal(h, final)
      case Recreated(tried) => was <= tried && Replaced(tried, h, final)
      case Created(tried) => was <= tried && journal.log == tried + [Event.Touch(h, Create)] + WhenFinal(h, final)
    }

    /** prepareHostStatefulSetWithStatus: the status is whatever the API server shows now. */
    method PrepareStatefulSet(host: Host)
      modifies ctx, host`status
      ensures ctx.Later()
    {
      var stop := ctx.IsDone();
      if stop {
        return;
      }
      host.status := *;
    }

    /** The first stage of a rolling update: shut the host down, which does not make it ready. Its error is
        dropped. */
    method ShutDownForRollingUpdate(host: Host) returns (err: Err)
      requires Valid() && (!ctx.done ==> journal.MayTouch(host.id))
      modifies this, ctx, journal, reconciled, failed, host`status
      ensures Valid() && Grown() && journal.view == old(journal.view)
      ensures err in {Nil, Crash} && (err == Crash ==> ctx.done && host.claims != [])
    {
      PrepareStatefulSet(host);
      ghost var way;
      err, way := ReconcileStatefulSet(host, false);
      if err != Crash {
        err := Nil;
      }
    }

    /** The stage that brings the StatefulSet to its desired configuration. */
    method BringUp(host: Host) returns (err: Err)
      requires Valid() && (!ctx.done ==> journal.MayTouch(host.id))
      modifies this, ctx, journal, reconciled, failed, host`status
      ensures Valid() && Grown() && Stepped(host.id, err, true)
      ensures host.claims == [] ==> err != Crash
      ensures err == Nil ==> (StatefulSet, host.statefulSet.key) in reconciled.held
      ensures err !in {Nil, Crash} ==> (StatefulSet, host.statefulSet.key) in failed.held
    {
      PrepareStatefulSet(host);
      ghost var way;
      err, way := ReconcileStatefulSet(host, true);
      if err != Crash {
        RegisterOutcome(StatefulSet, host.statefulSet, err);
      }
    }

    /** reconcileHostStatefulSet */
    method ReconcileHostStatefulSet(host: Host) returns (err: Err)
      requires Valid() && (!ctx.done ==> journal.MayTouch(host.id))
      modifies this, ctx, journal, reconciled, failed, host`status
      ensures Valid() && Grown() && Stepped(host.id, err, true)
      ensures host.claims == [] ==> err != Crash
      ensures err == Nil && !ctx.done ==> (StatefulSet, host.statefulSet.key) in reconciled.held
      ensures err !in {Nil, Crash} ==> (StatefulSet, host.statefulSet.key) in failed.held
    {
      var stop := ctx.IsDone();
      if stop {
        return Nil;
      }
      if chi.rolling {
        err := ShutDownForRollingUpdate(host);
        if err == Crash {
          return;
        }
      }
      err := BringUp(host);
    }

    // ---- One host --------------------------------------------------------------------------------

    lemma {:induction false} ListedAreMembers()
      requires Shape() && Valid()
      ensures Listed(Options(true, [])) == Members(conf, journal.view)
    {
    }

    lemma {:induction false} ListedWithout(host: Host)
      requires Shape() && Valid() && host in hosts
      ensures Listed(Options(true, [host])) == Members(conf, journal.view) - {host.id}
    {
    }

    /** shouldExcludeHost */
    predicate ShouldExcludeHost(host: Host)
      reads host
    {
      if chi.rolling then true
      else if host.status == New then false
      else if host.status == Same then false
      else if host.alone then false
      else true
    }

    /** excludeHost: errors of the publication and of the waits are dropped. */
    method ExcludeHost(host: Host)
      requires Shape() && Valid() && Honest() && host in hosts
      requires host.id in journal.view.leaving <==> MustLeave(conf, host.id, host.status)
      requires journal.view.current == Some(host.id)
      modifies ctx, journal, reconciled, failed
      ensures Valid() && Grown() && Honest()
      ensures var v := journal.view;
              v == old(journal.view).(live := v.live, published := v.published, failed := v.failed)
      ensures !ctx.done ==> journal.MayTouch(host.id)
      // published, if anything, is every host that the options include, and that is all members but this one
      ensures !(ShouldExcludeHost(host) && ShouldWaitExcludeHost(chi)) ==> journal.view == old(journal.view)
      ensures journal.view.live in {old(journal.view.live), old(Listed(Options(true, [host])))}
      ensures ShouldExcludeHost(host) && ShouldWaitExcludeHost(chi) && !ctx.done && !journal.view.failed ==>
                journal.view.live == old(Listed(Options(true, [host])))
      // a host that is to be changed is taken out when exclusion is waited for
      ensures (chi.waitPolicy == Wait || (chi.waitPolicy == Unspecified && chi.waitExcludeByDefault)) &&
              (chi.rolling || (host.status in {Modified, Unknown} && !host.alone)) &&
              !ctx.done && !journal.view.failed ==>
                host.id !in journal.view.live && journal.view.published
      // and nothing is published when it is not, or for a host that is new, the same, or alone in its shard
      ensures chi.waitPolicy == NoWait || (chi.waitPolicy == Unspecified && !chi.waitExcludeByDefault) ==>
                journal.view == old(journal.view)
      ensures !chi.rolling && (host.status in {New, Same} || host.alone) ==> journal.view == old(journal.view)
    {
      var stop := ctx.IsDone();
      if stop {
        return;
      }
      if ShouldExcludeHost(host) {
        stop := ctx.IsDone();
        if !stop && ShouldWaitExcludeHost(chi) {
          ListedWithout(host);
          var _ := ReconcileConfigMapCommon(Options(true, [host]));
        }
      }
    }

    /** includeHost: publishes every host that is not flagged `add`, always. */
    method IncludeHost(host: Host)
      requires Shape() && Valid() && Honest() && host in hosts
      modifies ctx, journal, reconciled, failed
      ensures Valid() && Grown() && Honest() && Settled()
      ensures var v := journal.view;
              v == old(journal.view).(live := v.live, published := v.published, failed := v.failed)
    {
      var stop := ctx.IsDone();
      if stop {
        return;
      }
      stop := ctx.IsDone();
      if !stop {
        ListedAreMembers();
        var _ := ReconcileConfigMapCommon(Options(true, []));
      }
    }

    /** ReconcileAttributes.UnsetAdd, which runs even when the context is done by now. */
    method UnsetAdd(host: Host)
      requires Shape() && Valid() && Honest() && host in hosts
      requires journal.view.current == Some(host.id)
      requires !ctx.done ==> host.id in journal.view.ready
      modifies journal, host`add
      ensures Valid() && Honest() && journal.Grown()
      ensures journal.view == old(journal.view).(joined := old(journal.view).joined + {host.id})
    {
      host.add := false;
      journal.Emit(Joined(host.id));
    }

    ghost function Achieved(): Facts
      reads this, journal, reconciled, failed
    {
      Facts(journal.view.ready, journal.view.joined, reconciled.held, failed.held, asked)
    }

    /** reconcileHost up to the StatefulSet: every error ends the walk, errIgnore included. */
    method ReconcileHostConfig(host: Host) returns (err: Err)
      requires Shape() && Valid() && Honest() && Settled() && host in hosts && !ctx.done
      requires journal.view.next == Some(host.id)
      modifies ctx, journal, reconciled, failed, host`status
      ensures Valid() && Honest() && Grown() && err != Crash
      ensures journal.view.current == Some(host.id) && journal.view.next == Some(host.id + 1)
      ensures !ctx.done ==> journal.MayTouch(host.id)
      ensures err == Nil && !ctx.done ==> (ConfigMap, host.configMap.key) in reconciled.held
    {
      PrepareStatefulSet(host);
      journal.Emit(Begin(host.id, host.status));
      ExcludeHost(host);
      err := ReconcileAndRegister(ConfigMap, Some(host.configMap));
    }

    /** reconcileHost once the StatefulSet is reconciled: errors of the claims, the Service and the
        publication are dropped. */
    method FinishHost(host: Host) returns (err: Err)
      requires Shape() && Valid() && Honest() && host in hosts
      requires journal.view.current == Some(host.id)
      requires !ctx.done ==> host.id in journal.view.ready
      modifies this, ctx, journal, reconciled, failed, host`add
      ensures Valid() && Honest() && Grown()
      ensures err in {Nil, Crash} && (err == Crash ==> ctx.done && host.claims != [])
      ensures Settled() && journal.view.next == old(journal.view.next)
      ensures !ctx.done ==> host.id in journal.view.joined && forall m :: m in host.claims ==> m.key in asked
      ensures !ctx.done && host.service.Some? ==> (Service, host.service.value.key) in reconciled.held + failed.held
    {
      ghost var visits;
      err, visits := ReconcilePVCs(host);
      if err == Crash {
        return;
      }
      var _ := ReconcileAndRegister(Service, host.service);
      UnsetAdd(host);
      IncludeHost(host);
    }

    /** It is the turn of host h, or of the one after the last. */
    ghost predicate Turn(h: nat)
      reads ctx, journal
    {
      !ctx.done ==> journal.view.next == Some(h)
    }

    /** reconcileHost, with its failure logged. */
    method ReconcileHost(host: Host) returns (err: Err)
      requires Shape() && Valid() && Honest() && Settled() && host in hosts && Turn(host.id)
      modifies this, ctx, journal, reconciled, failed, host
      ensures Valid() && Honest() && Grown()
      ensures err == Crash ==> ctx.done && host.claims != []
      ensures err == Nil ==> Settled() && Turn(host.id + 1)
      ensures err != Nil ==> journal.view.next == None
      ensures err == Nil && !ctx.done ==> Achieved().Host(host)
    {
      err := TryHost(host);
      if err != Nil {
        journal.Emit(RunLog.Failed(host.id));
      }
    }

    /** reconcileHost */
    method TryHost(host: Host) returns (err: Err)
      requires Shape() && Valid() && Honest() && Settled() && host in hosts && Turn(host.id)
      modifies this, ctx, journal, reconciled, failed, host
      ensures Valid() && Honest() && Grown()
      ensures err == Crash ==> ctx.done && host.claims != []
      ensures err == Nil ==> Settled() && Turn(host.id + 1)
      ensures err == Nil && !ctx.done ==> Achieved().Host(host)
    {
      var stop := ctx.IsDone();
      if stop {
        return Nil;
      }
      err := ReconcileHostConfig(host);
      if err != Nil {
        return;
      }
      err := ReconcileHostStatefulSet(host);
      if err != Nil {
        return;
      }
      err := FinishHost(host);
    }

    // ---- The walk --------------------------------------------------------------------------------

    /** A nil dereference has needed a done context and a host with a claim. */
    ghost predicate CanCrash()
      reads ctx
    {
      ctx.done && exists h :: h in hosts && h.claims != []
    }

    /** What the walk keeps between two hosts. */
    ghost predicate Walking()
      reads ctx, journal, reconciled, failed, hosts
    {
      Valid() && Honest() && Settled()
    }

    /** These are hosts of the walk, from this number on. */
    ghost predicate Numbered(some: seq<Host>, start: nat) {
      forall k :: 0 <= k < |some| ==> some[k] in hosts && some[k].id == start + k
    }

    /** The number of the first host of a shard. */
    ghost function StartOf(c: nat, s: nat): nat
      requires c < |chi.clusters| && s <= |chi.clusters[c].shards|
    {
      |HostsOf(chi.clusters[..c])| + |HostsOfShards(chi.clusters[c].shards[..s])|
    }

    lemma {:induction false} StartOfCluster(c: nat)
      requires c < |chi.clusters|
      ensures StartOf(c, 0) == |HostsOf(chi.clusters[..c])|
      ensures StartOf(c, |chi.clusters[c].shards|) == |HostsOf(chi.clusters[..c + 1])|
    {
      HostsOfAt(chi.clusters, c);
      assert chi.clusters[c].shards[..|chi.clusters[c].shards|] == chi.clusters[c].shards;
    }

    lemma {:induction false} NumberedShard(c: nat, s: nat)
      requires Shape() && c < |chi.clusters| && s < |chi.clusters[c].shards|
      ensures Numbered(chi.clusters[c].shards[s].hosts, StartOf(c, s))
      ensures StartOf(c, s + 1) == StartOf(c, s) + |chi.clusters[c].shards[s].hosts|
    {
      var shards := chi.clusters[c].shards;
      var inChi, inCluster := |HostsOf(chi.clusters[..c])|, |HostsOfShards(shards[..s])|;
      HostsOfAt(chi.clusters, c);
      HostsOfShardsAt(shards, s);
      forall k | 0 <= k < |shards[s].hosts|
        ensures shards[s].hosts[k] in hosts && shards[s].hosts[k].id == inChi + inCluster + k
      {
        assert shards[s].hosts[k] == HostsOfShards(shards)[inCluster + k] == hosts[inChi + (inCluster + k)];
      }
    }

    /** One turn of the loop over the hosts of a shard. */
    method WalkHost(some: seq<Host>, i: nat) returns (err: Err)
      requires Shape() && Walking() && i < |some| && some[i] in hosts && Turn(some[i].id)
      modifies this, ctx, journal, reconciled, failed, hosts
      ensures Valid() && Grown() && (err == Nil ==> Walking()) && (err == Crash ==> CanCrash())
      ensures err == Nil ==> Turn(some[i].id + 1)
      ensures err == Nil && !ctx.done && old(Achieved()).Hosts(some[..i]) ==> Achieved().Hosts(some[..i + 1])
    {
      ghost var f := Achieved();
      err := ReconcileHost(some[i]);
      FactsStay(f, Achieved(), some[..i], [], []);
      assert some[..i + 1] == some[..i] + [some[i]];
    }

    /** The hosts of a shard, in order and until an error. */
    method WalkHosts(some: seq<Host>, ghost start: nat) returns (err: Err)
      requires Shape() && Walking() && Turn(start) && Numbered(some, start)
      modifies this, ctx, journal, reconciled, failed, hosts
      ensures Valid() && Grown() && (err == Nil ==> Walking()) && (err == Crash ==> CanCrash())
      ensures err == Nil ==> Turn(start + |some|)
      ensures err == Nil && !ctx.done ==> Achieved().Hosts(some)
    {
      for j := 0 to |some|
        invariant Walking() && Grown() && Turn(start + j)
        invariant !ctx.done ==> Achieved().Hosts(some[..j])
      {
        assert some[j] in hosts && some[j].id == start + j;
        err := WalkHost(some, j);
        if err != Nil {
          return;
        }
      }
      assert some[..|some|] == some;
      return Nil;
    }

    /** The Service and the hosts of the j-th shard of the i-th cluster, until an error. */
    method WalkShard(i: nat, j: nat) returns (err: Err)
      requires Shape() && i < |chi.clusters| && j < |chi.clusters[i].shards|
      requires Walking() && Turn(StartOf(i, j))
      modifies this, ctx, journal, reconciled, failed, hosts
      ensures Valid() && Grown() && (err == Nil ==> Walking()) && (err == Crash ==> CanCrash())
      ensures err == Nil ==> Turn(StartOf(i, j + 1))
      ensures err == Nil && !ctx.done && old(Achieved()).Shards(chi.clusters[i].shards[..j]) ==>
                Achieved().Shards(chi.clusters[i].shards[..j + 1])
    {
      ghost var f := Achieved();
      var shard := chi.clusters[i].shards[j];
      err := ReconcileAndRegister(Service, shard.service);
      if err != Nil {
        return;
      }
      NumberedShard(i, j);
      err := WalkHosts(shard.hosts, StartOf(i, j));
      if err == Nil && !ctx.done {
        NextShard(f, Achieved(), chi.clusters[i].shards, j);
      }
    }

    /** The shards of the i-th cluster, in order and until an error. */
    method WalkShards(i: nat) returns (err: Err)
      requires Shape() && Walking() && i < |chi.clusters| && Turn(|HostsOf(chi.clusters[..i])|)
      modifies this, ctx, journal, reconciled, failed, hosts
      ensures Valid() && Grown() && (err == Nil ==> Walking()) && (err == Crash ==> CanCrash())
      ensures err == Nil ==> Turn(|HostsOf(chi.clusters[..i + 1])|)
      ensures err == Nil && !ctx.done ==> Achieved().Shards(chi.clusters[i].shards)
    {
      var shards := chi.clusters[i].shards;
      StartOfCluster(i);
      for j := 0 to |shards|
        invariant Walking() && Grown()
        invariant Turn(StartOf(i, j))
        invariant !ctx.done ==> Achieved().Shards(shards[..j])
      {
        err := WalkShard(i, j);
        if err != Nil {
          return;
        }
      }
      assert shards[..|shards|] == shards;
      return Nil;
    }

    /** The Service and the shards of the i-th cluster, until an error. */
    method WalkCluster(i: nat) returns (err: Err)
      requires Shape() && Walking() && i < |chi.clusters| && Turn(|HostsOf(chi.clusters[..i])|)
      modifies this, ctx, journal, reconciled, failed, hosts
      ensures Valid() && Grown() && (err == Nil ==> Walking()) && (err == Crash ==> CanCrash())
      ensures err == Nil ==> Turn(|HostsOf(chi.clusters[..i + 1])|)
      ensures err == Nil && !ctx.done && old(Achieved()).Clusters(chi.clusters[..i]) ==>
                Achieved().Clusters(chi.clusters[..i + 1])
    {
      ghost var f := Achieved();
      err := ReconcileAndRegister(Service, chi.clusters[i].service);
      if err != Nil {
        return;
      }
      err := WalkShards(i);
      if err == Nil && !ctx.done {
        NextCluster(f, Achieved(), chi.clusters, i);
      }
    }

    /** The clusters, until an error. */
    method WalkClusters() returns (err: Err)
      requires Shape() && Walking() && Turn(0)
      modifies this, ctx, journal, reconciled, failed, hosts
      ensures Valid() && Grown() && (err == Nil ==> Walking()) && (err == Crash ==> CanCrash())
      ensures err == Nil ==> Turn(conf.hosts)
      ensures err == Nil && !ctx.done ==> Achieved().Clusters(chi.clusters)
    {
      for i := 0 to |chi.clusters|
        invariant Walking() && Grown() && Turn(|HostsOf(chi.clusters[..i])|)
        invariant !ctx.done ==> Achieved().Clusters(chi.clusters[..i])
      {
        err := WalkCluster(i);
        if err != Nil {
          return;
        }
      }
      assert chi.clusters[..|chi.clusters|] == chi.clusters;
      return Nil;
    }

    /** reconcileCHIAuxObjectsPreliminary: only the error of the CHI Service ends the walk. */
    method ReconcileAuxPreliminary() returns (err: Err)
      requires Shape() && Valid() && Honest() && journal.log == [] && failed.held == {}
      modifies ctx, journal, reconciled, failed
      ensures Valid() && Honest() && Grown() && err != Crash
      ensures err == Nil ==> Settled() && Turn(0)
      // only the error of the Service ends it, and before anything is published
      ensures err != Nil ==> !chi.stopped && chi.service.Some? && failed.held == {(Service, chi.service.value.key)}
      ensures err != Nil ==> journal.log == []
      ensures err == Nil && !ctx.done && !chi.stopped && chi.service.Some? ==>
                (Service, chi.service.value.key) in reconciled.held
      ensures err == Nil && !ctx.done ==> (ConfigMap, chi.usersConfigMap.key) in reconciled.held + failed.held
    {
      var stop := ctx.IsDone();
      if stop {
        return Nil;
      }
      if chi.stopped {
        var _ := ReconcileObject();  // deleteServiceCHI
      } else {
        err := ReconcileAndRegister(Service, chi.service);
        if err != Nil {
          return;
        }
      }
      ListedAreMembers();
      var _ := ReconcileConfigMapCommon(Options(true, []));
      var _ := ReconcileAndRegister(ConfigMap, Some(chi.usersConfigMap));
      return Nil;
    }

    /** reconcileCHIAuxObjectsFinal: publishes every host, without options. */
    method ReconcileAuxFinal() returns (err: Err)
      requires Shape() && Walking() && (!ctx.done ==> Achieved().Hosts(hosts))
      modifies ctx, journal, reconciled, failed
      ensures Valid() && Honest() && Grown() && err != Crash
      ensures journal.view.joined == old(journal.view).joined && journal.view.ready == old(journal.view).ready
      ensures journal.view.next == old(journal.view).next
      ensures err == Nil && !ctx.done ==> journal.view.published && journal.view.live == FirstHosts(conf.hosts)
      ensures err == Nil && !ctx.done ==> (ConfigMap, chi.commonConfigMap.key) in reconciled.held
    {
      var stop := ctx.IsDone();
      if stop {
        return Nil;
      }
      assert Listed(Options(false, [])) == FirstHosts(conf.hosts);
      assert forall i :: 0 <= i < |hosts| ==> Achieved().Host(hosts[i]) && hosts[i].id == i;
      err := ReconcileConfigMapCommon(Options(false, []));
    }

    /** reconcile: ZooKeeper, the preliminary objects, the walk, the final publication. */
    method Reconcile() returns (err: Err)
      requires Shape() && Valid() && Honest() && journal.log == [] && failed.held == {}
      modifies this, ctx, journal, reconciled, failed, hosts
      ensures Valid() && Grown() && (err == Crash ==> CanCrash())
      ensures err == Nil ==> Turn(conf.hosts)
      ensures err == Nil && !ctx.done ==> Achieved().Clusters(chi.clusters)
      ensures err == Nil && !ctx.done ==> journal.view.published && journal.view.live == FirstHosts(conf.hosts)
      ensures err == Nil && !ctx.done ==> (ConfigMap, chi.commonConfigMap.key) in reconciled.held
      ensures err == Nil && !ctx.done && !chi.stopped ==> Achieved().Served(chi.service)
      ensures err == Nil && !ctx.done ==> (ConfigMap, chi.usersConfigMap.key) in reconciled.held + failed.held
    {
      var stop := ctx.IsDone();
      if stop {
        return Nil;
      }
      err := ReconcileObject();  // reconcileZooKeeper
      if err != Nil {
        return;
      }
      err := ReconcileAuxPreliminary();
      if err != Nil {
        return;
      }
      err := WalkClusters();
      if err != Nil {
        return;
      }
      ghost var f := Achieved();
      err := ReconcileAuxFinal();
      FactsStay(f, Achieved(), [], [], chi.clusters);
    }

    // ---- Clearing what was not reconciled --------------------------------------------------------

    /** The list of one entity type; a failed list registers nothing. */
    method DiscoverType(objs: Registry, et: EntityType)
      requires objs.Valid()
      modifies this`discovered, objs
      ensures objs.Valid() && old(discovered) <= discovered
      ensures forall t, m :: m in objs.Entries(t) ==> m in old(objs.Entries(t)) || (t, m) in discovered
      ensures forall t, m :: (t, m) in discovered ==> (t, m) in old(discovered) || (t, m.key) in objs.held
      ensures old(objs.held) <= objs.held
    {
      var broken: bool := *;
      if broken {
        return;
      }
      var items: seq<Meta> := *;
      for i := 0 to |items|
        invariant objs.Valid() && old(discovered) <= discovered
        invariant forall t, m :: m in objs.Entries(t) ==> m in old(objs.Entries(t)) || (t, m) in discovered
        invariant forall t, m :: (t, m) in discovered ==> (t, m) in old(discovered) || (t, m.key) in objs.held
        invariant old(objs.held) <= objs.held
      {
        discovered := discovered + {(et, items[i])};
        objs.Register(et, items[i]);
      }
    }

    /** discovery: nil once the context is done. */
    method Discovery() returns (objs: Registry?)
      requires discovered == {}
      modifies this`discovered, ctx
      ensures ctx.Later() && (objs == null ==> ctx.done)
      ensures objs != null ==> fresh(objs) && objs.Valid()
      ensures objs != null ==> forall t, m :: m in objs.Entries(t) ==> (t, m) in discovered
      ensures objs != null ==> forall t, m :: (t, m) in discovered ==> (t, m.key) in objs.held
    {
      var stop := ctx.IsDone();
      if stop {
        return null;
      }
      objs := new Registry();
      DiscoverType(objs, StatefulSet);
      DiscoverType(objs, ConfigMap);
      DiscoverType(objs, Service);
      DiscoverType(objs, PVC);
      DiscoverType(objs, PV);
    }

    /** purgeStatefulSet, purgePVC, purgeConfigMap and purgeService, with the reclaim policy of a PVC. */
    method ShouldPurge(et: EntityType, m: Meta) returns (b: bool)
      requires failed.Valid()
      ensures b == MayPurge(chi, failed.held, et, m)
    {
      if et == PV {
        return false;
      }
      var isFailed := failed.Has(et, m.key);
      b := CleanupOf(if isFailed then chi.failed else chi.unknown, et) == Delete;
      if et == PVC && b {
        b := !ReclaimRetain(m);
      }
    }

    /** purge, one entity type of the registry. */
    method PurgeType(et: EntityType, slice: seq<Meta>) returns (cnt: nat)
      requires failed.Valid()
      modifies this`purged
      ensures purged == old(purged) + set m | m in slice && MayPurge(chi, failed.held, et, m) :: (et, m)
      ensures cnt > 0 <==> et == StatefulSet && exists m :: m in slice && MayPurge(chi, failed.held, et, m)
    {
      cnt := 0;
      for i := 0 to |slice|
        invariant purged == old(purged) + set m | m in slice[..i] && MayPurge(chi, failed.held, et, m) :: (et, m)
        invariant cnt > 0 <==> et == StatefulSet && exists m :: m in slice[..i] && MayPurge(chi, failed.held, et, m)
      {
        var doomed := ShouldPurge(et, slice[i]);
        if doomed {
          purged := purged + {(et, slice[i])};
          cnt := cnt + if et == StatefulSet then 1 else 0;
        }
        assert slice[..i + 1] == slice[..i] + [slice[i]];
      }
      assert slice[..|slice|] == slice;
    }

    /** purge: nothing once the context is done; else exactly what the rule lets go. */
    method Purge(objs: Registry?) returns (cnt: nat)
      requires failed.Valid() && (objs != null ==> objs != failed)
      modifies this`purged, ctx
      ensures ctx.Later()
      ensures ctx.done || objs == null ==> purged == old(purged)
      ensures objs != null && !ctx.done ==> forall et, m ::
                (et, m) in purged <==>
                || (et, m) in old(purged)
                || (m in objs.Entries(et) && MayPurge(chi, failed.held, et, m))
    {
      var stop := ctx.IsDone();
      if stop || objs == null {
        return 0;
      }
      cnt := 0;
      var todo := objs.r.Keys;
      while todo != {}
        invariant todo <= objs.r.Keys && !ctx.done
        invariant forall et, m :: (et, m) in purged <==>
                    || (et, m) in old(purged)
                    || (et in objs.r.Keys - todo && m in objs.r[et] && MayPurge(chi, failed.held, et, m))
        decreases todo
      {
        var et :| et in todo;
        todo := todo - {et};
        var n := PurgeType(et, objs.r[et]);
        cnt := cnt + n;
      }
    }

    /** clear: deletes what is discovered, not reconciled, and given up by the cleanup policies. */
    method Clear()
      requires reconciled.Valid() && failed.Valid() && reconciled != failed
      requires discovered == {} && purged == {}
      modifies this, ctx
      ensures ctx.Later() && asked == old(asked)
      ensures ctx.done ==> purged == {}
      ensures forall et, m :: (et, m) in purged ==>
                (et, m) in discovered && (et, m.key) !in reconciled.held && MayPurge(chi, failed.held, et, m)
      // what goes and what stays, type by type
      ensures !ctx.done ==>
                && Follows(Left(StatefulSet), chi.unknown.statefulSet, chi.failed.statefulSet)
                && Follows(Left(ConfigMap), chi.unknown.configMap, chi.failed.configMap)
                && Follows(Left(Service), chi.unknown.service, chi.failed.service)
                && ClaimsFollow(Left(PVC), chi.unknown.pvc, chi.failed.pvc)
      ensures forall m :: (PV, m) !in purged
      // a claim with this label is never deleted
      ensures forall m :: (PVC, m) in purged && "clickhouse.radondb.com/reclaimPolicy" in m.labels ==>
                m.labels["clickhouse.radondb.com/reclaimPolicy"] != "Retain"
    {
      PurgeWhatIsLeft();
      if !ctx.done {
        PoliciesByType(chi, failed.held, discovered, reconciled.held, purged);
      }
    }

    /** The objects of one type that a purge has to decide on. */
    ghost function Left(et: EntityType): Leftovers
      reads this, reconciled, failed
    {
      LeftoversOf(et, failed.held, discovered, reconciled.held, purged)
    }

    /** discovery, Subtract and purge. */
    method PurgeWhatIsLeft()
      requires reconciled.Valid() && failed.Valid() && reconciled != failed
      requires discovered == {} && purged == {}
      modifies this, ctx
      ensures ctx.Later() && asked == old(asked)
      ensures ctx.done ==> purged == {}
      ensures !ctx.done ==> PurgedByRule(chi, failed.held, discovered, reconciled.held, purged)
    {
      var objs := Discovery();
      if objs == null {
        var _ := Purge(null);
        return;
      }
      ghost var listed := objs.held;
      assert forall et, key :: (et, key) in listed <==> key in objs.Keys(et);
      Subtract(objs, reconciled);
      var _ := Purge(objs);
    }

    /** updateCHI once a plan with actions exists: reconcile, and clear only after a nil error. */
    method UpdateCHI() returns (err: Err)
      requires Shape() && Valid() && Honest()
      requires journal.log == [] && failed.held == {} && purged == {} && discovered == {}
      modifies this, ctx, journal, reconciled, failed, hosts
      // every moment of the run is safe: see RunLog
      ensures journal.Valid()
      // a run that ends nil and uncancelled has published every host
      ensures err == Nil && !ctx.done ==> journal.view.live == FirstHosts(conf.hosts)
      ensures err == Nil && !ctx.done ==> Achieved().Clusters(chi.clusters) && journal.view.next == Some(conf.hosts)
      ensures err == Crash ==> CanCrash()
      // whatever failed or was cancelled on the way, nothing desired is purged
      ensures Spares(chi, hosts, reconciled.held, failed.held, purged)
      ensures forall m :: (PVC, m) in purged && "clickhouse.radondb.com/reclaimPolicy" in m.labels ==>
                m.labels["clickhouse.radondb.com/reclaimPolicy"] != "Retain"
    {
      err := Reconcile();
      NothingPurged(chi, hosts, reconciled.held, failed.held);
      if err != Nil {
        return;
      }
      Clear();
      if !ctx.done {
        NothingDesiredPurged(chi, hosts, Achieved(), purged);
      }
    }
  }

  // ---- What a purge leaves, by the labels and policies of an installation ------------------------------

  /** The label that keeps a claim, whatever the policies. */
  predicate LabelledRetain(m: Meta) {
    "clickhouse.radondb.com/reclaimPolicy" in m.labels && m.labels["clickhouse.radondb.com/reclaimPolicy"] == "Retain"
  }

  /** The discovered objects of one type that were not reconciled, the names among them whose reconcile failed, and
      what the purge has deleted. */
  datatype Leftovers = Leftovers(objects: set<Meta>, failed: set<Key>, deleted: set<Meta>)

  ghost function LeftoversOf(
    et: EntityType, failed: set<(EntityType, Key)>, discovered: set<(EntityType, Meta)>,
    reconciled: set<(EntityType, Key)>, purged: set<(EntityType, Meta)>): Leftovers
  {
    Leftovers(set p | p in discovered && p.0 == et && (et, p.1.key) !in reconciled :: p.1,
              set p | p in failed && p.0 == et :: p.1,
              set p | p in purged && p.0 == et :: p.1)
  }

  /** A name goes exactly if its policy says Delete: that of failed objects if its reconcile failed, else that of
      unknown ones. */
  ghost predicate Follows(left: Leftovers, unknown: Cleanup, afterFailure: Cleanup) {
    forall m :: m in left.objects ==>
      ((exists d :: d in left.deleted && d.key == m.key) <==>
       (if m.key in left.failed then afterFailure else unknown) == Delete)
  }

  /** The same for claims, of which a name goes only if some claim of it is not labelled to be retained, and does go if
      none is. */
  ghost predicate ClaimsFollow(left: Leftovers, unknown: Cleanup, afterFailure: Cleanup) {
    && (forall m :: m in left.objects && (forall n :: n in left.objects && n.key == m.key ==> !LabelledRetain(n)) ==>
          ((exists d :: d in left.deleted && d.key == m.key) <==>
           (if m.key in left.failed then afterFailure else unknown) == Delete))
    && (forall d :: d in left.deleted ==>
          !LabelledRetain(d) && (if d.key in left.failed then afterFailure else unknown) == Delete)
  }

  /** Every discovered object of this name is given up by the policies. */
  ghost predicate AllGivenUp(
    chi: Chi, failed: set<(EntityType, Key)>, discovered: set<(EntityType, Meta)>, et: EntityType, key: Key)
  {
    forall m :: (et, m) in discovered && m.key == key ==> MayPurge(chi, failed, et, m)
  }

  /** Only what is discovered, not reconciled and given up is deleted; and every such name of which all discovered
      objects are given up, since they can differ in their labels, and any may be the one registered. */
  ghost predicate PurgedByRule(
    chi: Chi, failed: set<(EntityType, Key)>, discovered: set<(EntityType, Meta)>,
    reconciled: set<(EntityType, Key)>, purged: set<(EntityType, Meta)>)
  {
    && (forall et, m :: (et, m) in purged ==>
          (et, m) in discovered && (et, m.key) !in reconciled && MayPurge(chi, failed, et, m))
    && (forall et, m ::
          (et, m) in discovered && (et, m.key) !in reconciled && AllGivenUp(chi, failed, discovered, et, m.key) ==>
            !Kept(purged, et, m.key))
  }

  lemma {:induction false} PolicyOfType(
    chi: Chi, failed: set<(EntityType, Key)>, discovered: set<(EntityType, Meta)>,
    reconciled: set<(EntityType, Key)>, purged: set<(EntityType, Meta)>, et: EntityType)
    requires et != PV && et != PVC
    requires PurgedByRule(chi, failed, discovered, reconciled, purged)
    ensures Follows(LeftoversOf(et, failed, discovered, reconciled, purged),
                    CleanupOf(chi.unknown, et), CleanupOf(chi.failed, et))
  {
    var left := LeftoversOf(et, failed, discovered, reconciled, purged);
    forall m | m in left.objects
      ensures (exists d :: d in left.deleted && d.key == m.key) <==>
              (if m.key in left.failed then CleanupOf(chi.failed, et) else CleanupOf(chi.unknown, et)) == Delete
    {
      assert (et, m) in discovered && (et, m.key) !in reconciled;
      assert m.key in left.failed <==> (et, m.key) in failed;
      assert forall d :: d in left.deleted <==> (et, d) in purged;
      if MayPurge(chi, failed, et, m) {
        assert AllGivenUp(chi, failed, discovered, et, m.key);
        assert !Kept(purged, et, m.key);
      }
    }
  }

  lemma {:induction false} PolicyOfClaims(
    chi: Chi, failed: set<(EntityType, Key)>, discovered: set<(EntityType, Meta)>,
    reconciled: set<(EntityType, Key)>, purged: set<(EntityType, Meta)>)
    requires PurgedByRule(chi, failed, discovered, reconciled, purged)
    ensures ClaimsFollow(LeftoversOf(PVC, failed, discovered, reconciled, purged), chi.unknown.pvc, chi.failed.pvc)
  {
    var left := LeftoversOf(PVC, failed, discovered, reconciled, purged);
    assert forall key :: key in left.failed <==> (PVC, key) in failed;
    assert forall d :: d in left.deleted <==> (PVC, d) in purged;
    forall m | m in left.objects && forall n :: n in left.objects && n.key == m.key ==> !LabelledRetain(n)
      ensures (exists d :: d in left.deleted && d.key == m.key) <==>
              (if m.key in left.failed then chi.failed.pvc else chi.unknown.pvc) == Delete
    {
      assert (PVC, m) in discovered && (PVC, m.key) !in reconciled;
      if MayPurge(chi, failed, PVC, m) {
        assert forall n :: (PVC, n) in discovered && n.key == m.key ==> n in left.objects;
        assert AllGivenUp(chi, failed, discovered, PVC, m.key);
        assert !Kept(purged, PVC, m.key);
      }
    }
  }

  /** The rule of a purge, type by type. */
  lemma {:induction false} PoliciesByType(
    chi: Chi, failed: set<(EntityType, Key)>, discovered: set<(EntityType, Meta)>,
    reconciled: set<(EntityType, Key)>, purged: set<(EntityType, Meta)>)
    requires PurgedByRule(chi, failed, discovered, reconciled, purged)
    ensures Follows(LeftoversOf(StatefulSet, failed, discovered, reconciled, purged),
                    chi.unknown.statefulSet, chi.failed.statefulSet)
    ensures Follows(LeftoversOf(ConfigMap, failed, discovered, reconciled, purged),
                    chi.unknown.configMap, chi.failed.configMap)
    ensures Follows(LeftoversOf(Service, failed, discovered, reconciled, purged),
                    chi.unknown.service, chi.failed.service)
    ensures ClaimsFollow(LeftoversOf(PVC, failed, discovered, reconciled, purged), chi.unknown.pvc, chi.failed.pvc)
  {
    PolicyOfType(chi, failed, discovered, reconciled, purged, StatefulSet);
    PolicyOfType(chi, failed, discovered, reconciled, purged, ConfigMap);
    PolicyOfType(chi, failed, discovered, reconciled, purged, Service);
    PolicyOfClaims(chi, failed, discovered, reconciled, purged);
  }

  /** purge has not deleted this object. */
  ghost predicate Kept(purged: set<(EntityType, Meta)>, et: EntityType, key: Key) {
    forall m :: (et, m) in purged ==> m.key != key
  }

  /** The objects that a purge after a run must leave alone. */
  ghost predicate Spares(
    chi: Chi, hosts: seq<Host>, reconciled: set<(EntityType, Key)>, failed: set<(EntityType, Key)>,
    purged: set<(EntityType, Meta)>)
  {
    // the StatefulSet and the personal ConfigMap of every host, and the common ConfigMap
    && (forall h :: h in hosts ==>
          Kept(purged, StatefulSet, h.statefulSet.key) && Kept(purged, ConfigMap, h.configMap.key))
    && Kept(purged, ConfigMap, chi.commonConfigMap.key)
    // the services of the installation, its clusters and its shards
    && (chi.service.Some? && !chi.stopped ==> Kept(purged, Service, chi.service.value.key))
    && (forall c :: c in chi.clusters && c.service.Some? ==> Kept(purged, Service, c.service.value.key))
    && (forall c, s :: c in chi.clusters && s in c.shards && s.service.Some? ==>
          Kept(purged, Service, s.service.value.key))
    // objects whose errors are swallowed, unless failed objects are to be deleted
    && (chi.failed.configMap != Delete ==> Kept(purged, ConfigMap, chi.usersConfigMap.key))
    && (chi.failed.service != Delete ==>
          forall h :: h in hosts && h.service.Some? ==> Kept(purged, Service, h.service.value.key))
    // claims labelled to be retained, claims that were found and updated, and failed claims unless given up
    && (forall m :: (PVC, m) in purged ==> !LabelledRetain(m) && (PVC, m.key) !in reconciled)
    && (forall m :: (PVC, m) in purged && (PVC, m.key) in failed ==> chi.failed.pvc == Delete)
  }

  lemma {:induction false} NothingPurged(
    chi: Chi, hosts: seq<Host>, reconciled: set<(EntityType, Key)>, failed: set<(EntityType, Key)>)
    ensures Spares(chi, hosts, reconciled, failed, {})
  {
  }

  /** What a run has achieved protects its objects from a purge of what is not reconciled. */
  lemma {:induction false} NothingDesiredPurged(chi: Chi, hosts: seq<Host>, f: Facts, purged: set<(EntityType, Meta)>)
    requires hosts == HostsOf(chi.clusters) && f.Clusters(chi.clusters)
    requires (ConfigMap, chi.commonConfigMap.key) in f.reconciled
    requires !chi.stopped ==> f.Served(chi.service)
    requires (ConfigMap, chi.usersConfigMap.key) in f.reconciled + f.failed
    requires forall et, m :: (et, m) in purged ==> (et, m.key) !in f.reconciled && MayPurge(chi, f.failed, et, m)
    ensures Spares(chi, hosts, f.reconciled, f.failed, purged)
  {
    forall h | h in hosts
      ensures f.Host(h)
    {
    }
    forall c, s | c in chi.clusters && s in c.shards
      ensures f.Served(c.service) && f.Served(s.service)
    {
    }
  }

  lemma {:induction false} HostsOfShardsAt(shards: seq<Shard>, i: nat)
    requires i < |shards|
    ensures HostsOfShards(shards[..i + 1]) == HostsOfShards(shards[..i]) + shards[i].hosts
    ensures forall h :: h in shards[i].hosts ==> h in HostsOfShards(shards)
    ensures HostsOfShards(shards[..i + 1]) <= HostsOfShards(shards)
  {
    assert shards[..i + 1][..i] == shards[..i];
    if i < |shards| - 1 {
      var shorter := shards[..|shards| - 1];
      HostsOfShardsAt(shorter, i);
      assert shorter[..i + 1] == shards[..i + 1];
    } else {
      assert shards[..i + 1] == shards;
    }
  }

  lemma {:induction false} HostsOfAt(clusters: seq<Cluster>, i: nat)
    requires i < |clusters|
    ensures HostsOf(clusters[..i + 1]) == HostsOf(clusters[..i]) + HostsOfShards(clusters[i].shards)
    ensures forall h :: h in HostsOfShards(clusters[i].shards) ==> h in HostsOf(clusters)
    ensures HostsOf(clusters[..i + 1]) <= HostsOf(clusters)
  {
    assert clusters[..i + 1][..i] == clusters[..i];
    if i < |clusters| - 1 {
      var shorter := clusters[..|clusters| - 1];
      HostsOfAt(shorter, i);
      assert shorter[..i + 1] == clusters[..i + 1];
    } else {
      assert clusters[..i + 1] == clusters;
    }
  }
}
