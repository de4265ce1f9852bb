/** What one reconcile run is observed to do, as a log of events, and what must hold of every prefix
    of the log. Hosts are numbered in walk order. */
module RunLog {
  import opened Wrappers

  datatype Status = Modified | New | Same | Unknown

  /** Undo is the rollback or removal after a wait that failed. */
  datatype Request = Create | Update | Remove | Undo

  datatype Event =
    | Begin(h: nat, status: Status)  // reconcileHost has started on h and knows its StatefulSet status
    | Publish(servers: set<nat>)     // the common ConfigMap now lists these hosts in remote_servers
    | PublishFailed                  // a reconcile of the common ConfigMap returned an error
    | Touch(h: nat, request: Request)  // a request that changes the StatefulSet of h reached the API server
    | Ready(h: nat)                  // the StatefulSet of h was brought up: not merely skipped as cancelled,
                                     // and not merely shut down for a rolling update
    | Joined(h: nat)                 // the `add` attribute of h was cleared
    | Failed(h: nat)                 // the reconcile of h returned an error

  /** What is fixed for the run. */
  datatype Conf = Conf(
    hosts: nat,
    added: set<nat>,         // hosts flagged `add` at the start
    before: set<nat>,        // remote_servers as the previous run left it
    alone: set<nat>,         // hosts whose shard has no other host
    rolling: bool,           // the installation asks for a rolling update
    waitExclude: bool)       // exclusion is published and waited for

  datatype View = View(
    live: set<nat>,          // remote_servers as published last
    published: bool,         // this run has published at least once
    failed: bool,            // some publication returned an error
    ready: set<nat>,
    joined: set<nat>,
    current: Option<nat>,    // the host reconciled last
    leaving: set<nat>,       // hosts that must be out of remote_servers while they are changed
    torn: set<nat>,          // hosts changed while leaving and still listed
    next: Option<nat>,       // the host whose turn is next; none after a failure
    ordered: bool)           // every host began in its turn

  /** A host serves queries on a StatefulSet that is about to change, and another replica can take over. */
  predicate MustLeave(conf: Conf, h: nat, status: Status) {
    conf.waitExclude && (conf.rolling || (status != New && status != Same && h !in conf.alone))
  }

  function Start(conf: Conf): View {
    View(conf.before, false, false, {}, {}, None, {}, {}, Some(0), true)
  }

  function Step(conf: Conf, v: View, e: Event): View {
    match e
    case Begin(h, status) =>
      v.(current := Some(h), leaving := if MustLeave(conf, h, status) then v.leaving + {h} else v.leaving - {h},
         next := Some(h + 1), ordered := v.ordered && v.next == Some(h))
    case Publish(servers) => v.(live := servers, published := true)
    case PublishFailed => v.(failed := true)
    case Touch(h, _) =>
      if h in v.leaving && h in v.live && v.published && !v.failed then v.(torn := v.torn + {h}) else v
    case Ready(h) => v.(ready := v.ready + {h})
    case Joined(h) => v.(joined := v.joined + {h})
    case Failed(_) => v.(next := None)
  }

  function Replay(conf: Conf, log: seq<Event>): View {
    if log == [] then Start(conf)
    else Step(conf, Replay(conf, log[..|log| - 1]), log[|log| - 1])
  }

  /** The first n hosts in walk order. */
  function FirstHosts(n: nat): (s: set<nat>)
    ensures forall h: nat :: h in s <==> h < n
  {
    if n == 0 then {} else FirstHosts(n - 1) + {n - 1}
  }

  /** The hosts that are part of the cluster: not flagged `add`, or no longer. */
  ghost function Members(conf: Conf, v: View): set<nat> {
    set h | h in FirstHosts(conf.hosts) && (h !in conf.added || h in v.joined)
  }

  /** The safety of one moment of the run. */
  ghost predicate Ok(conf: Conf, v: View) {
    // an added host is listed only once its StatefulSet is reconciled
    && (conf.before !! conf.added ==> v.live * conf.added <= v.ready)
    // while publications succeed, no member but the host being reconciled is missing
    && (v.published && !v.failed ==>
          Members(conf, v) - v.live <= if v.current.Some? then {v.current.value} else {})
    // no host that must leave is changed while it is still listed
    && v.torn == {}
    // hosts are reconciled in walk order, each once, and none after one that failed
    && v.ordered
  }

  /** The safety of the whole run: every moment of it is safe. */
  ghost predicate Safe(conf: Conf, log: seq<Event>) {
    forall p :: 0 <= p <= |log| ==> Ok(conf, Replay(conf, log[..p]))
  }

  lemma {:induction false} SafeAppend(conf: Conf, log: seq<Event>, e: Event)
    requires Safe(conf, log)
    requires Ok(conf, Step(conf, Replay(conf, log), e))
    ensures Safe(conf, log + [e])
    ensures Replay(conf, log + [e]) == Step(conf, Replay(conf, log), e)
  {
    var longer := log + [e];
    assert longer[..|log|] == log;
    forall p | 0 <= p <= |longer|
      ensures Ok(conf, Replay(conf, longer[..p]))
    {
      if p <= |log| {
        assert longer[..p] == log[..p];
      } else {
        assert longer[..p] == longer;
      }
    }
  }

  /** A host counts as ready only because a Ready event was logged. */
  lemma {:induction false} ReadyWasLogged(conf: Conf, log: seq<Event>, h: nat)
    requires h in Replay(conf, log).ready
    ensures exists j :: 0 <= j < |log| && log[j] == Ready(h)
  {
    var n := |log| - 1;
    if log[n] != Ready(h) {
      ReadyWasLogged(conf, log[..n], h);
      var j :| 0 <= j < n && log[..n][j] == Ready(h);
      assert log[j] == Ready(h);
    }
  }

  /** In a safe run an added host is published only after its own StatefulSet was reconciled. */
  lemma {:induction false} AddedOnlyAfterReady(conf: Conf, log: seq<Event>, i: nat, h: nat)
    requires Safe(conf, log) && conf.before !! conf.added
    requires i < |log| && log[i].Publish? && h in log[i].servers && h in conf.added
    ensures exists j :: 0 <= j < i && log[j] == Ready(h)
  {
    var upto := log[..i + 1];
    assert upto[..i] == log[..i];
    assert h in Replay(conf, upto).live * conf.added;
    ReadyWasLogged(conf, log[..i], h);
    var j :| 0 <= j < i && log[..i][j] == Ready(h);
    assert log[j] == Ready(h);
  }

  lemma {:induction false} PublicationsSoFar(conf: Conf, log: seq<Event>)
    ensures Replay(conf, log).failed == (PublishFailed in log)
    ensures Replay(conf, log).published == exists i :: 0 <= i < |log| && log[i].Publish?
  {
    if log != [] {
      var n := |log| - 1;
      PublicationsSoFar(conf, log[..n]);
      assert log == log[..n] + [log[n]];
      if Replay(conf, log[..n]).published {
        var i :| 0 <= i < n && log[..n][i].Publish?;
        assert log[i].Publish?;
      }
      assert forall i :: 0 <= i < n && log[i].Publish? ==> log[..n][i].Publish?;
    }
  }

  /** The last host whose reconcile began is h, with event j. */
  predicate LastBegin(log: seq<Event>, j: int, h: nat) {
    && 0 <= j < |log| && log[j].Begin? && log[j].h == h
    && forall k :: j < k < |log| ==> !log[k].Begin?
  }

  lemma {:induction false} CurrentIsLastBegin(conf: Conf, log: seq<Event>, h: nat)
    requires Replay(conf, log).current == Some(h)
    ensures exists j :: LastBegin(log, j, h)
  {
    var n := |log| - 1;
    if log[n].Begin? {
      assert LastBegin(log, n, h);
    } else {
      CurrentIsLastBegin(conf, log[..n], h);
      var j :| LastBegin(log[..n], j, h);
      assert LastBegin(log, j, h);
    }
  }

  /** Event p is the last publication so far. */
  predicate LastPublish(log: seq<Event>, p: int) {
    && 0 <= p < |log| && log[p].Publish?
    && forall k :: p < k < |log| ==> !log[k].Publish?
  }

  lemma {:induction false} LiveIsLastPublish(conf: Conf, log: seq<Event>, p: nat)
    requires LastPublish(log, p)
    ensures Replay(conf, log).live == log[p].servers && Replay(conf, log).published
  {
    var n := |log| - 1;
    if p < n {
      LiveIsLastPublish(conf, log[..n], p);
    }
  }

  lemma {:induction false} JoinedWasLogged(conf: Conf, log: seq<Event>, h: nat)
    ensures h in Replay(conf, log).joined <==> Joined(h) in log
  {
    if log != [] {
      var n := |log| - 1;
      JoinedWasLogged(conf, log[..n], h);
      assert log == log[..n] + [log[n]];
    }
  }

  /** In a safe run whose publications succeed, at every point after the first of them, a host that the last one
      does not list, although it was not to be added or has joined since, is the host whose reconcile began last. */
  lemma {:induction false} AtMostOneMissing(conf: Conf, log: seq<Event>, n: nat, p: nat, missing: nat)
    requires Safe(conf, log) && n <= |log|
    requires LastPublish(log[..n], p) && PublishFailed !in log[..n]
    requires missing < conf.hosts && missing !in log[p].servers
    requires missing !in conf.added || Joined(missing) in log[..n]
    ensures exists j :: LastBegin(log[..n], j, missing)
  {
    var upto := log[..n];
    PublicationsSoFar(conf, upto);
    LiveIsLastPublish(conf, upto, p);
    JoinedWasLogged(conf, upto, missing);
    assert missing in Members(conf, Replay(conf, upto)) - Replay(conf, upto).live;
    CurrentIsLastBegin(conf, upto, missing);
  }

  /** Event b is the last time the reconcile of h began. */
  predicate LastBeginOf(log: seq<Event>, b: int, h: nat) {
    && 0 <= b < |log| && log[b].Begin? && log[b].h == h
    && forall k :: b < k < |log| && log[k].Begin? ==> log[k].h != h
  }

  lemma {:induction false} LeavingSinceBegin(conf: Conf, log: seq<Event>, b: nat, h: nat)
    requires LastBeginOf(log, b, h)
    ensures h in Replay(conf, log).leaving <==> MustLeave(conf, h, log[b].status)
  {
    var n := |log| - 1;
    if b < n {
      LeavingSinceBegin(conf, log[..n], b, h);
    }
  }

  /** In a safe run whose publications succeed, no request changes the StatefulSet of a host that the last
      publication lists, if exclusion is waited for and either the update is rolling or the host, found modified or
      in an unknown state when its reconcile began, is not alone in its shard. */
  lemma {:induction false} LeavesBeforeTouched(conf: Conf, log: seq<Event>, i: nat, b: nat, p: nat)
    requires Safe(conf, log)
    requires i < |log| && log[i].Touch?
    requires LastBeginOf(log[..i], b, log[i].h)
    requires LastPublish(log[..i], p) && PublishFailed !in log[..i]
    requires conf.waitExclude
    requires conf.rolling || (log[b].status in {Modified, Unknown} && log[i].h !in conf.alone)
    ensures log[i].h !in log[p].servers
  {
    var upto := log[..i + 1];
    assert upto[..i] == log[..i];
    PublicationsSoFar(conf, log[..i]);
    LiveIsLastPublish(conf, log[..i], p);
    LeavingSinceBegin(conf, log[..i], b, log[i].h);
    assert Replay(conf, upto) == Step(conf, Replay(conf, log[..i]), log[i]);
  }

  /** The hosts whose reconcile began, in the order of the log. */
  function Begun(log: seq<Event>): seq<nat> {
    if log == [] then []
    else
      var last, before := log[|log| - 1], Begun(log[..|log| - 1]);
      if last.Begin? then before + [last.h] else before
  }

  lemma {:induction false} OrderedSoFar(conf: Conf, log: seq<Event>)
    requires Replay(conf, log).ordered
    ensures forall i :: 0 <= i < |Begun(log)| ==> Begun(log)[i] == i
    ensures Replay(conf, log).next.Some? ==> Replay(conf, log).next.value == |Begun(log)|
  {
    if log != [] {
      OrderedSoFar(conf, log[..|log| - 1]);
    }
  }

  /** In a safe run the hosts are reconciled one after the other in walk order, none twice and none left out. */
  lemma {:induction false} BegunInWalkOrder(conf: Conf, log: seq<Event>)
    requires Safe(conf, log)
    ensures forall i :: 0 <= i < |Begun(log)| ==> Begun(log)[i] == i
  {
    assert log[..|log|] == log;
    OrderedSoFar(conf, log);
  }

  lemma {:induction false} NoTurnAfterFailure(conf: Conf, log: seq<Event>, i: nat)
    requires i < |log| && log[i].Failed? && Replay(conf, log).ordered
    ensures Replay(conf, log).next == None
    ensures forall j :: i <= j < |log| ==> !log[j].Begin?
  {
    var n := |log| - 1;
    if i < n {
      NoTurnAfterFailure(conf, log[..n], i);
    }
  }

  /** In a safe run the first host whose reconcile fails is the last one touched by the walk. */
  lemma {:induction false} NoneBeginsAfterFailure(conf: Conf, log: seq<Event>, i: nat, j: nat)
    requires Safe(conf, log) && i < j < |log| && log[i].Failed?
    ensures !log[j].Begin?
  {
    assert log[..|log|] == log;
    NoTurnAfterFailure(conf, log, i);
  }
}
