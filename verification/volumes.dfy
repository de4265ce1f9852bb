/** Volume claim templates and mounts of a StatefulSet (creator.go), and which of its claims may be deleted
    (deleter.go). */
module Volumes {
  import Names

  datatype Mount = Mount(name: string, path: string)

  datatype Container = Container(name: string, mounts: seq<Mount>)

  datatype Policy = Retain | Delete

  const DATA_PATH := "/var/lib/clickhouse"
  const LOG_PATH := "/var/log/clickhouse-server"

  // ---- What is mounted -----------------------------------------------------------------------------------

  predicate Clashes(mounts: seq<Mount>, m: Mount) {
    exists i :: 0 <= i < |mounts| && (mounts[i].name == m.name || mounts[i].path == m.path)
  }

  /** The mounts of a container that was offered one more: it is taken when it is known, and clashes with none. */
  function Offered(mounts: seq<Mount>, m: Mount, known: set<string>): seq<Mount> {
    if m.path == "" || m.name == "" || m.name !in known || Clashes(mounts, m) then mounts else mounts + [m]
  }

  /** Data first, then log. */
  function OfferedBoth(mounts: seq<Mount>, data: string, log: string, known: set<string>): seq<Mount> {
    Offered(Offered(mounts, Mount(data, DATA_PATH), known), Mount(log, LOG_PATH), known)
  }

  predicate Mounts(c: Container, name: string) {
    exists i :: 0 <= i < |c.mounts| && c.mounts[i].name == name
  }

  ghost predicate MountedBy(containers: seq<Container>, name: string) {
    exists i :: 0 <= i < |containers| && Mounts(containers[i], name)
  }

  predicate Distinct(names: seq<string>) {
    forall i, j :: 0 <= i < j < |names| ==> names[i] != names[j]
  }

  /** The first container of its name. */
  predicate First(containers: seq<Container>, i: nat)
    requires i < |containers|
  {
    forall j :: 0 <= j < i ==> containers[j].name != containers[i].name
  }

  /** The claim templates are the known ones that some container mounts, each once. */
  ghost predicate ClaimsMatch(claims: seq<string>, containers: seq<Container>, known: set<string>) {
    && Distinct(claims)
    && forall name :: name in claims <==> name in known && MountedBy(containers, name)
  }

  lemma {:induction false} OfferClashes(mounts: seq<Mount>, m: Mount, known: set<string>, other: Mount)
    ensures Clashes(mounts, other) ==> Clashes(Offered(mounts, m, known), other)
    ensures Offered(Offered(mounts, m, known), m, known) == Offered(mounts, m, known)
  {
    var more := Offered(mounts, m, known);
    if Clashes(mounts, other) {
      var i :| 0 <= i < |mounts| && (mounts[i].name == other.name || mounts[i].path == other.path);
      assert more[i] == mounts[i];
    }
    if more != mounts {
      assert more[|mounts|] == m;
    }
  }

  /** Offering the two again changes nothing. */
  lemma {:induction false} OfferedBothTwice(mounts: seq<Mount>, data: string, log: string, known: set<string>)
    ensures var once := OfferedBoth(mounts, data, log, known);
            Offered(once, Mount(data, DATA_PATH), known) == once && Offered(once, Mount(log, LOG_PATH), known) == once
  {
    var d, l := Mount(data, DATA_PATH), Mount(log, LOG_PATH);
    var first := Offered(mounts, d, known);
    OfferClashes(mounts, d, known, d);
    OfferClashes(first, l, known, d);
    OfferClashes(first, l, known, l);
  }

  /** No mount that is added reuses a name or a path of its container. */
  lemma {:induction false} AddedMountsDoNotClash(mounts: seq<Mount>, data: string, log: string, known: set<string>)
    ensures var all := OfferedBoth(mounts, data, log, known);
            && mounts <= all
            && forall i :: |mounts| <= i < |all| ==> all[i].name in known && !Clashes(all[..i], all[i])
  {
    var first := Offered(mounts, Mount(data, DATA_PATH), known);
    var all := OfferedBoth(mounts, data, log, known);
    assert all[..|mounts|] == mounts;
    assert all[..|first|] == first;
  }

  /** Neither the name nor the path is taken by these mounts. */
  predicate Free(mounts: seq<Mount>, name: string, path: string) {
    forall m :: m in mounts ==> m.name != name && m.path != path
  }

  /** A container that mounts data on /var/lib/clickhouse if this is a known template and free in it, then log on
      /var/log/clickhouse-server likewise, and nothing else that it did not mount before. */
  ghost predicate Equipped(was: Container, now: Container, data: string, log: string, known: set<string>) {
    var first :=
      if data != "" && data in known && Free(was.mounts, data, "/var/lib/clickhouse")
      then was.mounts + [Mount(data, "/var/lib/clickhouse")] else was.mounts;
    var second :=
      if log != "" && log in known && Free(first, log, "/var/log/clickhouse-server")
      then first + [Mount(log, "/var/log/clickhouse-server")] else first;
    now == Container(was.name, second)
  }

  lemma {:induction false} ClashesUnlessFree(mounts: seq<Mount>, m: Mount)
    ensures Clashes(mounts, m) <==> !Free(mounts, m.name, m.path)
  {
    if Clashes(mounts, m) {
      var i :| 0 <= i < |mounts| && (mounts[i].name == m.name || mounts[i].path == m.path);
      assert mounts[i] in mounts;
    }
  }

  lemma {:induction false} OfferedByCase(c: Container, data: string, log: string, known: set<string>)
    ensures Equipped(c, Container(c.name, OfferedBoth(c.mounts, data, log, known)), data, log, known)
  {
    var d, l := Mount(data, "/var/lib/clickhouse"), Mount(log, "/var/log/clickhouse-server");
    ClashesUnlessFree(c.mounts, d);
    ClashesUnlessFree(Offered(c.mounts, d, known), l);
  }

  function OfferedTo(containers: seq<Container>, k: nat, m: Mount, known: set<string>): seq<Container>
    requires k < |containers|
  {
    containers[k := Container(containers[k].name, Offered(containers[k].mounts, m, known))]
  }

  /** What the containers are once those before n were gone through: data and log were offered to each that is the
      first of its name. */
  predicate AllOffered(
    was: seq<Container>, now: seq<Container>, n: nat, data: string, log: string, known: set<string>)
  {
    |was| == |now| && forall i :: 0 <= i < |was| ==> now[i] == AfterOffers(was, i, n, data, log, known)
  }

  function AfterOffers(was: seq<Container>, i: nat, n: nat, data: string, log: string, known: set<string>): Container
    requires i < |was|
  {
    if i < n && First(was, i) then Container(was[i].name, OfferedBoth(was[i].mounts, data, log, known)) else was[i]
  }

  lemma {:induction false} AllOfferedNext(
    was: seq<Container>, before: seq<Container>, now: seq<Container>, i: nat, k: nat,
    data: string, log: string, known: set<string>)
    requires AllOffered(was, before, i, data, log, known) && i < |was|
    requires k <= i && before[k].name == before[i].name && First(before, k)
    requires now == OfferedTo(OfferedTo(before, k, Mount(data, DATA_PATH), known), k, Mount(log, LOG_PATH), known)
    ensures AllOffered(was, now, i + 1, data, log, known)
  {
    assert SameNames(before, was);
    FirstOfSameNames(before, was, k);
    TurnOfFirst(was, i, k, data, log, known);
    forall j | 0 <= j < |was| && j != k
      ensures now[j] == AfterOffers(was, j, i + 1, data, log, known)
    {
      assert now[j] == before[j];
      assert j == i ==> was[k].name == was[i].name && !First(was, i);
    }
  }

  /** The first container of its name is offered data and log, for the first time or again. */
  lemma {:induction false} TurnOfFirst(
    was: seq<Container>, i: nat, k: nat, data: string, log: string, known: set<string>)
    requires k <= i < |was| && First(was, k)
    ensures var c := AfterOffers(was, k, i, data, log, known);
            AfterOffers(was, k, i + 1, data, log, known) ==
            Container(c.name, OfferedBoth(c.mounts, data, log, known))
  {
    if k < i {
      OfferedBothTwice(was[k].mounts, data, log, known);
    }
  }

  predicate SameNames(some: seq<Container>, others: seq<Container>) {
    |some| == |others| && forall i :: 0 <= i < |some| ==> some[i].name == others[i].name
  }

  lemma {:induction false} FirstOfSameNames(some: seq<Container>, others: seq<Container>, k: nat)
    requires SameNames(some, others) && k < |some| && First(some, k)
    ensures First(others, k)
  {
  }

  // ---- Setting up a StatefulSet ----------------------------------------------------------------------------

  class StatefulSet {
    const containers: array<Container>
    var claims: seq<string>  // the names of its VolumeClaimTemplates

    constructor (containers: array<Container>)
      ensures this.containers == containers && claims == []
    {
      this.containers, claims := containers, [];
    }

    /** statefulSetAppendPVCTemplate */
    method AppendPVCTemplate(name: string)
      requires Distinct(claims)
      modifies this`claims
      ensures Distinct(claims)
      ensures claims == if name in old(claims) then old(claims) else old(claims) + [name]
    {
      for i := 0 to |claims|
        invariant name !in claims[..i]
      {
        if claims[i] == name {
          return;
        }
        assert claims[..i + 1] == claims[..i] + [claims[i]];
      }
      assert claims[..|claims|] == claims;
      claims := claims + [name];
    }

    /** setupStatefulSetApplyVolumeMounts: the templates that containers mount already. */
    method ApplyVolumeMounts(known: set<string>)
      requires claims == []
      modifies this`claims
      ensures ClaimsMatch(claims, containers[..], known)
    {
      for i := 0 to containers.Length
        invariant ClaimsMatch(claims, containers[..i], known)
      {
        ApplyVolumeMountsOf(i, known);
        assert containers[..i + 1] == containers[..i] + [containers[i]];
        MountedByNext(containers[..i], containers[i]);
      }
      assert containers[..containers.Length] == containers[..];
    }

    method ApplyVolumeMountsOf(i: nat, known: set<string>)
      requires i < containers.Length && Distinct(claims)
      modifies this`claims
      ensures Distinct(claims)
      ensures forall name :: name in claims <==> name in old(claims) || (name in known && Mounts(containers[i], name))
    {
      var mounts := containers[i].mounts;
      for j := 0 to |mounts|
        invariant Distinct(claims)
        invariant forall name :: name in claims <==>
                    name in old(claims) || (name in known && Mounts(Container("", mounts[..j]), name))
      {
        MountsNext(mounts, j);
        if mounts[j].name in known {
          AppendPVCTemplate(mounts[j].name);
        }
      }
      assert forall name :: Mounts(Container("", mounts[..|mounts|]), name) <==> Mounts(containers[i], name) by {
        assert mounts[..|mounts|] == mounts;
      }
    }

    /** getContainerByName, as an index; the name is that of container i. */
    method ContainerByName(i: nat) returns (k: nat)
      requires i < containers.Length
      ensures k <= i && containers[k].name == containers[i].name && First(containers[..], k)
    {
      k := 0;
      while containers[k].name != containers[i].name
        invariant k <= i
        invariant forall j :: 0 <= j < k ==> containers[j].name != containers[i].name
        decreases i - k
      {
        k := k + 1;
      }
    }

    /** setupStatefulSetApplyVolumeMount, once the container has been found. */
    method ApplyVolumeMount(k: nat, m: Mount, known: set<string>)
      requires k < containers.Length && ClaimsMatch(claims, containers[..], known)
      modifies this`claims, containers
      ensures ClaimsMatch(claims, containers[..], known)
      ensures containers[..] == OfferedTo(old(containers[..]), k, m, known)
      ensures m.name != "" && m.path != "" && m.name in known && Free(old(containers[k].mounts), m.name, m.path) ==>
                containers[k].mounts == old(containers[k].mounts) + [m] && m.name in claims
      ensures m.name == "" || m.path == "" || m.name !in known || !Free(old(containers[k].mounts), m.name, m.path) ==>
                containers[..] == old(containers[..])
    {
      ClashesUnlessFree(containers[k].mounts, m);
      var c := containers[k];
      assert containers[..] == containers[..][k := Container(c.name, c.mounts)];
      if m.path == "" || m.name == "" || m.name !in known {
        return;
      }
      for i := 0 to |c.mounts|
        invariant !Clashes(c.mounts[..i], m)
      {
        if m.name == c.mounts[i].name || m.path == c.mounts[i].path {
          return;
        }
      }
      assert c.mounts[..|c.mounts|] == c.mounts;
      ghost var before := containers[..];
      AppendPVCTemplate(m.name);
      containers[k] := Container(c.name, c.mounts + [m]);
      MountedByMore(before, k, m);
      assert containers[..] == before[k := Container(c.name, c.mounts + [m])];
    }

    /** setupStatefulSetApplyVolumeClaimTemplates: data and log are offered to every container, found by name. */
    method ApplyVolumeClaimTemplates(data: string, log: string, known: set<string>)
      requires ClaimsMatch(claims, containers[..], known)
      modifies this`claims, containers
      ensures ClaimsMatch(claims, containers[..], known)
      ensures AllOffered(old(containers[..]), containers[..], containers.Length, data, log, known)
    {
      ghost var was := containers[..];
      for i := 0 to containers.Length
        invariant ClaimsMatch(claims, containers[..], known)
        invariant AllOffered(was, containers[..], i, data, log, known)
      {
        OfferTo(i, was, data, log, known);
      }
    }

    /** One turn: a container that is not the first of its name has its mounts offered to the first, again. */
    method OfferTo(i: nat, ghost was: seq<Container>, data: string, log: string, known: set<string>)
      requires i < containers.Length
      requires ClaimsMatch(claims, containers[..], known) && AllOffered(was, containers[..], i, data, log, known)
      modifies this`claims, containers
      ensures ClaimsMatch(claims, containers[..], known) && AllOffered(was, containers[..], i + 1, data, log, known)
    {
      var k := ContainerByName(i);
      ghost var before := containers[..];
      ApplyVolumeMount(k, Mount(data, DATA_PATH), known);
      ApplyVolumeMount(k, Mount(log, LOG_PATH), known);
      AllOfferedNext(was, before, containers[..], i, k, data, log, known);
    }

    /** setupStatefulSetVolumeClaimTemplates */
    method SetUp(data: string, log: string, known: set<string>)
      requires claims == []
      modifies this`claims, containers
      ensures ClaimsMatch(claims, containers[..], known)
      ensures AllOffered(old(containers[..]), containers[..], containers.Length, data, log, known)
      // by cases: what each container mounts afterwards, and what is claimed for it
      ensures forall i :: 0 <= i < containers.Length ==>
                if exists j :: 0 <= j < i && old(containers[j]).name == old(containers[i]).name
                then containers[i] == old(containers[i])
                else Equipped(old(containers[i]), containers[i], data, log, known)
      ensures forall i, m :: 0 <= i < containers.Length && m in containers[i].mounts && m.name in known ==>
                m.name in claims
    {
      ghost var was := containers[..];
      ApplyVolumeMounts(known);
      ApplyVolumeClaimTemplates(data, log, known);
      forall i | 0 <= i < containers.Length && First(was, i)
        ensures Equipped(was[i], containers[..][i], data, log, known)
      {
        OfferedByCase(was[i], data, log, known);
      }
      forall i, m | 0 <= i < containers.Length && m in containers[i].mounts
        ensures MountedBy(containers[..], m.name)
      {
        var j :| 0 <= j < |containers[i].mounts| && containers[i].mounts[j] == m;
        assert Mounts(containers[..][i], m.name);
      }
    }
  }

  lemma {:induction false} MountsNext(mounts: seq<Mount>, j: nat)
    requires j < |mounts|
    ensures forall name :: Mounts(Container("", mounts[..j + 1]), name) <==>
              Mounts(Container("", mounts[..j]), name) || name == mounts[j].name
  {
    forall name
      ensures Mounts(Container("", mounts[..j + 1]), name) <==>
              Mounts(Container("", mounts[..j]), name) || name == mounts[j].name
    {
      if Mounts(Container("", mounts[..j]), name) {
        var i :| 0 <= i < j && mounts[i].name == name;
        assert mounts[..j + 1][i].name == name;
      }
      assert mounts[..j + 1][j] == mounts[j];
    }
  }

  lemma {:induction false} MountedByNext(containers: seq<Container>, c: Container)
    ensures forall name :: MountedBy(containers + [c], name) <==> MountedBy(containers, name) || Mounts(c, name)
  {
    forall name
      ensures MountedBy(containers + [c], name) <==> MountedBy(containers, name) || Mounts(c, name)
    {
      if MountedBy(containers, name) {
        var i :| 0 <= i < |containers| && Mounts(containers[i], name);
        assert Mounts((containers + [c])[i], name);
      }
      assert (containers + [c])[|containers|] == c;
    }
  }

  lemma {:induction false} MountedByMore(containers: seq<Container>, k: nat, m: Mount)
    requires k < |containers|
    ensures var more := containers[k := Container(containers[k].name, containers[k].mounts + [m])];
            forall name :: MountedBy(more, name) <==> MountedBy(containers, name) || name == m.name
  {
    var c := containers[k];
    var grown := Container(c.name, c.mounts + [m]);
    var more := containers[k := grown];
    assert grown.mounts[|c.mounts|] == m;
    forall name
      ensures Mounts(grown, name) <==> Mounts(c, name) || name == m.name
    {
      if Mounts(c, name) {
        var i :| 0 <= i < |c.mounts| && c.mounts[i].name == name;
        assert grown.mounts[i].name == name;
      }
    }
    forall name
      ensures MountedBy(more, name) <==> MountedBy(containers, name) || name == m.name
    {
      if MountedBy(containers, name) {
        var i :| 0 <= i < |containers| && Mounts(containers[i], name);
        assert Mounts(more[i], name);
      }
      assert more[k] == grown;
      if MountedBy(more, name) {
        var i :| 0 <= i < |more| && Mounts(more[i], name);
        assert i != k ==> containers[i] == more[i];
      }
    }
  }

  // ---- Deleting claims ---------------------------------------------------------------------------------------

  /** Some container mounts a known template that must be retained and whose claim has this name. */
  ghost predicate MustRetain(
    containers: seq<Container>, policies: map<string, Policy>, statefulSet: string, pvc: string)
  {
    exists name :: name in policies && policies[name] == Retain && MountedBy(containers, name) &&
      pvc == Names.PVCName(name, statefulSet)
  }

  ghost predicate RetainedSofar(mounts: seq<Mount>, policies: map<string, Policy>, statefulSet: string, pvc: string) {
    exists i :: 0 <= i < |mounts| && Retains(mounts[i].name, policies, statefulSet, pvc)
  }

  predicate Retains(name: string, policies: map<string, Policy>, statefulSet: string, pvc: string) {
    name in policies && policies[name] == Retain && pvc == Names.PVCName(name, statefulSet)
  }

  /** The mounts of all containers, in the order of WalkVolumeMounts. */
  function AllMounts(containers: seq<Container>): seq<Mount> {
    if containers == [] then [] else AllMounts(containers[..|containers| - 1]) + containers[|containers| - 1].mounts
  }

  lemma {:induction false} AllMountsAreMounted(containers: seq<Container>, name: string)
    ensures MountedBy(containers, name) <==>
              exists i :: 0 <= i < |AllMounts(containers)| && AllMounts(containers)[i].name == name
  {
    if containers != [] {
      var before, last := containers[..|containers| - 1], containers[|containers| - 1];
      AllMountsAreMounted(before, name);
      MountedByNext(before, last);
      assert containers == before + [last];
      var all := AllMounts(containers);
      if Mounts(last, name) {
        var i :| 0 <= i < |last.mounts| && last.mounts[i].name == name;
        assert all[|AllMounts(before)| + i].name == name;
      }
      if i :| 0 <= i < |AllMounts(before)| && AllMounts(before)[i].name == name {
        assert all[i].name == name;
      }
      if i :| 0 <= i < |all| && all[i].name == name {
        assert i >= |AllMounts(before)| ==> last.mounts[i - |AllMounts(before)|].name == name;
      }
    }
  }

  /** HostCanDeletePVC: the last mount whose template makes a claim of this name decides, and no two templates
      make claims of one name, so a claim is kept exactly when its own template is mounted and says so. */
  method HostCanDeletePVC(containers: seq<Container>, policies: map<string, Policy>, statefulSet: string, pvc: string)
    returns (can: bool)
    ensures can <==> !MustRetain(containers, policies, statefulSet, pvc)
  {
    var policy := Delete;
    var mounts := AllMounts(containers);
    for i := 0 to |mounts|
      invariant policy == Retain <==> RetainedSofar(mounts[..i], policies, statefulSet, pvc)
    {
      RetainedNext(mounts, i, policies, statefulSet, pvc);
      var name := mounts[i].name;
      if name in policies && pvc == Names.PVCName(name, statefulSet) {
        OneTemplate(mounts[..i], name, policies, statefulSet, pvc);
        policy := policies[name];
      }
    }
    can := policy == Delete;
    assert mounts[..|mounts|] == mounts;
    RetainedIsMustRetain(containers, policies, statefulSet, pvc);
  }

  lemma {:induction false} RetainedNext(
    mounts: seq<Mount>, i: nat, policies: map<string, Policy>, statefulSet: string, pvc: string)
    requires i < |mounts|
    ensures RetainedSofar(mounts[..i + 1], policies, statefulSet, pvc) <==>
            RetainedSofar(mounts[..i], policies, statefulSet, pvc) ||
            Retains(mounts[i].name, policies, statefulSet, pvc)
  {
    if RetainedSofar(mounts[..i], policies, statefulSet, pvc) {
      var j :| 0 <= j < i && Retains(mounts[j].name, policies, statefulSet, pvc);
      assert mounts[..i + 1][j] == mounts[j];
    }
    assert mounts[..i + 1][i] == mounts[i];
  }

  lemma {:induction false} OneTemplate(
    mounts: seq<Mount>, name: string, policies: map<string, Policy>, statefulSet: string, pvc: string)
    requires name in policies && pvc == Names.PVCName(name, statefulSet)
    ensures RetainedSofar(mounts, policies, statefulSet, pvc) ==> policies[name] == Retain
  {
    if RetainedSofar(mounts, policies, statefulSet, pvc) {
      var j :| 0 <= j < |mounts| && Retains(mounts[j].name, policies, statefulSet, pvc);
      Names.PVCNameDetermines(mounts[j].name, name, statefulSet);
    }
  }

  lemma {:induction false} RetainedIsMustRetain(
    containers: seq<Container>, policies: map<string, Policy>, statefulSet: string, pvc: string)
    ensures RetainedSofar(AllMounts(containers), policies, statefulSet, pvc) <==>
              MustRetain(containers, policies, statefulSet, pvc)
  {
    var mounts := AllMounts(containers);
    if RetainedSofar(mounts, policies, statefulSet, pvc) {
      var j :| 0 <= j < |mounts| && Retains(mounts[j].name, policies, statefulSet, pvc);
      AllMountsAreMounted(containers, mounts[j].name);
    }
    if MustRetain(containers, policies, statefulSet, pvc) {
      var name :| name in policies && policies[name] == Retain && MountedBy(containers, name) &&
                    pvc == Names.PVCName(name, statefulSet);
      AllMountsAreMounted(containers, name);
      var i :| 0 <= i < |mounts| && mounts[i].name == name;
      assert Retains(mounts[i].name, policies, statefulSet, pvc);
    }
  }

  /** The claim that a mounted template makes may be deleted exactly when the template's policy is Delete. */
  lemma {:induction false} OwnPolicyDecides(
    containers: seq<Container>, policies: map<string, Policy>, statefulSet: string, name: string)
    requires name in policies && MountedBy(containers, name)
    ensures MustRetain(containers, policies, statefulSet, Names.PVCName(name, statefulSet)) <==>
              policies[name] == Retain
  {
    if MustRetain(containers, policies, statefulSet, Names.PVCName(name, statefulSet)) {
      var other :| other in policies && policies[other] == Retain && MountedBy(containers, other) &&
                   Names.PVCName(name, statefulSet) == Names.PVCName(other, statefulSet);
      Names.PVCNameDetermines(name, other, statefulSet);
    }
  }
}
