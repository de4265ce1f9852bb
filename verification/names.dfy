/** Names of StatefulSets, pods and PVCs under the default patterns (namer.go). */
module Names {

  predicate IsTrimmed(c: char) {
    c == '-' || c == '_' || c == '.'
  }

  function TrimLeft(s: string): string {
    if s != "" && IsTrimmed(s[0]) then TrimLeft(s[1..]) else s
  }

  function TrimRight(s: string): string {
    if s != "" && IsTrimmed(s[|s| - 1]) then TrimRight(s[..|s| - 1]) else s
  }

  function Sanitize(s: string): string {
    TrimRight(TrimLeft(s))
  }

  /** util.StringHead */
  function Head(s: string, max: nat): string {
    if |s| <= max then s else s[..max]
  }

  /** strconv.Itoa */
  function Itoa(n: nat): (s: string)
    ensures s != "" && forall i :: 0 <= i < |s| ==> '0' <= s[i] <= '9'
  {
    if n < 10 then [Digit(n)] else Itoa(n / 10) + [Digit(n % 10)]
  }

  function Digit(d: nat): (c: char)
    requires d < 10
    ensures '0' <= c <= '9'
  {
    '0' + d as char
  }

  lemma {:induction false} ItoaIsInjective(m: nat, n: nat)
    requires Itoa(m) == Itoa(n)
    ensures m == n
  {
    var s, t := Itoa(m), Itoa(n);
    assert s[|s| - 1] == Digit(m % 10) && t[|t| - 1] == Digit(n % 10);
    if m >= 10 && n >= 10 {
      assert s[..|s| - 1] == Itoa(m / 10) && t[..|t| - 1] == Itoa(n / 10);
      ItoaIsInjective(m / 10, n / 10);
    }
  }

  // ---- Names of one installation ------------------------------------------------------------------------

  const CHI_LENGTH := 60
  const CLUSTER_LENGTH := 15
  const HOST_LENGTH := 15

  function ClusterPart(cluster: string): string {
    Sanitize(Head(cluster, CLUSTER_LENGTH))
  }

  function HostPart(host: string): string {
    Sanitize(Head(host, HOST_LENGTH))
  }

  /** CreateHostName, for a shard and a replica with generated names. */
  function HostName(shard: nat, replica: nat): string {
    Itoa(shard) + "-" + Itoa(replica)
  }

  /** CreateStatefulSetName with the default pattern. */
  function StatefulSetName(chi: string, cluster: string, host: string): string {
    "chi-" + Sanitize(Head(chi, CHI_LENGTH)) + "-" + ClusterPart(cluster) + "-" + HostPart(host)
  }

  /** CreatePodName */
  function PodName(statefulSet: string): string {
    statefulSet + "-0"
  }

  /** CreatePVCName */
  function PVCName(template: string, statefulSet: string): string {
    template + "-" + PodName(statefulSet)
  }

  predicate NoDash(s: string) {
    forall i :: 0 <= i < |s| ==> s[i] != '-'
  }

  /** What follows the last dash, and what comes before it. */
  lemma {:induction false} LastDash(a: string, d: string, b: string, e: string)
    requires NoDash(d) && NoDash(e)
    requires a + "-" + d == b + "-" + e
    ensures a == b && d == e
  {
    var s, t := a + "-" + d, b + "-" + e;
    assert s[|a|] == '-' && t[|b|] == '-';
    assert forall i :: |a| < i < |s| ==> s[i] == d[i - |a| - 1];
    assert forall i :: |b| < i < |t| ==> t[i] == e[i - |b| - 1];
    assert |a| == |b|;
    assert s[..|a|] == a && t[..|b|] == b;
    assert s[|a| + 1..] == d && t[|b| + 1..] == e;
  }

  lemma {:induction false} SanitizeKeeps(s: string)
    requires s != "" && !IsTrimmed(s[0]) && !IsTrimmed(s[|s| - 1])
    ensures Sanitize(s) == s
  {
  }

  /** A generated host name of at most 15 characters is its own part. */
  lemma {:induction false} GeneratedHostPart(shard: nat, replica: nat)
    requires |HostName(shard, replica)| <= HOST_LENGTH
    ensures HostPart(HostName(shard, replica)) == HostName(shard, replica)
  {
    var name := HostName(shard, replica);
    assert name[0] == Itoa(shard)[0];
    assert name[|name| - 1] == Itoa(replica)[|Itoa(replica)| - 1];
    SanitizeKeeps(name);
  }

  /** Two hosts of an installation, with generated names of at most 15 characters, have the same StatefulSet
      name exactly when they are at the same place in clusters whose parts are the same. */
  lemma {:induction false} StatefulSetNameDetermines(
    chi: string, cluster: string, shard: nat, replica: nat, cluster': string, shard': nat, replica': nat)
    requires |HostName(shard, replica)| <= HOST_LENGTH && |HostName(shard', replica')| <= HOST_LENGTH
    ensures StatefulSetName(chi, cluster, HostName(shard, replica)) ==
            StatefulSetName(chi, cluster', HostName(shard', replica')) <==>
            ClusterPart(cluster) == ClusterPart(cluster') && shard == shard' && replica == replica'
  {
    GeneratedHostPart(shard, replica);
    GeneratedHostPart(shard', replica');
    var prefix := "chi-" + Sanitize(Head(chi, CHI_LENGTH)) + "-";
    var a, b := prefix + ClusterPart(cluster), prefix + ClusterPart(cluster');
    if StatefulSetName(chi, cluster, HostName(shard, replica)) ==
       StatefulSetName(chi, cluster', HostName(shard', replica')) {
      SplitName(a, shard, replica, b, shard', replica');
      assert a[|prefix|..] == ClusterPart(cluster) && b[|prefix|..] == ClusterPart(cluster');
    }
  }

  lemma {:induction false} SplitName(a: string, shard: nat, replica: nat, b: string, shard': nat, replica': nat)
    requires a + "-" + HostName(shard, replica) == b + "-" + HostName(shard', replica')
    ensures a == b && shard == shard' && replica == replica'
  {
    var c, d := a + "-" + Itoa(shard), b + "-" + Itoa(shard');
    assert a + "-" + HostName(shard, replica) == c + "-" + Itoa(replica);
    assert b + "-" + HostName(shard', replica') == d + "-" + Itoa(replica');
    LastDash(c, Itoa(replica), d, Itoa(replica'));
    LastDash(a, Itoa(shard), b, Itoa(shard'));
    ItoaIsInjective(replica, replica');
    ItoaIsInjective(shard, shard');
  }

  /** Clusters with sanitised names of at most 15 characters are told apart by the names of their StatefulSets. */
  lemma {:induction false} StatefulSetsAreDistinct(
    chi: string, cluster: string, shard: nat, replica: nat, cluster': string, shard': nat, replica': nat)
    requires |HostName(shard, replica)| <= HOST_LENGTH && |HostName(shard', replica')| <= HOST_LENGTH
    requires |cluster| <= CLUSTER_LENGTH && Sanitize(cluster) == cluster
    requires |cluster'| <= CLUSTER_LENGTH && Sanitize(cluster') == cluster'
    requires (cluster, shard, replica) != (cluster', shard', replica')
    ensures StatefulSetName(chi, cluster, HostName(shard, replica)) !=
            StatefulSetName(chi, cluster', HostName(shard', replica'))
  {
    StatefulSetNameDetermines(chi, cluster, shard, replica, cluster', shard', replica');
  }

  /** The name of a cluster counts up to its fifteenth character only. */
  lemma {:induction false} LongClusterNamesCollide(chi: string, stem: string, x: string, y: string, host: string)
    requires |stem| >= CLUSTER_LENGTH
    ensures StatefulSetName(chi, stem + x, host) == StatefulSetName(chi, stem + y, host)
  {
    assert (stem + x)[..CLUSTER_LENGTH] == stem[..CLUSTER_LENGTH] == (stem + y)[..CLUSTER_LENGTH];
    assert Head(stem + x, CLUSTER_LENGTH) == stem[..CLUSTER_LENGTH] == Head(stem + y, CLUSTER_LENGTH);
  }

  /** The longer of the two cluster parts goes on, after a dash, with what the other host part starts with. */
  predicate Overlaps(cluster: string, host: string, longer: string, shorter: string, x: string) {
    longer == cluster + "-" + x && host == x + "-" + shorter
  }

  lemma {:induction false} SplitAtDash(a: string, b: string, c: string, d: string) returns (x: string)
    requires a + "-" + b == c + "-" + d && |a| < |c|
    ensures Overlaps(a, b, c, d, x)
  {
    var s, t := a + "-" + b, c + "-" + d;
    x := c[|a| + 1..];
    assert c == t[..|c|] && s[..|a|] == a && s[|a|] == '-';
    assert c == c[..|a|] + [c[|a|]] + x;
    assert b == s[|a| + 1..] && d == t[|c| + 1..];
    assert b == t[|a| + 1..|c|] + [t[|c|]] + d;
    assert x == t[|a| + 1..|c|];
  }

  lemma {:induction false} OverlapsJoin(a: string, b: string, c: string, d: string, x: string)
    requires Overlaps(a, b, c, d, x)
    ensures a + "-" + b == c + "-" + d
  {
    assert a + "-" + (x + "-" + d) == (a + "-" + x) + "-" + d;
  }

  /** For any names at all, explicit or generated: two StatefulSets of an installation have the same name
      exactly when their parts are the same, or the part of one cluster is that of the other, a dash and some x,
      and the other host's part is this x, a dash and the one host's part. */
  lemma {:induction false} StatefulSetNamesCollide(
    chi: string, cluster: string, host: string, cluster': string, host': string)
    ensures var c, h, c', h' := ClusterPart(cluster), HostPart(host), ClusterPart(cluster'), HostPart(host');
            StatefulSetName(chi, cluster, host) == StatefulSetName(chi, cluster', host') <==>
            || (c == c' && h == h')
            || (exists x :: Overlaps(c, h, c', h', x))
            || (exists x :: Overlaps(c', h', c, h, x))
  {
    var c, h, c', h' := ClusterPart(cluster), HostPart(host), ClusterPart(cluster'), HostPart(host');
    var prefix := "chi-" + Sanitize(Head(chi, CHI_LENGTH)) + "-";
    var tail, tail' := c + "-" + h, c' + "-" + h';
    var name, name' := StatefulSetName(chi, cluster, host), StatefulSetName(chi, cluster', host');
    assert name == prefix + tail && name' == prefix + tail';
    assert name[|prefix|..] == tail && name'[|prefix|..] == tail';
    if tail == tail' {
      if |c| < |c'| {
        var x := SplitAtDash(c, h, c', h');
      } else if |c'| < |c| {
        var x := SplitAtDash(c', h', c, h);
      } else {
        assert tail[..|c|] == c && tail'[..|c'|] == c' && tail[|c| + 1..] == h && tail'[|c'| + 1..] == h';
      }
    }
    if x :| Overlaps(c, h, c', h', x) {
      OverlapsJoin(c, h, c', h', x);
    }
    if x :| Overlaps(c', h', c, h, x) {
      OverlapsJoin(c', h', c, h, x);
    }
  }

  /** An explicit host name can collide with a generated one of another cluster. */
  lemma {:induction false} ExplicitHostNamesMayCollide(chi: string)
    ensures StatefulSetName(chi, "a", "b-0-0") == StatefulSetName(chi, "a-b", HostName(0, 0))
  {
    assert Itoa(0) == "0";
    GeneratedHostPart(0, 0);
    SanitizeKeeps("b-0-0");
    SanitizeKeeps("a");
    SanitizeKeeps("a-b");
    var prefix := "chi-" + Sanitize(Head(chi, CHI_LENGTH)) + "-";
    assert prefix + "a" + "-" + "b-0-0" == prefix + "a-b" + "-" + "0-0";
  }

  /** The claims of one pod are told apart by their templates. */
  lemma {:induction false} PVCNameDetermines(template: string, template': string, statefulSet: string)
    ensures PVCName(template, statefulSet) == PVCName(template', statefulSet) <==> template == template'
  {
    if PVCName(template, statefulSet) == PVCName(template', statefulSet) {
      assert |template| == |template'|;
      assert PVCName(template, statefulSet)[..|template|] == template;
      assert PVCName(template', statefulSet)[..|template'|] == template';
    }
  }

  // ---- The parts of names, told without their definitions ------------------------------------------------

  /** The value of a string of digits. */
  function Value(digits: string): int {
    if digits == "" then 0 else 10 * Value(digits[..|digits| - 1]) + (digits[|digits| - 1] as int - '0' as int)
  }

  /** Reading the digits back gives the number. */
  lemma {:induction false} ItoaReadsBack(n: nat)
    ensures Value(Itoa(n)) == n
  {
    var s := Itoa(n);
    if n >= 10 {
      ItoaReadsBack(n / 10);
      assert s[..|s| - 1] == Itoa(n / 10);
    } else {
      assert s[..|s| - 1] == "";
    }
  }

  /** What is cut off consists of dashes, underscores and dots, and what is left neither starts nor ends with one. */
  lemma {:induction false} SanitizeTrims(s: string) returns (left: string, right: string)
    ensures s == left + Sanitize(s) + right
    ensures forall c :: c in left || c in right ==> c in "-_."
    ensures Sanitize(s) != "" ==> Sanitize(s)[0] !in "-_." && Sanitize(s)[|Sanitize(s)| - 1] !in "-_."
  {
    left := TrimLeftCuts(s);
    right := TrimRightCuts(TrimLeft(s));
    assert Sanitize(s) != "" ==> Sanitize(s)[0] == TrimLeft(s)[0];
  }

  lemma {:induction false} TrimLeftCuts(s: string) returns (left: string)
    ensures s == left + TrimLeft(s) && forall c :: c in left ==> c in "-_."
    ensures TrimLeft(s) != "" ==> TrimLeft(s)[0] !in "-_."
  {
    if s != "" && IsTrimmed(s[0]) {
      var rest := TrimLeftCuts(s[1..]);
      left := [s[0]] + rest;
      assert s == [s[0]] + s[1..];
    } else {
      left := "";
    }
  }

  lemma {:induction false} TrimRightCuts(s: string) returns (right: string)
    ensures s == TrimRight(s) + right && forall c :: c in right ==> c in "-_."
    ensures TrimRight(s) != "" ==> TrimRight(s)[|TrimRight(s)| - 1] !in "-_."
  {
    if s != "" && IsTrimmed(s[|s| - 1]) {
      var rest := TrimRightCuts(s[..|s| - 1]);
      right := rest + [s[|s| - 1]];
      assert s == s[..|s| - 1] + [s[|s| - 1]];
    } else {
      right := "";
    }
  }

  /** The names under the default patterns, for parts that are short and need no trimming. */
  lemma {:induction false} NamesByPattern(chi: string, cluster: string, shard: nat, replica: nat, template: string)
    requires |chi| <= 60 && Sanitize(chi) == chi && |cluster| <= 15 && Sanitize(cluster) == cluster
    requires |Itoa(shard) + "-" + Itoa(replica)| <= 15
    ensures var name := "chi-" + chi + "-" + cluster + "-" + Itoa(shard) + "-" + Itoa(replica);
            && StatefulSetName(chi, cluster, HostName(shard, replica)) == name
            && PodName(name) == name + "-0"
            && PVCName(template, name) == template + "-" + name + "-0"
  {
    GeneratedHostPart(shard, replica);
    var prefix := "chi-" + chi + "-" + cluster + "-";
    assert prefix + (Itoa(shard) + "-" + Itoa(replica)) == prefix + Itoa(shard) + "-" + Itoa(replica);
    var name := prefix + Itoa(shard) + "-" + Itoa(replica);
    assert template + "-" + (name + "-0") == template + "-" + name + "-0";
  }

  /** Longer parts are cut first, to 60 and 15 characters. */
  lemma {:induction false} LongPartsAreCut(chi: string, cluster: string, host: string)
    ensures |chi| > 60 ==> StatefulSetName(chi, cluster, host) == StatefulSetName(chi[..60], cluster, host)
    ensures |cluster| > 15 ==> StatefulSetName(chi, cluster, host) == StatefulSetName(chi, cluster[..15], host)
    ensures |host| > 15 ==> StatefulSetName(chi, cluster, host) == StatefulSetName(chi, cluster, host[..15])
  {
  }
}
