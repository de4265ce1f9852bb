/** Running SQL statements on the hosts of a cluster (clickhouse/cluster.go), with retries (util/retry/retry.go). */
module SqlExec {

  /** AlreadyExists is an error whose text has "Code: 253,"; Canceled is context.Canceled. */
  datatype Err = Nil | AlreadyExists | Canceled | Failure

  /** One call of Connection.Exec on behalf of a slot of the slice of statements. */
  datatype Call = Call(host: nat, slot: nat, sql: string, err: Err)

  const CREATE := "CREATE TABLE"
  const ATTACH := "ATTACH TABLE"

  predicate StartsWith(s: string, prefix: string) {
    |prefix| <= |s| && s[..|prefix|] == prefix
  }

  predicate Contains(s: string, part: string) {
    StartsWith(s, part) || (s != "" && Contains(s[1..], part))
  }

  /** Every CREATE TABLE replaced, from left to right. */
  function Attached(s: string): string {
    if s == "" then ""
    else if StartsWith(s, CREATE) then ATTACH + Attached(s[|CREATE|..])
    else [s[0]] + Attached(s[1..])
  }

  // ---- The log of calls ------------------------------------------------------------------------------

  /** Call k sends the statement of its slot; or attaches, right after creating failed for a known replica. */
  predicate Sends(original: seq<string>, hosts: nat, log: seq<Call>, k: nat)
    requires k < |log|
  {
    && log[k].slot < |original| && log[k].host < hosts
    && original[log[k].slot] != ""
    && (|| log[k].sql == original[log[k].slot]
        || (&& k > 0
            && log[k].sql == Attached(original[log[k].slot])
            && log[k - 1] == Call(log[k].host, log[k].slot, original[log[k].slot], AlreadyExists)
            && Contains(original[log[k].slot], CREATE)))
  }

  predicate Succeeded(log: seq<Call>, slot: nat) {
    exists k :: 0 <= k < |log| && log[k].slot == slot && log[k].err == Nil
  }

  predicate SucceededOn(log: seq<Call>, host: nat, slot: nat) {
    exists k :: 0 <= k < |log| && log[k].host == host && log[k].slot == slot && log[k].err == Nil
  }

  /** The log of a run: only statements are sent, and none again once it has succeeded anywhere. */
  ghost predicate Proper(original: seq<string>, hosts: nat, log: seq<Call>) {
    && (forall k :: 0 <= k < |log| ==> Sends(original, hosts, log, k))
    && (forall j, k :: 0 <= j < k < |log| && log[j].slot == log[k].slot ==> log[j].err != Nil)
  }

  /** Since entry `from` the statement of the slot was sent to the host. */
  ghost predicate Tried(log: seq<Call>, from: nat, host: nat, slot: int) {
    exists k :: from <= k < |log| && log[k].host == host && log[k].slot == slot
  }

  /** Since entry `from` some call for the slot ended with this error. */
  ghost predicate FailedWith(log: seq<Call>, from: nat, slot: int, err: Err) {
    exists k :: from <= k < |log| && log[k].slot == slot && log[k].err == err
  }

  ghost predicate SomeCanceled(log: seq<Call>, from: nat) {
    exists k :: from <= k < |log| && log[k].err == Canceled
  }

  lemma {:induction false} ProperNext(original: seq<string>, hosts: nat, log: seq<Call>, call: Call)
    requires Proper(original, hosts, log) && Sends(original, hosts, log + [call], |log|)
    requires !Succeeded(log, call.slot)
    ensures Proper(original, hosts, log + [call])
    ensures forall s: nat :: Succeeded(log + [call], s) <==> Succeeded(log, s) || (s == call.slot && call.err == Nil)
  {
    var next := log + [call];
    forall k | 0 <= k < |log|
      ensures Sends(original, hosts, next, k)
    {
      assert Sends(original, hosts, log, k);
    }
    forall s: nat
      ensures Succeeded(next, s) <==> Succeeded(log, s) || (s == call.slot && call.err == Nil)
    {
      if k :| 0 <= k < |log| && log[k].slot == s && log[k].err == Nil {
        assert next[k].slot == s && next[k].err == Nil;
      }
      if s == call.slot && call.err == Nil {
        assert next[|log|].slot == s && next[|log|].err == Nil;
      }
    }
  }

  predicate SuccessAt(log: seq<Call>, k: int, slot: nat) {
    0 <= k < |log| && log[k].slot == slot && log[k].err == Nil
  }

  /** No statement succeeds on two hosts, nor twice on one. */
  lemma {:induction false} SucceedsAtMostOnce(
    original: seq<string>, hosts: nat, log: seq<Call>, host: nat, other: nat, slot: nat)
    requires Proper(original, hosts, log)
    requires SucceededOn(log, host, slot) && SucceededOn(log, other, slot)
    ensures host == other
    ensures forall j, k :: SuccessAt(log, j, slot) && SuccessAt(log, k, slot) ==> j == k
  {
    var j :| 0 <= j < |log| && log[j].host == host && log[j].slot == slot && log[j].err == Nil;
    var k :| 0 <= k < |log| && log[k].host == other && log[k].slot == slot && log[k].err == Nil;
    if j < k || k < j {
      assert false;
    }
  }

  /** What the documentation of ExecAll promises: every statement is run on every host. */
  predicate RunsEverywhere(original: seq<string>, log: seq<Call>, hosts: nat) {
    forall h, i :: 0 <= h < hosts && 0 <= i < |original| && original[i] != "" ==> SucceededOn(log, h, i)
  }

  predicate AllEmpty(original: seq<string>) {
    forall i :: 0 <= i < |original| ==> original[i] == ""
  }

  /** The log when each statement succeeds at once on the first host. */
  function AtOnce(original: seq<string>): seq<Call> {
    if original == [] then []
    else
      var last := |original| - 1;
      var before := AtOnce(original[..last]);
      if original[last] == "" then before else before + [Call(0, last, original[last], Nil)]
  }

  lemma {:induction false} AtOnceIsProper(original: seq<string>, hosts: nat)
    requires hosts > 0
    ensures Proper(original, hosts, AtOnce(original)) && RunsEverywhere(original, AtOnce(original), 1)
  {
    if original != [] {
      var last := |original| - 1;
      var front, before, log := original[..last], AtOnce(original[..last]), AtOnce(original);
      AtOnceIsProper(front, hosts);
      forall k | 0 <= k < |log|
        ensures Sends(original, hosts, log, k)
        ensures k < |before| ==> log[k].slot < last
      {
        assert k < |before| ==> Sends(front, hosts, before, k);
      }
      forall i | 0 <= i < |original| && original[i] != ""
        ensures SucceededOn(log, 0, i)
      {
        if i < last {
          assert front[i] != "" && SucceededOn(before, 0, i);
          var k :| 0 <= k < |before| && before[k].host == 0 && before[k].slot == i && before[k].err == Nil;
          assert log[k] == before[k];
        } else {
          assert log[|log| - 1].slot == i;
        }
      }
    }
  }

  /** Since the hosts share one slice, whose slots are blanked, the promise can be kept exactly when there is
      at most one host, or nothing to run. */
  lemma {:induction false} RunsEverywhereOnlyOnOneHost(original: seq<string>, hosts: nat)
    ensures (exists log :: Proper(original, hosts, log) && RunsEverywhere(original, log, hosts)) <==>
            hosts <= 1 || AllEmpty(original)
  {
    if hosts <= 1 || AllEmpty(original) {
      assert Proper(original, hosts, []);
      if hosts > 0 {
        AtOnceIsProper(original, hosts);
      }
      var log := if hosts > 0 then AtOnce(original) else [];
      assert Proper(original, hosts, log) && RunsEverywhere(original, log, hosts);
    } else {
      forall log | Proper(original, hosts, log)
        ensures !RunsEverywhere(original, log, hosts)
      {
        NotOnTwoHosts(original, log, hosts);
      }
    }
  }

  lemma {:induction false} NotOnTwoHosts(original: seq<string>, log: seq<Call>, hosts: nat)
    requires Proper(original, hosts, log) && hosts > 1 && !AllEmpty(original)
    ensures !RunsEverywhere(original, log, hosts)
  {
    var i :| 0 <= i < |original| && original[i] != "";
    if RunsEverywhere(original, log, hosts) {
      assert SucceededOn(log, 0, i) && SucceededOn(log, 1, i);
      SucceedsAtMostOnce(original, hosts, log, 0, 1, i);
    }
  }

  /** A log in which every statement has succeeded keeps the promise exactly when there is at most one host, or
      nothing to run. */
  lemma {:induction false} CompleteLogOnHosts(original: seq<string>, log: seq<Call>, hosts: nat)
    requires Proper(original, hosts, log)
    requires forall i :: 0 <= i < |original| && original[i] != "" ==> Succeeded(log, i)
    ensures RunsEverywhere(original, log, hosts) <==> hosts <= 1 || AllEmpty(original)
  {
    if hosts > 1 && !AllEmpty(original) {
      NotOnTwoHosts(original, log, hosts);
    } else {
      forall h, i | 0 <= h < hosts && 0 <= i < |original| && original[i] != ""
        ensures SucceededOn(log, h, i)
      {
        var k :| 0 <= k < |log| && log[k].slot == i && log[k].err == Nil;
        assert Sends(original, hosts, log, k);
      }
    }
  }

  /** A blank slot stays blank. */
  ghost predicate BlanksStay(slots: seq<string>, later: seq<string>) {
    |slots| == |later| && forall i :: 0 <= i < |slots| && slots[i] == "" ==> later[i] == ""
  }

  /** As a log grows what has succeeded stays so, and once everything has, nothing more is sent. */
  lemma {:induction false} SentOnlyWhatIsLeft(original: seq<string>, hosts: nat, log: seq<Call>, longer: seq<Call>)
    requires Proper(original, hosts, longer) && log <= longer
    ensures forall i: nat :: Succeeded(log, i) ==> Succeeded(longer, i)
    ensures (forall i :: 0 <= i < |original| && original[i] != "" ==> Succeeded(log, i)) ==> longer == log
  {
    forall i: nat | Succeeded(log, i)
      ensures Succeeded(longer, i)
    {
      var k :| 0 <= k < |log| && log[k].slot == i && log[k].err == Nil;
      assert longer[k] == log[k];
    }
    if |log| < |longer| {
      assert Sends(original, hosts, longer, |log|);
      assert forall k :: 0 <= k < |log| ==> log[k] == longer[k];
      assert !Succeeded(log, longer[|log|].slot);
    }
  }

  lemma {:induction false} LogGrew(log: seq<Call>, longer: seq<Call>)
    requires log <= longer
    ensures SomeCanceled(log, 0) ==> SomeCanceled(longer, 0)
    ensures forall h, i :: Tried(log, 0, h, i) ==> Tried(longer, 0, h, i)
    ensures forall i, e :: FailedWith(log, 0, i, e) ==> FailedWith(longer, 0, i, e)
  {
    SendingMore(log, longer, 0, 0);
    forall h, i | Tried(log, 0, h, i)
      ensures Tried(longer, 0, h, i)
    {
      var k :| 0 <= k < |log| && log[k].host == h && log[k].slot == i;
      assert longer[k] == log[k];
    }
    if SomeCanceled(log, 0) {
      var k :| 0 <= k < |log| && log[k].err == Canceled;
      assert longer[k] == log[k];
    }
  }

  /** Each statement that is not blank was sent to each of the first n hosts that has a connection. */
  ghost predicate TriedOnAll(log: seq<Call>, slots: seq<string>, connected: seq<bool>, n: nat) {
    forall h: nat, i :: h < n <= |connected| && connected[h] && 0 <= i < |slots| && slots[i] != "" ==>
      Tried(log, 0, h, i)
  }

  lemma {:induction false} TriedOnNext(
    log: seq<Call>, longer: seq<Call>, slots: seq<string>, later: seq<string>, connected: seq<bool>, n: nat)
    requires n < |connected| && TriedOnAll(log, slots, connected, n) && log <= longer
    requires BlanksStay(slots, later)
    requires connected[n] ==> forall i :: 0 <= i < |later| && later[i] != "" ==> Tried(longer, 0, n, i)
    ensures TriedOnAll(longer, later, connected, n + 1)
  {
    LogGrew(log, longer);
  }

  lemma {:induction false} SendingMore(log: seq<Call>, longer: seq<Call>, from: nat, host: nat)
    requires log <= longer
    ensures forall i :: Tried(log, from, host, i) ==> Tried(longer, from, host, i)
    ensures forall i, e :: FailedWith(log, from, i, e) ==> FailedWith(longer, from, i, e)
  {
    forall i | Tried(log, from, host, i)
      ensures Tried(longer, from, host, i)
    {
      var k :| from <= k < |log| && log[k].host == host && log[k].slot == i;
      assert longer[k] == log[k];
    }
    forall i, e | FailedWith(log, from, i, e)
      ensures FailedWith(longer, from, i, e)
    {
      var k :| from <= k < |log| && log[k].slot == i && log[k].err == e;
      assert longer[k] == log[k];
    }
  }

  lemma {:induction false} SentSince(log: seq<Call>, from: nat, earlier: nat, host: nat, err: Err)
    requires earlier <= from
    ensures forall i :: Tried(log, from, host, i) ==> Tried(log, earlier, host, i)
    ensures forall i :: FailedWith(log, from, i, err) ==> FailedWith(log, earlier, i, err)
    ensures SomeCanceled(log, from) ==> SomeCanceled(log, earlier)
  {
  }

  // ---- Running ---------------------------------------------------------------------------------------

  /** The seconds Retry has asked to wait, and the calls it has made. */
  datatype Effort = Effort(calls: nat, seconds: nat)

  /** The sum of the waits between this many calls. */
  function Waits(calls: nat): nat {
    if calls < 2 then 0 else Waits(calls - 1) + 5 * (calls - 1)
  }

  /** Waits grow by five seconds each, so k calls ask to wait 5 * k * (k - 1) / 2 seconds. */
  lemma {:induction false} WaitsOf(calls: nat)
    ensures 2 * Waits(calls) == 5 * calls * (calls - 1)
  {
    if calls >= 2 {
      WaitsOf(calls - 1);
    }
  }

  /** One call of ExecAll. */
  class Run {
    const queries: array<string>  // shared by all hosts
    const hosts: nat              // of the cluster
    var done: bool                // the context
    ghost const original: seq<string>
    ghost var log: seq<Call>

    constructor (queries: array<string>, hosts: nat)
      ensures this.queries == queries && this.hosts == hosts && original == queries[..] && log == []
      ensures Valid()
    {
      this.queries, this.hosts, done := queries, hosts, *;
      original, log := queries[..], [];
    }

    /** A slot is blank when its statement was blank, or has succeeded. */
    ghost predicate Valid()
      reads this, queries
    {
      && queries.Length == |original|
      && Proper(original, hosts, log)
      && forall i :: 0 <= i < |original| ==> queries[i] == if Succeeded(log, i) then "" else original[i]
    }

    ghost predicate AllBlank()
      reads queries
    {
      forall i :: 0 <= i < queries.Length ==> queries[i] == ""
    }

    /** What every step keeps: the context stays done and the log grows. With Valid, blank slots stay blank. */
    twostate predicate Onward()
      reads this
    {
      (old(done) ==> done) && old(log) <= log
    }

    method IsDone() returns (b: bool)
      modifies this`done
      ensures b == done && (old(done) ==> done)
    {
      if !done {
        done := *;
      }
      b := done;
    }

    /** Connection.Exec for the statement of a slot. */
    method Send(host: nat, i: nat, sql: string) returns (err: Err)
      requires Valid() && i < queries.Length && queries[i] != "" && !Succeeded(log, i)
      requires Sends(original, hosts, log + [Call(host, i, sql, Nil)], |log|)
      modifies this`log
      ensures log == old(log) + [Call(host, i, sql, err)]
      ensures Proper(original, hosts, log)
      ensures forall s: nat :: Succeeded(log, s) <==> Succeeded(old(log), s) || (s == i && err == Nil)
    {
      err := *;
      ghost var call := Call(host, i, sql, err);
      assert Sends(original, hosts, log + [call], |log|) by {
        assert Sends(original, hosts, log + [Call(host, i, sql, Nil)], |log|);
        assert |log| > 0 ==> (log + [call])[|log| - 1] == (log + [Call(host, i, sql, Nil)])[|log| - 1];
      }
      ProperNext(original, hosts, log, call);
      log := log + [call];
    }

    /** One statement: sent, attached instead when it creates a table that is already known, and blanked on success. */
    method ExecSlot(host: nat, i: nat) returns (err: Err)
      requires Valid() && host < hosts && i < queries.Length && queries[i] != ""
      modifies this`log, queries
      ensures Valid() && old(log) < log && log[|log| - 1].err == err
      ensures forall k :: |old(log)| <= k < |log| ==> log[k].host == host && log[k].slot == i
      ensures var first := log[|old(log)|];
              && first.sql == original[i]
              && if first.err == AlreadyExists && Contains(original[i], CREATE)
                 then |log| == |old(log)| + 2 && log[|log| - 1].sql == Attached(original[i])
                 else |log| == |old(log)| + 1
      ensures forall j :: 0 <= j < queries.Length && j != i ==> queries[j] == old(queries[j])
      ensures queries[i] == if err == Nil then "" else original[i]
    {
      var sql := queries[i];
      assert sql == original[i];
      err := Send(host, i, sql);
      if err == AlreadyExists && Contains(sql, CREATE) {
        var attach := Attached(sql);
        assert (log + [Call(host, i, attach, Nil)])[|log| - 1] == Call(host, i, sql, AlreadyExists);
        err := Send(host, i, attach);
      }
      if err == Nil {
        queries[i] := "";
      }
    }

    /** The function that Retry is given: one pass over the slots, whose log began at entry `from`. */
    method Pass(host: nat, ghost from: nat) returns (err: Err)
      requires Valid() && host < hosts && from <= |log|
      modifies this`log, this`done, queries
      ensures Valid() && Onward()
      ensures err == Nil && !done ==> AllBlank()
      ensures err != Nil ==> FirstFailure(from, queries.Length, err)
      ensures !done ==> TriedAll(from, host)
    {
      err := Nil;
      ghost var f := 0;
      for i := 0 to queries.Length
        invariant Valid() && Onward()
        invariant forall j :: i <= j < queries.Length ==> queries[j] == old(queries[j])
        invariant err == Nil ==> forall j :: 0 <= j < i ==> queries[j] == ""
        invariant err != Nil ==> FailedAt(from, i, err, f)
        invariant forall j :: 0 <= j < i && old(queries[j]) != "" ==> Tried(log, from, host, j)
      {
        var stop := IsDone();
        if stop {
          return Nil;
        }
        if queries[i] == "" {
          continue;
        }
        ghost var before := log;
        var e := ExecSlot(host, i);
        SendingMore(before, log, from, host);
        assert log[|log| - 1].host == host && log[|log| - 1].slot == i;
        if e != Nil && err == Nil {
          err, f := e, i;
        }
      }
      assert err != Nil ==> FailedAt(from, queries.Length, err, f);
    }

    /** The first slot below n that is not blank failed with this error. */
    ghost predicate FirstFailure(from: nat, n: int, err: Err)
      reads this, queries
    {
      exists f :: FailedAt(from, n, err, f)
    }

    ghost predicate FailedAt(from: nat, n: int, err: Err, f: int)
      reads this, queries
    {
      && 0 <= f < n <= queries.Length && queries[f] != ""
      && (forall j :: 0 <= j < f ==> queries[j] == "")
      && FailedWith(log, from, f, err)
    }

    /** What is not blank was sent to the host. */
    ghost predicate TriedAll(from: nat, host: nat)
      reads this, queries
    {
      forall i :: 0 <= i < queries.Length && queries[i] != "" ==> Tried(log, from, host, i)
    }

    /** Retry, running Pass. */
    method Retry(host: nat, tries: int) returns (err: Err, effort: Effort)
      requires Valid() && host < hosts
      modifies this`log, this`done, queries
      ensures Valid() && Onward()
      ensures effort.calls <= if tries < 0 then 0 else tries
      ensures !done ==> effort.seconds == Waits(effort.calls)
      ensures !done && tries >= 1 ==> effort.calls >= 1 && (err == Nil <==> AllBlank())
      ensures err != Nil ==> effort.calls == tries >= 1 && FirstFailure(|old(log)|, queries.Length, err)
      ensures tries < 1 ==> err == Nil && log == old(log)
      ensures !done && tries >= 1 ==> TriedAll(|old(log)|, host)
    {
      err := Nil;
      var attempt, seconds := 1, 0;
      while attempt <= tries
        invariant Valid() && Onward()
        invariant 1 <= attempt && (attempt <= tries + 1 || attempt == 1)
        invariant attempt == 1 ==> err == Nil && log == old(log)
        invariant attempt > 1 ==> err != Nil && FirstFailure(|old(log)|, queries.Length, err)
        invariant attempt > 1 && !done ==> TriedAll(|old(log)|, host)
        invariant seconds == if attempt <= tries then Waits(attempt) else Waits(attempt - 1)
      {
        var stop := IsDone();
        if stop {
          return Nil, Effort(attempt - 1, seconds);
        }
        err := Pass(host, |old(log)|);
        if err == Nil {
          return Nil, Effort(attempt, seconds);
        }
        if attempt < tries {
          seconds := seconds + attempt * 5;
        }
        attempt := attempt + 1;
      }
      effort := Effort(attempt - 1, seconds);
    }

    /** Cluster.exec on one host; connected says whether the pool had a connection. */
    method ExecOn(host: nat, connected: bool, tries: int) returns (err: Err)
      requires Valid() && host < hosts
      modifies this`log, this`done, queries
      ensures Valid() && Onward()
      ensures err == Nil && !done ==> AllBlank() || !connected || tries < 1 || SomeCanceled(log, |old(log)|)
      ensures err != Nil ==> FirstFailure(|old(log)|, queries.Length, err) && err != Canceled
      ensures !done && connected && tries >= 1 ==> TriedAll(|old(log)|, host)
      ensures old(AllBlank()) ==> log == old(log)
      ensures BlanksStay(old(queries[..]), queries[..])
    {
      ghost var slots, before := queries[..], log;
      var stop := IsDone();
      if stop || !connected {
        return Nil;
      }
      assert forall i :: 0 <= i < |original| && original[i] != "" && slots[i] == "" ==> Succeeded(before, i);
      var effort;
      err, effort := Retry(host, tries);
      if err == Canceled {
        ghost var f :| FailedAt(|old(log)|, queries.Length, err, f);
        assert SomeCanceled(log, |old(log)|);
        err := Nil;
      }
      SentOnlyWhatIsLeft(original, hosts, before, log);
    }

    /** ExecAll: the hosts in turn, sharing the slots; the first error is returned. */
    method ExecAll(connected: seq<bool>, tries: int) returns (err: Err)
      requires Valid() && log == [] && |connected| == hosts
      modifies this`log, this`done, queries
      ensures Valid() && Onward()
      ensures err == Nil && !done && tries >= 1 && true in connected ==> AllBlank() || SomeCanceled(log, 0)
      // once everything has succeeded, the promise of the documentation is kept exactly with at most one host
      ensures AllBlank() ==> (RunsEverywhere(original, log, hosts) <==> hosts <= 1 || AllEmpty(original))
      // a statement left undone was tried on every host with a connection, and an error is one that was met
      ensures !done && tries >= 1 ==> TriedOnAll(log, queries[..], connected, |connected|)
      ensures err != Nil ==> err != Canceled && exists i :: FailedWith(log, 0, i, err)
    {
      err := Nil;
      var stop := IsDone();
      AllDone();
      if stop {
        return;
      }
      for h := 0 to |connected|
        invariant Valid() && Onward()
        invariant err != Nil ==> err != Canceled && exists i :: FailedWith(log, 0, i, err)
        invariant !done && tries >= 1 ==> TriedOnAll(log, queries[..], connected, h)
        invariant err == Nil && !done && tries >= 1 && true in connected[..h] ==> AllBlank() || SomeCanceled(log, 0)
      {
        assert connected[..h + 1] == connected[..h] + [connected[h]];
        ghost var before, slots := log, queries[..];
        var e := ExecOn(h, connected[h], tries);
        if e != Nil && err == Nil {
          err := e;
          ghost var f :| FailedAt(|before|, queries.Length, e, f);
          assert FailedWith(log, 0, f, e);
        }
        LogGrew(before, log);
        if !done && tries >= 1 {
          SentSince(log, |before|, 0, h, e);
          TriedOnNext(before, log, slots, queries[..], connected, h);
        }
      }
      assert connected[..|connected|] == connected;
      AllDone();
    }

    lemma {:induction false} AllDone()
      requires Valid()
      ensures AllBlank() ==> (RunsEverywhere(original, log, hosts) <==> hosts <= 1 || AllEmpty(original))
    {
      if AllBlank() {
        CompleteLogOnHosts(original, log, hosts);
      }
    }
  }

  // ---- What is sent in place of a statement that creates a table ---------------------------------------

  predicate SliceAt(s: string, part: string, i: int) {
    0 <= i && i + |part| <= |s| && s[i..i + |part|] == part
  }

  /** A part is contained if it is a slice. */
  lemma {:induction false} ContainsIsSlice(s: string, part: string)
    ensures Contains(s, part) <==> exists i :: SliceAt(s, part, i)
  {
    if Contains(s, part) {
      if StartsWith(s, part) {
        assert SliceAt(s, part, 0);
      } else {
        ContainsIsSlice(s[1..], part);
        var i :| SliceAt(s[1..], part, i);
        assert s[i + 1..i + 1 + |part|] == s[1..][i..i + |part|];
        assert SliceAt(s, part, i + 1);
      }
    }
    if i :| SliceAt(s, part, i) {
      SliceIsContained(s, part, i);
    }
  }

  lemma {:induction false} SliceIsContained(s: string, part: string, i: int)
    requires SliceAt(s, part, i)
    ensures Contains(s, part)
  {
    if i > 0 {
      assert s[1..][i - 1..i - 1 + |part|] == s[i..i + |part|];
      SliceIsContained(s[1..], part, i - 1);
    } else {
      assert s[..|part|] == s[0..0 + |part|];
    }
  }

  /** A statement without CREATE TABLE is sent as it is. */
  lemma {:induction false} AttachedKeepsOthers(s: string)
    requires !Contains(s, "CREATE TABLE")
    ensures Attached(s) == s
  {
    if s != "" {
      AttachedKeepsOthers(s[1..]);
      assert s == [s[0]] + s[1..];
    }
  }

  /** The first CREATE TABLE becomes ATTACH TABLE, what comes before it stays, and what follows is treated likewise. */
  lemma {:induction false} AttachedReplaces(before: string, after: string)
    requires forall i :: 0 <= i < |before| ==> !StartsWith((before + "CREATE TABLE" + after)[i..], "CREATE TABLE")
    ensures Attached(before + "CREATE TABLE" + after) == before + "ATTACH TABLE" + Attached(after)
  {
    var s := before + "CREATE TABLE" + after;
    if before == "" {
      assert s == "CREATE TABLE" + after && s[..12] == "CREATE TABLE" && s[12..] == after;
    } else {
      assert s[0..] == s;
      assert s[1..] == before[1..] + "CREATE TABLE" + after;
      forall i | 0 <= i < |before[1..]|
        ensures !StartsWith(s[1..][i..], "CREATE TABLE")
      {
        assert s[1..][i..] == s[i + 1..];
      }
      AttachedReplaces(before[1..], after);
      assert before == [before[0]] + before[1..];
    }
  }
}
