/** The registry of Kubernetes objects seen or reconciled in one run (pkg/model/registry.go). */
module Registries {

  datatype EntityType = StatefulSet | ConfigMap | Service | PVC | PV

  datatype Key = Key(namespace: string, name: string)

  /** The part of an object's metadata the registry keeps. */
  datatype Meta = Meta(key: Key, labels: map<string, string>, annotations: map<string, string>)

  ghost predicate Distinct(s: seq<Meta>) {
    forall i, j :: 0 <= i < j < |s| ==> s[i].key != s[j].key
  }

  ghost function EntriesOf(s: seq<Meta>): set<Meta> {
    set m | m in s
  }

  ghost function KeysOf(entries: set<Meta>): set<Key> {
    set m | m in entries :: m.key
  }

  /** The entries whose key is not in gone. */
  ghost function Without(entries: set<Meta>, gone: set<Key>): set<Meta> {
    set m | m in entries && m.key !in gone
  }

  lemma {:induction false} WithoutTwice(entries: set<Meta>, gone: set<Key>, more: set<Key>)
    ensures Without(Without(entries, gone), more) == Without(entries, gone + more)
  {
  }

  /** What swapping the last element into slot i and truncating leaves. */
  function SwapRemove(s: seq<Meta>, i: nat): seq<Meta>
    requires i < |s|
  {
    s[i := s[|s| - 1]][..|s| - 1]
  }

  /** Swap-removal takes out one entry and loses no other. */
  lemma {:induction false} SwapRemoveTakesOne(s: seq<Meta>, i: nat)
    requires i < |s| && Distinct(s)
    ensures Distinct(SwapRemove(s, i))
    ensures EntriesOf(SwapRemove(s, i)) == EntriesOf(s) - {s[i]}
    ensures EntriesOf(SwapRemove(s, i)) == Without(EntriesOf(s), {s[i].key})
    ensures KeysOf(EntriesOf(SwapRemove(s, i))) == KeysOf(EntriesOf(s)) - {s[i].key}
  {
    var t := SwapRemove(s, i);
    forall m | m in EntriesOf(s) - {s[i]}
      ensures m in t
    {
      var j :| 0 <= j < |s| && s[j] == m;
      assert t[if j == |s| - 1 then i else j] == m;
    }
    assert forall j :: 0 <= j < |t| ==> t[j] == s[if j == i then |s| - 1 else j];
  }

  /** The slice without its first entry of this key, if any, by swap-removal. */
  function RemoveKey(s: seq<Meta>, key: Key): seq<Meta> {
    var i := IndexOf(s, key, 0);
    if i < |s| then SwapRemove(s, i) else s
  }

  function IndexOf(s: seq<Meta>, key: Key, from: nat): (i: nat)
    requires from <= |s|
    ensures from <= i <= |s| && (i < |s| ==> s[i].key == key)
    ensures forall j :: from <= j < i ==> s[j].key != key
    decreases |s| - from
  {
    if from == |s| || s[from].key == key then from else IndexOf(s, key, from + 1)
  }

  lemma {:induction false} RemoveKeyAt(s: seq<Meta>, i: nat)
    requires i < |s| && Distinct(s)
    ensures RemoveKey(s, s[i].key) == SwapRemove(s, i)
  {
    var k := IndexOf(s, s[i].key, 0);
    assert k <= i;
  }

  lemma {:induction false} RemoveNoKey(s: seq<Meta>, key: Key)
    requires forall m :: m in s ==> m.key != key
    ensures RemoveKey(s, key) == s
  {
    assert forall j :: 0 <= j < |s| ==> s[j] in s;
  }

  lemma {:induction false} AppendAddsOne(s: seq<Meta>, m: Meta)
    requires Distinct(s) && m.key !in KeysOf(EntriesOf(s))
    ensures Distinct(s + [m])
    ensures EntriesOf(s + [m]) == EntriesOf(s) + {m}
    ensures KeysOf(EntriesOf(s + [m])) == KeysOf(EntriesOf(s)) + {m.key}
  {
    assert forall j :: 0 <= j < |s| ==> s[j] in EntriesOf(s) && s[j].key in KeysOf(EntriesOf(s));
  }

  class Registry {
    var r: map<EntityType, seq<Meta>>
    ghost var held: set<(EntityType, Key)>  // every (type, key) registered

    ghost predicate Valid()
      reads this
    {
      && (forall et :: et in r ==> Distinct(r[et]))
      && (forall et, key :: (et, key) in held <==> key in Keys(et))
    }

    /** The abstract value: one set of entries per entity type. */
    ghost function Entries(et: EntityType): set<Meta>
      reads this
    {
      if et in r then EntriesOf(r[et]) else {}
    }

    ghost function Keys(et: EntityType): set<Key>
      reads this
    {
      KeysOf(Entries(et))
    }

    constructor ()
      ensures Valid() && held == {} && forall et :: Entries(et) == {}
    {
      r, held := map[], {};
    }

    /** The position of an entry with the same namespace and name, searched as the code searches:
        over the entity types in any order, then over the one slice that matches. */
    method Find(et: EntityType, key: Key) returns (found: bool, i: nat)
      ensures found <==> key in Keys(et)
      ensures found ==> et in r && i < |r[et]| && r[et][i].key == key
    {
      found, i := false, 0;
      var todo := r.Keys;
      while todo != {}
        invariant todo <= r.Keys
        invariant et in r ==> et in todo
        decreases todo
      {
        var cur :| cur in todo;
        todo := todo - {cur};
        if cur == et {
          while i < |r[et]|
            invariant i <= |r[et]|
            invariant forall j :: 0 <= j < i ==> r[et][j].key != key
          {
            if r[et][i].key == key {
              assert r[et][i] in Entries(et);
              return true, i;
            }
            i := i + 1;
          }
          return false, i;
        }
      }
    }

    method Has(et: EntityType, key: Key) returns (b: bool)
      ensures b == (key in Keys(et))
    {
      var found, _ := Find(et, key);
      return found;
    }

    /** The first registration of a (namespace, name) wins; keys stay unique. */
    method Register(et: EntityType, m: Meta)
      requires Valid()
      modifies this
      ensures Valid()
      ensures held == old(held) + {(et, m.key)}
      ensures Entries(et) == old(Entries(et)) + if m.key in old(Keys(et)) then {} else {m}
      ensures forall other :: other != et ==> Entries(other) == old(Entries(other))
    {
      var has := Has(et, m.key);
      held := held + {(et, m.key)};
      if has {
        return;
      }
      var cur := if et in r then r[et] else [];
      AppendAddsOne(cur, m);
      r := r[et := cur + [m]];
    }

    /** deleteEntity: copies the last element over the found one and truncates. */
    method Delete(et: EntityType, key: Key) returns (deleted: bool)
      requires Valid()
      modifies this
      ensures Valid()
      ensures deleted == (key in old(Keys(et)))
      ensures held == old(held) - {(et, key)}
      ensures Entries(et) == Without(old(Entries(et)), {key})
      ensures forall other :: other != et ==> Entries(other) == old(Entries(other))
      ensures r.Keys == old(r.Keys) && forall other :: other != et && other in r ==> r[other] == old(r[other])
      ensures et in r ==> r[et] == RemoveKey(old(r[et]), key)
    {
      var i: nat;
      deleted, i := Find(et, key);
      if deleted {
        assert r[et][i] in Entries(et);
        RemoveKeyAt(r[et], i);
        DeleteAt(et, i);
      } else {
        held := held - {(et, key)};
        assert forall m :: m in Entries(et) ==> m.key in Keys(et);
        if et in r {
          RemoveNoKey(r[et], key);
        }
      }
    }

    method DeleteAt(et: EntityType, i: nat)
      requires Valid() && et in r && i < |r[et]|
      modifies this
      ensures Valid()
      ensures held == old(held) - {(et, old(r[et][i].key))}
      ensures Entries(et) == Without(old(Entries(et)), {old(r[et][i].key)})
      ensures r == old(r)[et := SwapRemove(old(r[et]), i)]
    {
      ghost var s := r[et];
      held := held - {(et, s[i].key)};
      r := r[et := r[et][i := r[et][|r[et]| - 1]]];
      r := r[et := r[et][..|r[et]| - 1]];
      SwapRemoveTakesOne(s, i);
      assert r[et] == SwapRemove(s, i);
    }
  }

  /** The keys of one type already subtracted: all of them, none, or those of a prefix. */
  ghost function KeysUpTo(s: seq<Meta>, i: nat): set<Key>
    requires i <= |s|
  {
    KeysOf(EntriesOf(s[..i]))
  }

  lemma {:induction false} KeysUpToNext(s: seq<Meta>, i: nat)
    requires i < |s|
    ensures KeysUpTo(s, i + 1) == KeysUpTo(s, i) + {s[i].key}
  {
    assert EntriesOf(s[..i + 1]) == EntriesOf(s[..i]) + {s[i]};
  }

  // ---- Subtracting ---------------------------------------------------------------------------------

  /** What deleteEntity leaves in the slot it frees. */
  const ERASED := Meta(Key("", ""), map[], map[])

  /** Names of Kubernetes objects are not empty. */
  ghost predicate Named(s: seq<Meta>) {
    forall m :: m in s ==> m.key != ERASED.key
  }

  /** The slice left when each entry met on a walk over it is deleted from it: the last half, reversed. */
  function LastHalf(s: seq<Meta>): seq<Meta> {
    seq(|s| / 2, i requires 0 <= i < |s| / 2 => s[|s| - 1 - i])
  }

  /** That slice after k steps. */
  function Halved(s: seq<Meta>, k: nat): seq<Meta>
    requires 2 * k <= |s| + 1
  {
    seq(|s| - k, i requires 0 <= i < |s| - k => if i < k then s[|s| - 1 - i] else s[i])
  }

  lemma {:induction false} HalvedNext(s: seq<Meta>, k: nat)
    requires Distinct(s) && 2 * k < |s|
    ensures k < |Halved(s, k)| && Halved(s, k)[k] == s[k] && Distinct(Halved(s, k))
    ensures RemoveKey(Halved(s, k), s[k].key) == Halved(s, k + 1)
  {
    var now := Halved(s, k);
    assert forall i :: 0 <= i < |now| ==> now[i] == s[if i < k then |s| - 1 - i else i];
    RemoveKeyAt(now, k);
    assert SwapRemove(now, k) == Halved(s, k + 1);
  }

  /** A registry minus itself: exactly the half of the entries of each type that the walk has not met. */
  ghost predicate SubtractedFromItself(now: map<EntityType, seq<Meta>>, was: map<EntityType, seq<Meta>>) {
    now.Keys == was.Keys && forall et :: et in was && Named(was[et]) ==> now[et] == LastHalf(was[et])
  }

  /** Nothing is left only if no type has more than one entry. */
  lemma {:induction false} SelfSubtractionIsEmpty(now: map<EntityType, seq<Meta>>, was: map<EntityType, seq<Meta>>)
    requires SubtractedFromItself(now, was) && forall et :: et in was ==> Named(was[et])
    ensures (forall et :: et in now ==> now[et] == []) <==> forall et :: et in was ==> |was[et]| <= 1
  {
    assert forall et :: et in was ==> |now[et]| == |was[et]| / 2;
  }

  /** A slice once the entries of another that come before n were deleted from it. */
  function DeleteAll(s: seq<Meta>, slice: seq<Meta>, n: nat): seq<Meta>
    requires n <= |slice|
  {
    if n == 0 then s else RemoveKey(DeleteAll(s, slice, n - 1), slice[n - 1].key)
  }

  /** A slice after n steps of a walk over it, of the length it had at the start, that deletes what it meets. */
  function DeleteSelf(s: seq<Meta>, n: nat): seq<Meta> {
    if n == 0 then s
    else
      var now := DeleteSelf(s, n - 1);
      RemoveKey(now, if n - 1 < |now| then now[n - 1].key else ERASED.key)
  }

  lemma {:induction false} DeleteAllIsWithout(s: seq<Meta>, slice: seq<Meta>, n: nat)
    requires Distinct(s) && n <= |slice|
    ensures Distinct(DeleteAll(s, slice, n))
    ensures EntriesOf(DeleteAll(s, slice, n)) == Without(EntriesOf(s), KeysUpTo(slice, n))
  {
    if n > 0 {
      var before, key := DeleteAll(s, slice, n - 1), slice[n - 1].key;
      DeleteAllIsWithout(s, slice, n - 1);
      KeysUpToNext(slice, n - 1);
      WithoutTwice(EntriesOf(s), KeysUpTo(slice, n - 1), {key});
      RemoveKeyIsWithout(before, key);
    }
  }

  lemma {:induction false} RemoveKeyIsWithout(s: seq<Meta>, key: Key)
    requires Distinct(s)
    ensures Distinct(RemoveKey(s, key)) && EntriesOf(RemoveKey(s, key)) == Without(EntriesOf(s), {key})
  {
    var i := IndexOf(s, key, 0);
    if i < |s| {
      SwapRemoveTakesOne(s, i);
    }
  }

  /** Up to the middle such a walk deletes what it meets, and swaps in what it will not meet. */
  lemma {:induction false} DeleteSelfToTheMiddle(s: seq<Meta>, n: nat)
    requires Distinct(s) && 2 * n <= |s| + 1
    ensures DeleteSelf(s, n) == Halved(s, n)
  {
    if n > 0 {
      DeleteSelfToTheMiddle(s, n - 1);
      HalvedNext(s, n - 1);
    } else {
      assert Halved(s, 0) == s;
    }
  }

  /** From there on it meets erased slots only. */
  lemma {:induction false} DeleteSelfFromTheMiddle(s: seq<Meta>, n: nat)
    requires Distinct(s) && Named(s) && (|s| + 1) / 2 <= n <= |s|
    ensures DeleteSelf(s, n) == LastHalf(s)
  {
    if n == (|s| + 1) / 2 {
      DeleteSelfToTheMiddle(s, n);
      assert Halved(s, n) == LastHalf(s);
    } else {
      DeleteSelfFromTheMiddle(s, n - 1);
      NothingErasedIsLeft(s);
      RemoveNoKey(LastHalf(s), ERASED.key);
    }
  }

  lemma {:induction false} NothingErasedIsLeft(s: seq<Meta>)
    requires Named(s)
    ensures Named(LastHalf(s))
  {
    forall i | 0 <= i < |LastHalf(s)|
      ensures LastHalf(s)[i].key != ERASED.key
    {
      assert LastHalf(s)[i] == s[|s| - 1 - i];
    }
  }

  /** What Subtract leaves of one slice. */
  function Remaining(s: seq<Meta>, slice: seq<Meta>, same: bool): seq<Meta> {
    if same then DeleteSelf(s, |s|) else DeleteAll(s, slice, |slice|)
  }

  function SliceOf(r: map<EntityType, seq<Meta>>, et: EntityType): seq<Meta> {
    if et in r then r[et] else []
  }

  /** The slices of base, once those of the types `met` of sub were walked. */
  ghost predicate SubtractedUpTo(
    now: map<EntityType, seq<Meta>>, was: map<EntityType, seq<Meta>>, sub: map<EntityType, seq<Meta>>,
    met: set<EntityType>, same: bool)
  {
    && now.Keys == was.Keys
    && forall et :: et in was ==> now[et] == if et in met then Remaining(was[et], SliceOf(sub, et), same) else was[et]
  }

  lemma {:induction false} SubtractedFromSelf(now: map<EntityType, seq<Meta>>, was: map<EntityType, seq<Meta>>)
    requires SubtractedUpTo(now, was, was, was.Keys, true)
    requires forall et :: et in was ==> Distinct(was[et])
    ensures SubtractedFromItself(now, was)
  {
    forall et | et in was && Named(was[et])
      ensures now[et] == LastHalf(was[et])
    {
      DeleteSelfFromTheMiddle(was[et], |was[et]|);
    }
  }

  lemma {:induction false} SubtractedFromOther(
    now: map<EntityType, seq<Meta>>, was: map<EntityType, seq<Meta>>, sub: map<EntityType, seq<Meta>>, et: EntityType)
    requires SubtractedUpTo(now, was, sub, sub.Keys, false)
    requires et in was ==> Distinct(was[et])
    ensures EntriesOf(SliceOf(now, et)) == Without(EntriesOf(SliceOf(was, et)), KeysOf(EntriesOf(SliceOf(sub, et))))
  {
    if et in was && et in sub {
      DeleteAllIsWithout(was[et], sub[et], |sub[et]|);
      assert sub[et][..|sub[et]|] == sub[et];
    }
  }

  /** Subtract: exactly set difference per entity type, whatever order the map is walked in.
      Both registries may be nil, as discovery returns nil once the context is done. Of a registry minus itself
      half is left, since entries are deleted from the very slice that is being walked. */
  method Subtract(base: Registry?, sub: Registry?)
    requires base != null ==> base.Valid()
    modifies base
    ensures base != null ==> base.Valid()
    ensures base != null && sub == null ==> base.r == old(base.r)
    ensures base != null && sub != null && base != sub ==>
              forall et :: base.Entries(et) == Without(old(base.Entries(et)), sub.Keys(et))
    ensures base != null && base == sub ==> SubtractedFromItself(base.r, old(base.r))
  {
    if sub == null || |sub.r| == 0 {
      return;
    }
    if base == null || |base.r| == 0 {
      return;
    }
    ghost var was, other := base.r, sub.r;
    SubtractAll(base, sub);
    if base == sub {
      SubtractedFromSelf(base.r, was);
    } else {
      forall et
        ensures base.Entries(et) == Without(old(base.Entries(et)), sub.Keys(et))
      {
        SubtractedFromOther(base.r, was, other, et);
      }
    }
  }

  /** The walk over sub, its types in any order. */
  method SubtractAll(base: Registry, sub: Registry)
    requires base.Valid()
    modifies base
    ensures base.Valid() && (base != sub ==> sub.r == old(sub.r))
    ensures SubtractedUpTo(base.r, old(base.r), old(sub.r), old(sub.r.Keys), base == sub)
  {
    ghost var was, other := base.r, sub.r;
    var todo := sub.r.Keys;
    while todo != {}
      invariant todo <= sub.r.Keys == other.Keys
      invariant base.Valid() && (base != sub ==> sub.r == other) && (base == sub ==> was == other)
      invariant SubtractedUpTo(base.r, was, other, other.Keys - todo, base == sub)
      decreases todo
    {
      var et :| et in todo;
      ghost var before := base.r;
      SubtractType(base, sub, et);
      SubtractedNext(before, base.r, was, other, other.Keys - todo, et, base == sub);
      assert other.Keys - todo + {et} == other.Keys - (todo - {et});
      todo := todo - {et};
    }
    assert other.Keys - {} == other.Keys;
  }

  lemma {:induction false} SubtractedNext(
    before: map<EntityType, seq<Meta>>, now: map<EntityType, seq<Meta>>, was: map<EntityType, seq<Meta>>,
    sub: map<EntityType, seq<Meta>>, met: set<EntityType>, et: EntityType, same: bool)
    requires SubtractedUpTo(before, was, sub, met, same) && et !in met
    requires now.Keys == before.Keys && forall other :: other in now && other != et ==> now[other] == before[other]
    requires et in now ==> now[et] == Remaining(before[et], SliceOf(sub, et), same)
    ensures SubtractedUpTo(now, was, sub, met + {et}, same)
  {
  }

  /** The inner half of Subtract: the walk over one slice of sub, whose length is fixed at its start, while its slots
      are read as they are when their turn comes. */
  method SubtractType(base: Registry, sub: Registry, et: EntityType)
    requires base.Valid() && et in sub.r
    modifies base
    ensures base.Valid() && base.r.Keys == old(base.r.Keys)
    ensures forall other :: other in base.r && other != et ==> base.r[other] == old(base.r[other])
    ensures et in base.r ==> base.r[et] == Remaining(old(base.r[et]), old(sub.r[et]), base == sub)
  {
    ghost var was, slice := SliceOf(base.r, et), sub.r[et];
    var n := |sub.r[et]|;
    for i := 0 to n
      invariant base.Valid() && base.r.Keys == old(base.r.Keys) && (base != sub ==> sub.r[et] == slice)
      invariant forall other :: other in base.r && other != et ==> base.r[other] == old(base.r[other])
      invariant et in base.r ==> base.r[et] == Steps(was, slice, i, base == sub)
    {
      var m := if i < |sub.r[et]| then sub.r[et][i] else ERASED;
      StepsNext(was, slice, i, base == sub);
      var _ := base.Delete(et, m.key);
    }
  }

  /** A slice after n steps of the walk over another, or over itself. */
  function Steps(s: seq<Meta>, slice: seq<Meta>, n: nat, same: bool): seq<Meta>
    requires n <= |slice|
  {
    if same then DeleteSelf(s, n) else DeleteAll(s, slice, n)
  }

  lemma {:induction false} StepsNext(s: seq<Meta>, slice: seq<Meta>, n: nat, same: bool)
    requires n < |slice|
    ensures var now := if same then Steps(s, slice, n, same) else slice;
            Steps(s, slice, n + 1, same) ==
            RemoveKey(Steps(s, slice, n, same), (if n < |now| then now[n] else ERASED).key)
  {
  }
}
