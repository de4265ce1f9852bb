/** Settings: normalisation, merging, inheritance and the input of fingerprints (type_settings.go). */
module Settings {
  import Paths

  datatype Path = Path(text: string)

  datatype Setting = Scalar(scalar: string) | Vector(vector: seq<string>)

  type Map = map<Path, Setting>

  function Norm(p: Path): Path {
    Path(Paths.Normalize(p.text))
  }

  lemma {:induction false} NormLaws(p: Path)
    ensures Norm(Norm(p)) == Norm(p)
    ensures |Norm(p).text| != |p.text| <==> Norm(p) != p
  {
    Paths.NormalizeLaws(p.text);
  }

  lemma {:induction false} NormIsIdempotent()
    ensures forall p :: Norm(Norm(p)) == Norm(p)
  {
    forall p { NormLaws(p); }
  }

  /** Some key of this level is a spelling of the path. */
  ghost predicate Spelled(m: Map, path: Path) {
    exists k :: k in m && Norm(k) == path
  }

  /** A spelling of the path that normalisation changes. */
  predicate Unusual(m: Map, path: Path, k: Path) {
    k in m && k != path && Norm(k) == path
  }

  /** What a level alone says of a path: one of its unusual spellings if it has any, else the path itself. */
  ghost predicate Says(m: Map, path: Path, v: Setting) {
    if exists k :: Unusual(m, path, k)
    then exists k :: Unusual(m, path, k) && m[k] == v
    else path in m && m[path] == v
  }

  /** m after normalizePaths: each path that was spelled somehow, normalised, and nothing else. */
  ghost predicate NormalizedFrom(m: Map, was: Map) {
    && (forall p :: p in m <==> Spelled(was, p))
    && (forall p :: p in m ==> Says(was, p, m[p]))
  }

  // ---- Adding the normalised paths -----------------------------------------------------------------

  /** The index of the last path that normalises to p, or -1. */
  function Last(paths: seq<Path>, p: Path): (i: int)
    ensures -1 <= i < |paths|
    ensures i >= 0 ==> Norm(paths[i]) == p
    ensures i == -1 ==> forall j :: 0 <= j < |paths| ==> Norm(paths[j]) != p
  {
    if paths == [] then -1
    else if Norm(paths[|paths| - 1]) == p then |paths| - 1
    else Last(paths[..|paths| - 1], p)
  }

  /** The key whose value p has once the normalised paths are added. */
  function Origin(paths: seq<Path>, p: Path): Path {
    if Last(paths, p) == -1 then p else paths[Last(paths, p)]
  }

  /** m once the normalised paths are added to was. */
  ghost predicate Added(m: Map, was: Map, paths: seq<Path>) {
    forall p :: (p in m <==> Origin(paths, p) in was) && (p in m ==> m[p] == was[Origin(paths, p)])
  }

  lemma {:induction false} OriginOfUnusual(paths: seq<Path>, k: Path)
    requires Norm(k) != k
    ensures Origin(paths, k) == k
  {
    if Last(paths, k) != -1 {
      NormLaws(paths[Last(paths, k)]);
    }
  }

  lemma {:induction false} OriginOfNext(paths: seq<Path>, k: Path, p: Path)
    ensures Origin(paths + [k], p) == if Norm(k) == p then k else Origin(paths, p)
  {
    assert (paths + [k])[..|paths|] == paths;
  }

  lemma {:induction false} AddedNext(m: Map, was: Map, paths: seq<Path>, k: Path)
    requires Added(m, was, paths)
    requires k in was && Norm(k) != k
    ensures k in m && Added(m[Norm(k) := m[k]], was, paths + [k])
  {
    OriginOfUnusual(paths, k);
    forall p {
      OriginOfNext(paths, k, p);
    }
  }

  /** Adding the normalised paths and deleting the original ones normalises the map. */
  lemma {:induction false} AddedAndDeleted(m: Map, was: Map, added: Map, paths: seq<Path>)
    requires forall k :: k in paths <==> k in was && Norm(k) != k
    requires Added(added, was, paths)
    requires m == map k | k in added && k !in paths :: added[k]
    ensures NormalizedFrom(m, was)
  {
    forall p
      ensures p in m <==> Spelled(was, p)
      ensures p in m ==> Says(was, p, m[p])
    {
      AddedAndDeletedAt(m, was, added, paths, p);
    }
  }

  lemma {:induction false} AddedAndDeletedAt(m: Map, was: Map, added: Map, paths: seq<Path>, p: Path)
    requires forall k :: k in paths <==> k in was && Norm(k) != k
    requires Added(added, was, paths)
    requires m == map k | k in added && k !in paths :: added[k]
    ensures p in m <==> Spelled(was, p)
    ensures p in m ==> Says(was, p, m[p])
  {
    var k := Origin(paths, p);
    NormLaws(k);
    if Last(paths, p) != -1 {
      assert k in paths && Unusual(was, p, k);
    } else {
      assert forall j :: j in paths ==> Norm(j) != p;
      NormLaws(p);
      assert forall j :: !Unusual(was, p, j);
    }
  }

  /** Normalising a map of normal paths changes nothing. */
  lemma {:induction false} NormalStaysPut(m: Map, was: Map)
    requires NormalizedFrom(m, was)
    requires forall p :: p in was ==> Norm(p) == p
    ensures m == was
  {
    assert forall p, k :: !Unusual(was, p, k);
  }

  /** What normalisation leaves is normal, so normalising again changes nothing. */
  lemma {:induction false} NormalizingTwice(again: Map, m: Map, was: Map)
    requires NormalizedFrom(m, was) && NormalizedFrom(again, m)
    ensures forall p :: p in m ==> Norm(p) == p
    ensures again == m
  {
    NormIsIdempotent();
    NormalStaysPut(again, m);
  }

  // ---- Inheritance -------------------------------------------------------------------------------

  /** Some level spells the path. */
  ghost predicate SpelledIn(levels: seq<Map>, p: Path) {
    levels != [] && (Spelled(levels[0], p) || SpelledIn(levels[1..], p))
  }

  /** The nearest level that spells the path gives it this value. */
  ghost predicate NearestSays(levels: seq<Map>, p: Path, v: Setting) {
    levels != [] && if Spelled(levels[0], p) then Says(levels[0], p, v) else NearestSays(levels[1..], p, v)
  }

  /** m is what a node inherits along levels, its own level first. */
  ghost predicate Inherited(m: Map, levels: seq<Map>) {
    && (forall p :: p in m <==> SpelledIn(levels, p))
    && (forall p :: p in m ==> NearestSays(levels, p, m[p]))
  }

  lemma {:induction false} SpelledIsNormal(levels: seq<Map>, p: Path)
    requires SpelledIn(levels, p)
    ensures Norm(p) == p
  {
    if Spelled(levels[0], p) {
      NormIsIdempotent();
    } else {
      SpelledIsNormal(levels[1..], p);
    }
  }

  /** One level of inheritance: the own keys are merged over the parent's, which are normal, and only then
      normalised; still the own level wins for every path it spells in any way. */
  lemma {:induction false} InheritedNext(m: Map, own: Map, parent: Map, levels: seq<Map>)
    requires Inherited(parent, levels)
    requires NormalizedFrom(m, parent + own)
    ensures Inherited(m, [own] + levels)
  {
    assert ([own] + levels)[1..] == levels;
    forall p
      ensures p in m <==> SpelledIn([own] + levels, p)
      ensures p in m ==> NearestSays([own] + levels, p, m[p])
    {
      InheritedNextAt(m, own, parent, levels, p);
    }
  }

  lemma {:induction false} InheritedNextAt(m: Map, own: Map, parent: Map, levels: seq<Map>, p: Path)
    requires Inherited(parent, levels)
    requires NormalizedFrom(m, parent + own)
    ensures p in m <==> Spelled(own, p) || SpelledIn(levels, p)
    ensures p in m ==> if Spelled(own, p) then Says(own, p, m[p]) else NearestSays(levels, p, m[p])
  {
    var merged := parent + own;
    forall k | k in parent
      ensures Norm(k) == k
    {
      SpelledIsNormal(levels, k);
    }
    SpelledAfterMerge(own, parent, p);
    if p in m {
      SaysAfterMerge(own, parent, p, m[p]);
    }
  }

  lemma {:induction false} SpelledAfterMerge(own: Map, parent: Map, p: Path)
    requires forall k :: k in parent ==> Norm(k) == k
    ensures Spelled(parent + own, p) <==> Spelled(own, p) || p in parent
  {
    if k :| k in parent + own && Norm(k) == p {
      assert k in own || k == p;
    }
    if k :| k in own && Norm(k) == p {
      assert k in parent + own;
    }
    if p in parent {
      assert p in parent + own;
    }
  }

  lemma {:induction false} SaysAfterMerge(own: Map, parent: Map, p: Path, v: Setting)
    requires forall k :: k in parent ==> Norm(k) == k
    requires Spelled(parent + own, p) && Says(parent + own, p, v)
    ensures if Spelled(own, p) then Says(own, p, v) else p in parent && parent[p] == v
  {
    var merged := parent + own;
    forall k
      ensures Unusual(merged, p, k) <==> Unusual(own, p, k)
    {}
    if Spelled(own, p) && !exists k :: Unusual(own, p, k) {
      var k :| k in own && Norm(k) == p;
      assert !Unusual(own, p, k);
    }
  }

  /** No path has two spellings at one level. */
  ghost predicate SpelledOnce(m: Map) {
    forall j, k :: j in m && k in m && Norm(j) == Norm(k) ==> j == k
  }

  /** When no level spells a path twice, the outcome does not depend on the order in which maps are walked. */
  lemma {:induction false} InheritedIsUnique(m: Map, n: Map, levels: seq<Map>)
    requires Inherited(m, levels) && Inherited(n, levels)
    requires forall i :: 0 <= i < |levels| ==> SpelledOnce(levels[i])
    ensures m == n
  {
    forall p | p in m
      ensures m[p] == n[p]
    {
      NearestIsUnique(levels, p, m[p], n[p]);
    }
  }

  lemma {:induction false} NearestIsUnique(levels: seq<Map>, p: Path, v: Setting, w: Setting)
    requires NearestSays(levels, p, v) && NearestSays(levels, p, w)
    requires forall i :: 0 <= i < |levels| ==> SpelledOnce(levels[i])
    ensures v == w
  {
    if !Spelled(levels[0], p) {
      NearestIsUnique(levels[1..], p, v, w);
    }
  }

  class Settings {
    var m: Map

    constructor ()
      ensures m == map[]
    {
      m := map[];
    }

    /** SetIfNotExists over all of src, in any order: the receiver's own keys win. */
    method AddMissing(src: Map)
      modifies this
      ensures m == src + old(m)
    {
      var todo := src.Keys;
      while todo != {}
        invariant todo <= src.Keys
        invariant m == (map k | k in src.Keys - todo :: src[k]) + old(m)
        decreases todo
      {
        var k :| k in todo;
        todo := todo - {k};
        if k !in m {
          m := m[k := src[k]];
        }
      }
    }

    /** The walk of MergeFromCB: the chosen settings of src, in any order, replace the receiver's. */
    method SetChosen(src: Map, chosen: Path -> bool)
      modifies this
      ensures m == old(m) + map k | k in src && chosen(k) :: src[k]
    {
      var todo := src.Keys;
      while todo != {}
        invariant todo <= src.Keys
        invariant m == old(m) + map k | k in src && k !in todo && chosen(k) :: src[k]
        decreases todo
      {
        var k :| k in todo;
        todo := todo - {k};
        if chosen(k) {
          m := m[k := src[k]];
        }
      }
    }

    /** normalizePaths: collect the paths that normalisation shortens, in any order; add each under its
        normalised path; delete the originals. */
    method NormalizePaths()
      modifies this
      ensures NormalizedFrom(m, old(m))
    {
      var paths := CollectUnusual();
      SetNormalized(paths);
      ghost var added := m;
      DeleteAll(paths);
      AddedAndDeleted(m, old(m), added, paths);
    }

    method CollectUnusual() returns (paths: seq<Path>)
      ensures forall k :: k in paths <==> k in m && Norm(k) != k
    {
      paths := [];
      var todo := m.Keys;
      while todo != {}
        invariant todo <= m.Keys
        invariant forall k :: k in paths <==> k in m.Keys - todo && Norm(k) != k
        decreases todo
      {
        var k :| k in todo;
        todo := todo - {k};
        NormLaws(k);
        if |Norm(k).text| != |k.text| {
          paths := paths + [k];
        }
      }
    }

    method SetNormalized(paths: seq<Path>)
      requires forall k :: k in paths ==> k in m && Norm(k) != k
      modifies this
      ensures Added(m, old(m), paths)
    {
      for i := 0 to |paths|
        invariant Added(m, old(m), paths[..i])
      {
        var k := paths[i];
        assert paths[..i + 1] == paths[..i] + [k];
        AddedNext(m, old(m), paths[..i], k);
        m := m[Norm(k) := m[k]];
      }
      assert paths[..|paths|] == paths;
    }

    method DeleteAll(paths: seq<Path>)
      modifies this
      ensures m == map k | k in old(m) && k !in paths :: old(m)[k]
    {
      for i := 0 to |paths|
        invariant m == map k | k in old(m) && k !in paths[..i] :: old(m)[k]
      {
        assert paths[..i + 1] == paths[..i] + [paths[i]];
        m := m - {paths[i]};
      }
      assert paths[..|paths|] == paths;
    }
  }

  function Content(s: Settings?): Map
    reads s
  {
    if s == null then map[] else s.m
  }

  /** Settings.MergeFrom, where nil is an empty settings object. */
  method MergeFrom(dst: Settings?, src: Settings?) returns (res: Settings?)
    modifies dst
    ensures Content(res) == old(Content(src)) + old(Content(dst))
    ensures res == dst || (dst == null && fresh(res))
    ensures res == null <==> dst == null && old(Content(src)) == map[]
  {
    if src == null || |src.m| == 0 {
      return dst;
    }
    res := dst;
    if res == null {
      res := new Settings();
    }
    res.AddMissing(src.m);
  }

  /** normalizeConfigurationSettings and normalizeConfigurationFiles */
  method NormalizeSettings(s: Settings?)
    modifies s
    ensures NormalizedFrom(Content(s), old(Content(s)))
  {
    if s != null {
      s.NormalizePaths();
    }
  }

  /** A shard, replica or host inherits from its parent, whose levels are given, and is then normalised. */
  method InheritFrom(own: Settings?, parent: Settings?, ghost levels: seq<Map>) returns (res: Settings?)
    requires own == null || own != parent
    requires Inherited(Content(parent), levels)
    modifies own
    ensures Inherited(Content(res), [old(Content(own))] + levels)
    ensures res == own || (own == null && fresh(res))
  {
    res := MergeFrom(own, parent);
    ghost var merged := Content(res);
    NormalizeSettings(res);
    InheritedNext(Content(res), old(Content(own)), old(Content(parent)), levels);
  }

  /** The settings of a cluster, of one of its shards or replicas, and of one of that one's hosts, in the
      order of normalizeCluster. */
  method InheritSettings(cluster: Settings?, parent: Settings?, host: Settings?)
    returns (parents: Settings?, hosts: Settings?)
    requires parent == null || parent != cluster
    requires host == null || (host != cluster && host != parent)
    modifies cluster, parent, host
    ensures Inherited(Content(cluster), [old(Content(cluster))])
    ensures Inherited(Content(parents), [old(Content(parent)), old(Content(cluster))])
    ensures Inherited(Content(hosts), [old(Content(host)), old(Content(parent)), old(Content(cluster))])
  {
    ghost var clusterLevel := [Content(cluster)];
    ghost var parentLevels := [Content(parent)] + clusterLevel;
    ghost var hostLevels := [Content(host)] + parentLevels;
    assert parentLevels == [Content(parent), Content(cluster)];
    assert hostLevels == [Content(host), Content(parent), Content(cluster)];
    InheritByCluster(cluster);
    parents := InheritFrom(parent, cluster, clusterLevel);
    hosts := InheritFrom(host, parents, parentLevels);
  }

  method InheritByCluster(cluster: Settings?)
    modifies cluster
    ensures Inherited(Content(cluster), [old(Content(cluster))])
  {
    ghost var own := Content(cluster);
    NormalizeSettings(cluster);
    assert map[] + own == own;
    InheritedNext(Content(cluster), own, map[], []);
    assert [own] + [] == [own];
  }
}
