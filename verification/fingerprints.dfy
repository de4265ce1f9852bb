/** Sections of configuration files, filtering, and what the fingerprints of a host are computed from
    (type_settings.go, normalizer.go). */
module Fingerprints {
  import opened Settings
  import opened Wrappers
  import Paths

  // ---- Sections ------------------------------------------------------------------------------------

  datatype Section = CommonSection | UsersSection | HostSection

  datatype Lookup = In(section: Section) | NoSection | UnknownSection

  /** The representative of a character among those that strings.EqualFold takes for it; only the characters
      of the section names matter, of which s is the one with a spelling outside ASCII. */
  function Fold(c: char): char {
    if c == '\U{017F}' then 's'
    else if 'A' <= c <= 'Z' then c + 32 as char
    else c
  }

  predicate EqualFold(s: string, t: string) {
    |s| == |t| && forall i :: 0 <= i < |s| ==> Fold(s[i]) == Fold(t[i])
  }

  /** string2Section */
  function SectionOf(name: string): Lookup {
    if EqualFold(name, "COMMON") || EqualFold(name, "config.d") then In(CommonSection)
    else if EqualFold(name, "USERS") || EqualFold(name, "users.d") then In(UsersSection)
    else if EqualFold(name, "HOST") || EqualFold(name, "conf.d") then In(HostSection)
    else UnknownSection
  }

  /** The part of a path before its first slash. */
  function Head(s: string): string {
    if s == "" || s[0] == '/' then "" else [s[0]] + Head(s[1..])
  }

  /** getSectionFromPath */
  function SectionOfPath(p: Path): Lookup {
    if '/' in p.text then SectionOf(Head(p.text)) else NoSection
  }

  /** Filter takes the path. */
  predicate Selected(p: Path, wanted: Option<seq<Section>>, unwanted: Option<seq<Section>>, unspecified: bool) {
    match SectionOfPath(p)
    case In(section) => (wanted.Some? ==> section in wanted.value) && (unwanted.Some? ==> section !in unwanted.value)
    case NoSection => unspecified
    case UnknownSection => false
  }

  /** Settings.Filter, walking the map in any order. */
  method Filter(s: Settings?, wanted: Option<seq<Section>>, unwanted: Option<seq<Section>>, unspecified: bool)
    returns (res: Settings)
    ensures fresh(res)
    ensures res.m == map p | p in Content(s) && Selected(p, wanted, unwanted, unspecified) :: Content(s)[p]
    // by cases on the section of a path
    ensures forall p :: p in res.m ==> p in Content(s) && res.m[p] == Content(s)[p]
    ensures forall p :: p in Content(s) && SectionOfPath(p) == UnknownSection ==> p !in res.m
    ensures forall p :: p in Content(s) && SectionOfPath(p) == NoSection ==> (p in res.m <==> unspecified)
    ensures forall p, section :: p in Content(s) && SectionOfPath(p) == In(section) ==>
              (p in res.m <==> (wanted == None || section in wanted.value) &&
                               (unwanted == None || section !in unwanted.value))
  {
    res := new Settings();
    if s == null || |s.m| == 0 {
      return;
    }
    res.m := Taken(s.m, wanted, unwanted, unspecified);
  }

  /** The walk of Filter. */
  method Taken(m: Map, wanted: Option<seq<Section>>, unwanted: Option<seq<Section>>, unspecified: bool)
    returns (res: Map)
    ensures res == map p | p in m && Selected(p, wanted, unwanted, unspecified) :: m[p]
  {
    res := map[];
    ghost var taken := (p: Path) => Selected(p, wanted, unwanted, unspecified);
    var todo := m.Keys;
    while todo != {}
      invariant todo <= m.Keys
      invariant res == map p | p in m && p !in todo && taken(p) :: m[p]
      decreases todo
    {
      var p :| p in todo;
      todo := todo - {p};
      var selected := Selects(p, wanted, unwanted, unspecified);
      if selected {
        res := res[p := m[p]];
      }
    }
  }

  /** The decisions of Filter for one path. */
  method Selects(p: Path, wanted: Option<seq<Section>>, unwanted: Option<seq<Section>>, unspecified: bool)
    returns (selected: bool)
    ensures selected == Selected(p, wanted, unwanted, unspecified)
  {
    var lookup := SectionOfPath(p);
    var included, excluded := false, false;
    if lookup.In? {
      included := wanted.None? || lookup.section in wanted.value;
      excluded := unwanted.Some? && lookup.section in unwanted.value;
    }
    included := included && !excluded;
    if lookup.In? && !included {
      return false;
    }
    if !lookup.In? && lookup != NoSection {
      return false;
    }
    if lookup == NoSection && !unspecified {
      return false;
    }
    return true;
  }

  // ---- Files a cluster inherits ----------------------------------------------------------------------

  predicate IsHostFile(p: Path) {
    SectionOfPath(p) == In(HostSection)
  }

  function HostFiles(m: Map): Map {
    map p | p in m && IsHostFile(p) :: m[p]
  }

  /** ChiCluster.InheritFilesFrom through MergeFromCB: unlike MergeFrom, it lets the parent's value win. */
  method InheritFilesFrom(own: Settings?, chi: Settings?) returns (res: Settings?)
    requires own == null || own != chi
    modifies own
    ensures Content(res) == old(Content(own)) + HostFiles(old(Content(chi)))
    ensures res == own || (own == null && fresh(res))
  {
    if chi == null || |chi.m| == 0 {
      return own;
    }
    res := own;
    if res == null {
      res := new Settings();
    }
    res.SetChosen(chi.m, IsHostFile);
  }

  /** Files of a cluster, once merged with the normalised files of the installation and normalised: a path
      that the cluster spells in an unusual way keeps a value of the cluster, any other path takes the value
      of the installation's HOST section first. */
  lemma {:induction false} FilesOfCluster(m: Map, own: Map, chi: Map, p: Path)
    requires forall k :: k in chi ==> Norm(k) == k
    requires NormalizedFrom(m, own + HostFiles(chi))
    ensures p in m <==> Spelled(own, p) || p in HostFiles(chi)
    ensures p in m ==> FileValue(own, HostFiles(chi), p, m[p])
  {
    OverriddenFiles(m, own, HostFiles(chi), p);
  }

  /** Of a host file that the installation gives too, a cluster that spells its path in an unusual way keeps its own. */
  lemma {:induction false} UnusualSpellingKeeps(m: Map, p: Path, unusual: Path, mine: Setting, theirs: Setting)
    requires IsHostFile(p) && Norm(p) == p && Norm(unusual) == p && unusual != p
    requires NormalizedFrom(m, map[unusual := mine] + HostFiles(map[p := theirs]))
    ensures p in m && m[p] == mine
  {
    var chi := map[p := theirs];
    assert HostFiles(chi) == chi;
    FilesOfCluster(m, map[unusual := mine], chi, p);
    assert Unusual(map[unusual := mine], p, unusual);
  }

  /** A cluster that spells the path normally loses its own. */
  lemma {:induction false} NormalSpellingLoses(m: Map, p: Path, mine: Setting, theirs: Setting)
    requires IsHostFile(p) && Norm(p) == p
    requires NormalizedFrom(m, map[p := mine] + HostFiles(map[p := theirs]))
    ensures p in m && m[p] == theirs
  {
    var chi := map[p := theirs];
    assert HostFiles(chi) == chi;
    FilesOfCluster(m, map[p := mine], chi, p);
    assert forall k :: !Unusual(map[p := mine], p, k);
  }

  /** Such as /HOST/a and HOST/a. */
  lemma {:induction false} LeadingSlashKeepsOwnFile(m: Map, n: Map, mine: Setting, theirs: Setting)
    requires NormalizedFrom(m, map[Path("/HOST/a") := mine] + HostFiles(map[Path("HOST/a") := theirs]))
    requires NormalizedFrom(n, map[Path("HOST/a") := mine] + HostFiles(map[Path("HOST/a") := theirs]))
    ensures Path("HOST/a") in m && m[Path("HOST/a")] == mine
    ensures Path("HOST/a") in n && n[Path("HOST/a")] == theirs
  {
    ExampleIsHostFile();
    ExampleSpelling();
    UnusualSpellingKeeps(m, Path("HOST/a"), Path("/HOST/a"), mine, theirs);
    NormalSpellingLoses(n, Path("HOST/a"), mine, theirs);
  }

  lemma {:induction false} ExampleSpelling()
    ensures Norm(Path("/HOST/a")) == Norm(Path("HOST/a")) == Path("HOST/a")
  {
    var s := "/HOST/a";
    assert s[1..] == "HOST/a";
    Paths.CollapseLaws(s);
    Paths.CollapseLaws("HOST/a");
    assert Paths.TrimLeft("HOST/a") == "HOST/a" == Paths.TrimLeft(s);
    assert Paths.TrimRight("HOST/a") == "HOST/a";
  }

  lemma {:induction false} ExampleIsHostFile()
    ensures IsHostFile(Path("HOST/a"))
  {
    var s := "HOST/a";
    assert s[4] == '/';
    HeadOf("HOST", "a");
    assert s == "HOST" + "/" + "a";
  }

  /** What comes before the first slash. */
  lemma {:induction false} HeadOf(name: string, rest: string)
    requires '/' !in name
    ensures Head(name + "/" + rest) == name
  {
    var s := name + "/" + rest;
    if name != "" {
      assert s[0] == name[0] && s[1..] == name[1..] + "/" + rest;
      HeadOf(name[1..], rest);
    }
  }

  ghost predicate FileValue(own: Map, parent: Map, p: Path, v: Setting) {
    if exists k :: Unusual(own, p, k)
    then exists k :: Unusual(own, p, k) && own[k] == v
    else if p in parent then v == parent[p]
    else p in own && v == own[p]
  }

  lemma {:induction false} OverriddenFiles(m: Map, own: Map, parent: Map, p: Path)
    requires forall k :: k in parent ==> Norm(k) == k
    requires NormalizedFrom(m, own + parent)
    ensures p in m <==> Spelled(own, p) || p in parent
    ensures p in m ==> FileValue(own, parent, p, m[p])
  {
    var merged := own + parent;
    forall k
      ensures Unusual(merged, p, k) <==> Unusual(own, p, k)
    {}
    if k :| k in own && Norm(k) == p {
      assert k in merged;
    }
    if k :| k in merged && Norm(k) == p {
      assert k in own || k == p;
    }
    if p in parent {
      assert p in merged;
    }
  }

  /** The files of a cluster, of one of its shards or replicas, and of one of that one's hosts, in the order of
      normalizeCluster; the files of the installation are normalised by then. */
  method InheritFiles(chi: Settings?, cluster: Settings?, parent: Settings?, host: Settings?)
    returns (clusters: Settings?, parents: Settings?, hosts: Settings?)
    requires forall k :: k in Content(chi) ==> Norm(k) == k
    requires cluster == null || cluster != chi
    requires parent == null || (parent != chi && parent != cluster)
    requires host == null || (host != chi && host != cluster && host != parent)
    modifies cluster, parent, host
    ensures Content(chi) == old(Content(chi))
    ensures var top := old(Content(cluster)) + HostFiles(old(Content(chi)));
            && Inherited(Content(clusters), [top])
            && Inherited(Content(parents), [old(Content(parent)), top])
            && Inherited(Content(hosts), [old(Content(host)), old(Content(parent)), top])
  {
    ghost var clusterLevel := [Content(cluster) + HostFiles(Content(chi))];
    ghost var parentLevels := [Content(parent)] + clusterLevel;
    ghost var hostLevels := [Content(host)] + parentLevels;
    assert parentLevels == [Content(parent), clusterLevel[0]];
    assert hostLevels == [Content(host), Content(parent), clusterLevel[0]];
    clusters := InheritFilesFrom(cluster, chi);
    InheritByCluster(clusters);
    parents := InheritFrom(parent, clusters, clusterLevel);
    hosts := InheritFrom(host, parents, parentLevels);
  }

  // ---- The order of strings ----------------------------------------------------------------------------

  predicate Less(s: string, t: string) {
    t != "" && (s == "" || s[0] < t[0] || (s[0] == t[0] && Less(s[1..], t[1..])))
  }

  lemma {:induction false} LessIsTransitive(s: string, t: string, u: string)
    requires Less(s, t) && Less(t, u)
    ensures Less(s, u)
  {
    if s != "" && s[0] == t[0] == u[0] {
      LessIsTransitive(s[1..], t[1..], u[1..]);
    }
  }

  lemma {:induction false} LessIsTotal(s: string, t: string)
    ensures Less(s, t) || s == t || Less(t, s)
  {
    if s != "" && t != "" && s[0] == t[0] {
      LessIsTotal(s[1..], t[1..]);
      assert s == [s[0]] + s[1..] && t == [t[0]] + t[1..];
    }
  }

  lemma {:induction false} LessIsStrict(s: string, t: string)
    requires Less(s, t)
    ensures s != t && !Less(t, s)
  {
    if s != "" && s[0] == t[0] {
      LessIsStrict(s[1..], t[1..]);
    }
  }

  // ---- Sorted keys ---------------------------------------------------------------------------------------

  predicate Ascending(keys: seq<Path>) {
    forall i, j :: 0 <= i < j < |keys| ==> Less(keys[i].text, keys[j].text)
  }

  function Insert(keys: seq<Path>, k: Path): seq<Path> {
    if keys == [] || Less(k.text, keys[0].text) then [k] + keys
    else [keys[0]] + Insert(keys[1..], k)
  }

  lemma {:induction false} InsertKeepsOrder(keys: seq<Path>, k: Path)
    requires Ascending(keys) && k !in keys
    ensures Ascending(Insert(keys, k))
    ensures forall x :: x in Insert(keys, k) <==> x in keys || x == k
  {
    if keys == [] {
    } else if Less(k.text, keys[0].text) {
      forall j | 0 <= j < |keys|
        ensures Less(k.text, keys[j].text)
      {
        if j > 0 {
          LessIsTransitive(k.text, keys[0].text, keys[j].text);
        }
      }
    } else {
      InsertKeepsOrder(keys[1..], k);
      LessIsTotal(k.text, keys[0].text);
      assert keys == [keys[0]] + keys[1..];
      var rest := Insert(keys[1..], k);
      forall j | 0 <= j < |rest|
        ensures Less(keys[0].text, rest[j].text)
      {
        assert rest[j] in rest;
      }
    }
  }

  /** A set of keys has one ascending list. */
  lemma {:induction false} AscendingIsUnique(a: seq<Path>, b: seq<Path>)
    requires Ascending(a) && Ascending(b)
    requires forall x :: x in a <==> x in b
    ensures a == b
  {
    assert a != [] ==> a[0] in a;
    assert b != [] ==> b[0] in b;
    if a != [] {
      FirstIsLeast(a, b);
      FirstIsLeast(b, a);
      forall x
        ensures x in a[1..] <==> x in b[1..]
      {
        TailLacksHead(a, x);
        TailLacksHead(b, x);
      }
      AscendingIsUnique(a[1..], b[1..]);
      assert a == [a[0]] + a[1..] && b == [b[0]] + b[1..];
    }
  }

  lemma {:induction false} FirstIsLeast(a: seq<Path>, b: seq<Path>)
    requires Ascending(a) && Ascending(b) && a != [] && b != []
    requires a[0] in b && b[0] in a
    ensures a[0] == b[0]
  {
    var i :| 0 <= i < |b| && b[i] == a[0];
    var j :| 0 <= j < |a| && a[j] == b[0];
    if i > 0 && j > 0 {
      LessIsStrict(a[0].text, a[j].text);
    }
  }

  lemma {:induction false} TailLacksHead(a: seq<Path>, x: Path)
    requires Ascending(a) && a != []
    ensures x in a[1..] <==> x in a && x != a[0]
  {
    if x in a[1..] {
      var j :| 0 <= j < |a[1..]| && a[1..][j] == x;
      LessIsStrict(a[0].text, a[j + 1].text);
    }
  }

  // ---- AsSortedSliceOfStrings ------------------------------------------------------------------------------

  /** strings.Join */
  function JoinWithComma(parts: seq<string>): string {
    if parts == [] then ""
    else if |parts| == 1 then parts[0]
    else parts[0] + "," + JoinWithComma(parts[1..])
  }

  /** Setting.String */
  function Render(v: Setting): string {
    match v
    case Scalar(scalar) => scalar
    case Vector(vector) => JoinWithComma(vector)
  }

  function Lines(m: Map, keys: seq<Path>): seq<string>
    requires forall k :: k in keys ==> k in m
  {
    if keys == [] then []
    else
      assert keys[|keys| - 1] in keys;
      Lines(m, keys[..|keys| - 1]) + [keys[|keys| - 1].text, Render(m[keys[|keys| - 1]])]
  }

  /** The keys in ascending order, each followed by its value rendered. */
  ghost predicate IsSortedSlice(m: Map, res: seq<string>) {
    exists keys :: ListsKeys(m, keys) && res == Lines(m, keys)
  }

  ghost predicate ListsKeys(m: Map, keys: seq<Path>) {
    Ascending(keys) && forall k :: k in keys <==> k in m
  }

  method AsSortedSliceOfStrings(s: Settings?) returns (res: seq<string>)
    ensures IsSortedSlice(Content(s), res)
  {
    res := [];
    if s == null {
      assert ListsKeys(Content(s), []);
      return;
    }
    var keys := SortedKeys(s);
    for i := 0 to |keys|
      invariant res == Lines(s.m, keys[..i])
    {
      var sofar := keys[..i + 1];
      assert sofar[..i] == keys[..i] && sofar[i] == keys[i];
      res := res + [keys[i].text];
      res := res + [Render(s.m[keys[i]])];
    }
    assert keys[..|keys|] == keys;
  }

  /** The keys, collected in any order and sorted. */
  method SortedKeys(s: Settings) returns (keys: seq<Path>)
    ensures ListsKeys(s.m, keys)
  {
    keys := [];
    var todo := s.m.Keys;
    while todo != {}
      invariant todo <= s.m.Keys
      invariant Ascending(keys)
      invariant forall k :: k in keys <==> k in s.m.Keys - todo
      decreases todo
    {
      var k :| k in todo;
      todo := todo - {k};
      InsertKeepsOrder(keys, k);
      keys := Insert(keys, k);
    }
  }

  // ---- What the slice tells ----------------------------------------------------------------------------------

  /** The same keys with the same rendered values. */
  ghost predicate Alike(m: Map, n: Map) {
    m.Keys == n.Keys && forall p :: p in m ==> Render(m[p]) == Render(n[p])
  }

  lemma {:induction false} LinesAt(m: Map, keys: seq<Path>, i: nat)
    requires forall k :: k in keys ==> k in m
    requires i < |keys|
    ensures |Lines(m, keys)| == 2 * |keys|
    ensures keys[i] in m
    ensures Lines(m, keys)[2 * i] == keys[i].text && Lines(m, keys)[2 * i + 1] == Render(m[keys[i]])
  {
    var last := |keys| - 1;
    LinesLength(m, keys);
    LinesLength(m, keys[..last]);
    assert keys[i] in keys;
    if i < last {
      LinesAt(m, keys[..last], i);
    }
  }

  lemma {:induction false} LinesLength(m: Map, keys: seq<Path>)
    requires forall k :: k in keys ==> k in m
    ensures |Lines(m, keys)| == 2 * |keys|
  {
    if keys != [] {
      LinesLength(m, keys[..|keys| - 1]);
    }
  }

  /** The slice is the same for every order in which the map is walked, and two maps have the same slice
      exactly when they are alike. */
  lemma {:induction false} SliceIsCanonical(m: Map, n: Map, r: seq<string>, t: seq<string>)
    requires IsSortedSlice(m, r) && IsSortedSlice(n, t)
    ensures r == t <==> Alike(m, n)
  {
    var a :| ListsKeys(m, a) && r == Lines(m, a);
    var b :| ListsKeys(n, b) && t == Lines(n, b);
    LinesLength(m, a);
    LinesLength(n, b);
    if r == t {
      SameSliceSameMap(m, n, a, b);
    }
    if Alike(m, n) {
      AscendingIsUnique(a, b);
      AlikeLines(m, n, a);
    }
  }

  lemma {:induction false} SameSliceSameMap(m: Map, n: Map, a: seq<Path>, b: seq<Path>)
    requires ListsKeys(m, a) && ListsKeys(n, b)
    requires |a| == |b| && Lines(m, a) == Lines(n, b)
    ensures Alike(m, n)
  {
    forall i | 0 <= i < |a|
      ensures a[i] in m && b[i] in n && a[i] == b[i] && Render(m[a[i]]) == Render(n[b[i]])
    {
      LinesAt(m, a, i);
      LinesAt(n, b, i);
    }
    assert a == b;
    forall p | p in m
      ensures p in n && Render(m[p]) == Render(n[p])
    {
      assert p in a;
    }
  }

  lemma {:induction false} AlikeLines(m: Map, n: Map, keys: seq<Path>)
    requires Alike(m, n)
    requires forall k :: k in keys ==> k in m
    ensures Lines(m, keys) == Lines(n, keys)
  {
    if keys != [] {
      AlikeLines(m, n, keys[..|keys| - 1]);
    }
  }

  // ---- The fingerprint of the files ----------------------------------------------------------------------------

  /** The path takes part in the fingerprint of a file map: its section is COMMON or HOST, or it has none. */
  predicate Fingerprinted(p: Path) {
    SectionOfPath(p) in {In(CommonSection), In(HostSection), NoSection}
  }

  function FingerprintedFiles(m: Map): Map {
    map p | p in m && Fingerprinted(p) :: m[p]
  }

  /** The argument of util.Fingerprint for one file map in calcFingerprints. */
  method FilesFingerprintInput(files: Settings?) returns (res: seq<string>)
    ensures IsSortedSlice(FingerprintedFiles(Content(files)), res)
  {
    var filtered := Filter(files, None, Some([UsersSection]), true);
    assert filtered.m == FingerprintedFiles(Content(files));
    res := AsSortedSliceOfStrings(filtered);
  }

  /** Two file maps give the same fingerprint input exactly when the files of COMMON, of HOST and of no
      section are alike: entries of USERS, and of unknown sections, never matter, all others always do. */
  lemma {:induction false} UsersFilesDoNotInterfere(m: Map, n: Map, r: seq<string>, t: seq<string>)
    requires IsSortedSlice(FingerprintedFiles(m), r) && IsSortedSlice(FingerprintedFiles(n), t)
    ensures r == t <==> forall p :: Fingerprinted(p) ==>
              (p in m <==> p in n) && (p in m ==> Render(m[p]) == Render(n[p]))
  {
    SliceIsCanonical(FingerprintedFiles(m), FingerprintedFiles(n), r, t);
    var fm, fn := FingerprintedFiles(m), FingerprintedFiles(n);
    if Alike(fm, fn) {
      forall p | Fingerprinted(p)
        ensures (p in m <==> p in n) && (p in m ==> Render(m[p]) == Render(n[p]))
      {
        assert p in fm.Keys <==> p in fn.Keys;
      }
    }
  }

  // ---- Sections, order and rendering, told without their definitions -------------------------------------------

  lemma {:induction false} SectionIsThatOfTheHead(name: string, p: Path, rest: string)
    requires '/' !in name && p.text == name + "/" + rest
    ensures SectionOfPath(p) == SectionOf(name)
  {
    HeadOf(name, rest);
    assert p.text[|name|] == '/';
  }

  /** The six names of the sections. */
  lemma {:induction false} SectionNames()
    ensures SectionOf("COMMON") == SectionOf("config.d") == In(CommonSection)
    ensures SectionOf("USERS") == SectionOf("users.d") == In(UsersSection)
    ensures SectionOf("HOST") == SectionOf("conf.d") == In(HostSection)
  {
    assert Fold("conf.d"[3]) != Fold("COMMON"[3]);
  }

  /** Two characters are taken for one another if they differ in case at most, or are both an s, short or long. */
  lemma {:induction false} FoldPairs(c: char, d: char)
    ensures Fold(c) == Fold(d) <==>
            || c == d
            || ('a' <= c <= 'z' && d as int == c as int - 32)
            || ('a' <= d <= 'z' && c as int == d as int - 32)
            || (c in {'s', 'S', '\U{017F}'} && d in {'s', 'S', '\U{017F}'})
  {
  }

  /** Names that differ in such characters only are of one section. */
  lemma {:induction false} SectionsFold(name: string, other: string)
    requires |name| == |other| && forall i :: 0 <= i < |name| ==> Fold(name[i]) == Fold(other[i])
    ensures SectionOf(name) == SectionOf(other)
  {
    forall known: string
      ensures EqualFold(name, known) <==> EqualFold(other, known)
    {
    }
  }

  lemma {:induction false} UnknownNames(name: string)
    requires forall known :: known in {"COMMON", "config.d", "USERS", "users.d", "HOST", "conf.d"} ==>
               |name| != |known| || exists i :: 0 <= i < |name| && Fold(name[i]) != Fold(known[i])
    ensures SectionOf(name) == UnknownSection
  {
  }

  /** Paths of the six names of sections; a path without a slash has no section. */
  lemma {:induction false} SectionsByName(rest: string)
    ensures SectionOfPath(Path("COMMON" + "/" + rest)) == In(CommonSection)
    ensures SectionOfPath(Path("config.d" + "/" + rest)) == In(CommonSection)
    ensures SectionOfPath(Path("USERS" + "/" + rest)) == In(UsersSection)
    ensures SectionOfPath(Path("users.d" + "/" + rest)) == In(UsersSection)
    ensures SectionOfPath(Path("HOST" + "/" + rest)) == In(HostSection)
    ensures SectionOfPath(Path("conf.d" + "/" + rest)) == In(HostSection)
    ensures '/' !in rest ==> SectionOfPath(Path(rest)) == NoSection
  {
    SectionNames();
    forall name | name in {"COMMON", "config.d", "USERS", "users.d", "HOST", "conf.d"}
      ensures SectionOfPath(Path(name + "/" + rest)) == SectionOf(name)
    {
      SectionIsThatOfTheHead(name, Path(name + "/" + rest), rest);
    }
  }

  /** The order is that of the first letter in which two strings differ, the shorter first if there is none. */
  lemma {:induction false} LessIsLexicographic(s: string, t: string)
    ensures Less(s, t) <==> exists k :: FirstDifference(s, t, k)
  {
    if Less(s, t) {
      if s == "" || s[0] < t[0] {
        assert FirstDifference(s, t, 0);
      } else {
        LessIsLexicographic(s[1..], t[1..]);
        var k :| FirstDifference(s[1..], t[1..], k);
        assert s[..k + 1] == [s[0]] + s[1..][..k] && t[..k + 1] == [t[0]] + t[1..][..k];
        assert FirstDifference(s, t, k + 1);
      }
    }
    if k :| FirstDifference(s, t, k) {
      DifferenceIsLess(s, t, k);
    }
  }

  predicate FirstDifference(s: string, t: string, k: int) {
    0 <= k <= |s| && k < |t| && s[..k] == t[..k] && (k == |s| || s[k] < t[k])
  }

  lemma {:induction false} DifferenceIsLess(s: string, t: string, k: int)
    requires FirstDifference(s, t, k)
    ensures Less(s, t)
  {
    if k > 0 {
      assert s[0] == s[..k][0] == t[..k][0] == t[0];
      assert s[1..][..k - 1] == s[..k][1..] == t[..k][1..] == t[1..][..k - 1];
      DifferenceIsLess(s[1..], t[1..], k - 1);
    }
  }

  /** A scalar is rendered as it is, a list with commas between its parts and nothing else. */
  lemma {:induction false} RenderedParts(scalar: string, a: seq<string>, b: seq<string>)
    requires a != [] && b != []
    ensures Render(Scalar(scalar)) == scalar == Render(Vector([scalar])) && Render(Vector([])) == ""
    ensures Render(Vector(a + b)) == Render(Vector(a)) + "," + Render(Vector(b))
  {
    if |a| == 1 {
      assert (a + b)[1..] == b;
    } else {
      RenderedParts(scalar, a[1..], b);
      assert (a + b)[1..] == a[1..] + b;
    }
  }
}
