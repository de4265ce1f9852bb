/** Paths of settings and their normalisation (type_settings.go). */
module Paths {

  // ---- Paths -------------------------------------------------------------------------------------

  /** Every run of slashes becomes one slash. */
  function Collapse(s: string): string {
    if |s| < 2 then s
    else if s[0] == '/' && s[1] == '/' then Collapse(s[1..])
    else [s[0]] + Collapse(s[1..])
  }

  function TrimLeft(s: string): string {
    if s != "" && s[0] == '/' then TrimLeft(s[1..]) else s
  }

  function TrimRight(s: string): string {
    if s != "" && s[|s| - 1] == '/' then TrimRight(s[..|s| - 1]) else s
  }

  /** normalizeSettingsKeyAsPath */
  function Normalize(s: string): string {
    TrimRight(TrimLeft(Collapse(s)))
  }

  predicate NoDouble(s: string) {
    forall i :: 0 <= i < |s| - 1 ==> !(s[i] == '/' && s[i + 1] == '/')
  }

  /** A normalised path looks like a/b/c. */
  predicate Normal(s: string) {
    NoDouble(s) && (s != "" ==> s[0] != '/' && s[|s| - 1] != '/')
  }

  lemma {:induction false} TailNoDouble(s: string)
    requires s != "" && NoDouble(s)
    ensures NoDouble(s[1..])
  {
    forall i | 0 <= i < |s[1..]| - 1
      ensures !(s[1..][i] == '/' && s[1..][i + 1] == '/')
    {
      assert s[i + 1] == s[1..][i] && s[i + 2] == s[1..][i + 1];
    }
  }

  lemma {:induction false} CollapseLaws(s: string)
    ensures NoDouble(Collapse(s)) && |Collapse(s)| <= |s|
    ensures s != "" ==> Collapse(s) != "" && Collapse(s)[0] == s[0]
    ensures |Collapse(s)| == |s| ==> Collapse(s) == s
    ensures NoDouble(s) ==> Collapse(s) == s
  {
    if |s| >= 2 {
      CollapseLaws(s[1..]);
      if NoDouble(s) {
        TailNoDouble(s);
      }
      if !(s[0] == '/' && s[1] == '/') {
        var t := Collapse(s[1..]);
        assert s == [s[0]] + s[1..];
        forall i | 0 <= i < |t|
          ensures !(([s[0]] + t)[i] == '/' && ([s[0]] + t)[i + 1] == '/')
        {
          if i > 0 {
            assert ([s[0]] + t)[i] == t[i - 1] && ([s[0]] + t)[i + 1] == t[i];
          }
        }
      }
    }
  }

  lemma {:induction false} TrimLeftLaws(s: string)
    requires NoDouble(s)
    ensures NoDouble(TrimLeft(s)) && |TrimLeft(s)| <= |s|
    ensures TrimLeft(s) != "" ==> TrimLeft(s)[0] != '/'
    ensures |TrimLeft(s)| == |s| ==> TrimLeft(s) == s
  {
    if s != "" && s[0] == '/' {
      TailNoDouble(s);
      TrimLeftLaws(s[1..]);
    }
  }

  lemma {:induction false} TrimRightLaws(s: string)
    requires NoDouble(s) && (s != "" ==> s[0] != '/')
    ensures Normal(TrimRight(s)) && |TrimRight(s)| <= |s|
    ensures |TrimRight(s)| == |s| ==> TrimRight(s) == s
  {
    if s != "" && s[|s| - 1] == '/' {
      TrimRightLaws(s[..|s| - 1]);
    }
  }

  /** The result is normal, a normal path is left alone, and comparing lengths finds exactly the paths
      that normalisation changes. */
  lemma {:induction false} NormalizeLaws(s: string)
    ensures Normal(Normalize(s))
    ensures Normal(s) <==> Normalize(s) == s
    ensures |Normalize(s)| != |s| <==> Normalize(s) != s
    ensures Normalize(Normalize(s)) == Normalize(s)
  {
    NormalizeIsNormal(s);
    if Normal(s) {
      CollapseLaws(s);
    }
    NormalizeIsNormal(Normalize(s));
    CollapseLaws(Normalize(s));
  }

  lemma {:induction false} NormalizeIsNormal(s: string)
    ensures Normal(Normalize(s))
    ensures |Normalize(s)| <= |s|
    ensures |Normalize(s)| == |s| ==> Normalize(s) == s
  {
    CollapseLaws(s);
    TrimLeftLaws(Collapse(s));
    TrimRightLaws(TrimLeft(Collapse(s)));
  }

  // ---- Paths as lists of names: what normalisation keeps ------------------------------------------

  /** The names of a path: its maximal runs of characters other than slash. */
  function Names(s: string): seq<string> {
    if s == "" then []
    else if s[0] == '/' then Names(s[1..])
    else if |s| == 1 || s[1] == '/' then [[s[0]]] + Names(s[1..])
    else
      var rest := Names(s[1..]);
      if rest == [] then [[s[0]]] else [[s[0]] + rest[0]] + rest[1..]
  }

  function Join(names: seq<string>): string {
    if names == [] then ""
    else if |names| == 1 then names[0]
    else names[0] + "/" + Join(names[1..])
  }

  lemma {:induction false} CollapseKeepsNames(s: string)
    ensures Names(Collapse(s)) == Names(s)
  {
    if |s| >= 2 {
      CollapseKeepsNames(s[1..]);
      CollapseLaws(s[1..]);
      if !(s[0] == '/' && s[1] == '/') {
        var t := [s[0]] + Collapse(s[1..]);
        assert t[1..] == Collapse(s[1..]);
      }
    }
  }

  lemma {:induction false} TrimLeftKeepsNames(s: string)
    ensures Names(TrimLeft(s)) == Names(s)
  {
    if s != "" && s[0] == '/' {
      TrimLeftKeepsNames(s[1..]);
    }
  }

  lemma {:induction false} TrailingSlashKeepsNames(s: string)
    ensures Names(s + "/") == Names(s)
  {
    if s != "" {
      TrailingSlashKeepsNames(s[1..]);
      assert (s + "/")[1..] == s[1..] + "/";
    } else {
      assert ("/")[1..] == "";
    }
  }

  lemma {:induction false} TrimRightKeepsNames(s: string)
    ensures Names(TrimRight(s)) == Names(s)
  {
    if s != "" && s[|s| - 1] == '/' {
      TrimRightKeepsNames(s[..|s| - 1]);
      TrailingSlashKeepsNames(s[..|s| - 1]);
      assert s == s[..|s| - 1] + "/";
    }
  }

  lemma {:induction false} JoinAfter(name: string, names: seq<string>)
    requires names != []
    ensures Join([name] + names) == name + "/" + Join(names)
  {
    assert ([name] + names)[1..] == names;
  }

  lemma {:induction false} JoinLonger(c: char, names: seq<string>)
    requires names != []
    ensures Join([[c] + names[0]] + names[1..]) == [c] + Join(names)
  {
    var longer := [[c] + names[0]] + names[1..];
    assert longer[1..] == names[1..];
    assert |names| > 1 ==> ([c] + names[0]) + "/" + Join(names[1..]) == [c] + (names[0] + "/" + Join(names[1..]));
  }

  /** A path that does not end in a slash, nor double one, is its names joined, behind its first slash. */
  lemma {:induction false} NormalIsJoined(s: string)
    requires NoDouble(s) && (s != "" ==> s[|s| - 1] != '/')
    ensures s == if s != "" && s[0] == '/' then "/" + Join(Names(s)) else Join(Names(s))
    ensures s != "" ==> Names(s) != []
  {
    if s != "" {
      var rest := s[1..];
      assert s == [s[0]] + rest;
      TailNoDouble(s);
      NormalIsJoined(rest);
      if s[0] == '/' {
        assert rest[0] == s[1];
      } else if |s| == 1 {
        assert rest == "" && Names(s) == [[s[0]]];
      } else if s[1] == '/' {
        JoinAfter([s[0]], Names(rest));
      } else {
        JoinLonger(s[0], Names(rest));
      }
    }
  }

  /** Normalisation keeps the names of a path and writes them with single slashes between. */
  lemma {:induction false} NormalizeIsJoin(s: string)
    ensures Names(Normalize(s)) == Names(s)
    ensures Normalize(s) == Join(Names(s))
  {
    CollapseKeepsNames(s);
    TrimLeftKeepsNames(Collapse(s));
    TrimRightKeepsNames(TrimLeft(Collapse(s)));
    NormalizeIsNormal(s);
    NormalIsJoined(Normalize(s));
  }

  /** Two paths normalise alike exactly when they list the same names. */
  lemma {:induction false} SamePathIsSameNames(s: string, t: string)
    ensures Normalize(s) == Normalize(t) <==> Names(s) == Names(t)
  {
    NormalizeIsJoin(s);
    NormalizeIsJoin(t);
  }

  /** A name, a slash and more: the name comes first. */
  lemma {:induction false} NamesAfterSlash(name: string, rest: string)
    requires name != "" && '/' !in name
    ensures Names(name) == [name] && Names(name + "/" + rest) == [name] + Names(rest)
  {
    var s := name + "/" + rest;
    if |name| == 1 {
      assert s[1..] == "/" + rest && ("/" + rest)[1..] == rest;
      assert name[1..] == "" && name == [name[0]] && name[0] in name;
    } else {
      NamesAfterSlash(name[1..], rest);
      assert s[1..] == name[1..] + "/" + rest && name[0] in name;
      assert name == [name[0]] + name[1..];
    }
  }

  /** Joining names with slashes and reading the names of the path gives them back. */
  lemma {:induction false} NamesOfJoined(names: seq<string>)
    requires forall name :: name in names ==> name != "" && '/' !in name
    ensures Names(Join(names)) == names
  {
    if names != [] {
      assert names[0] in names && names == [names[0]] + names[1..];
      assert forall name :: name in names[1..] ==> name in names;
      NamesOfJoined(names[1..]);
      NamesAfterSlash(names[0], Join(names[1..]));
    }
  }

  /** So a path written with any slashes before, between and after two names is normalised to one slash between. */
  lemma {:induction false} TwoNames(a: string, b: string)
    requires a != "" && '/' !in a && b != "" && '/' !in b
    ensures Normalize("//" + a + "/" + "//" + b + "/") == a + "/" + b
  {
    var tail := "//" + b + "/";
    NamesAfterSlash(a, tail);
    NamesAfterSlash(b, "");
    assert b + "/" + "" == b + "/";
    assert tail[1..] == "/" + b + "/" && ("/" + b + "/")[1..] == b + "/";
    var s := "//" + (a + "/" + tail);
    assert s == "//" + a + "/" + "//" + b + "/";
    assert s[1..] == "/" + (a + "/" + tail) && ("/" + (a + "/" + tail))[1..] == a + "/" + tail;
    assert Names(s) == [a] + [b] == [a, b];
    NormalizeIsJoin(s);
    assert [a, b][1..] == [b];
  }
}
