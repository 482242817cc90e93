/** The vault path operations the core importer calls through `VaultPathApi`
    (packages/core/src/io.ts), as the importer's own tests define them
    (packages/core/__tests__/importer.test.ts): forward slashes only, runs of
    slashes collapsed. */
module VaultPath {
  import opened Wrappers
  import opened Strings

  /** The characters at `i - 1` and `i` are both slashes. */
  predicate DoubleSlashAt(s: seq<char>, i: nat)
    requires 0 < i < |s|
  {
    s[i - 1] == '/' && s[i] == '/'
  }

  /** No two slashes in a row. */
  predicate NoDoubleSlash(s: seq<char>) {
    forall i :: 0 < i < |s| ==> !DoubleSlashAt(s, i)
  }

  /** The characters of `s` other than `/`, in order. */
  function NonSlashes(s: seq<char>): seq<char> {
    if s == [] then [] else NonSlashes(s[..|s| - 1]) + if s[|s| - 1] == '/' then [] else [s[|s| - 1]]
  }

  /** `path.replace(/\/+/g, "/")`: every run of slashes becomes one slash,
      and the first and last characters keep their kind; the other
      characters are kept in order (`CollapseSlashesKeepsNonSlashes`). */
  function CollapseSlashes(s: seq<char>): (r: seq<char>)
    ensures |r| <= |s| && (r == [] <==> s == [])
    ensures NoDoubleSlash(r)
    ensures s != [] ==> (r[0] == '/' <==> s[0] == '/')
    ensures s != [] ==> r[|r| - 1] == s[|s| - 1]
    ensures '/' !in s ==> r == s
  {
    if |s| <= 1 then s
    else
      var p := s[..|s| - 1];
      var r := CollapseSlashes(p);
      PrefixOf(s);
      if s[|s| - 1] == '/' && s[|s| - 2] == '/' then
        r
      else
        AppendKeepsNoDoubleSlash(r, s[|s| - 1]);
        r + [s[|s| - 1]]
  }

  /** Collapsing removes slashes only: the other characters are kept, in
      order. */
  lemma {:induction false} CollapseSlashesKeepsNonSlashes(s: seq<char>)
    ensures NonSlashes(CollapseSlashes(s)) == NonSlashes(s)
    decreases |s|
  {
    if |s| > 1 {
      var p := s[..|s| - 1];
      var r := CollapseSlashes(p);
      CollapseSlashesKeepsNonSlashes(p);
      if s[|s| - 1] != '/' || s[|s| - 2] != '/' {
        CollapseKeepsLast(s);
        assert (r + [s[|s| - 1]])[..|r|] == r;
      }
    }
  }

  /** Dropping the last character adds no `/`. */
  lemma PrefixOf(s: seq<char>)
    requires |s| > 0
    ensures '/' !in s ==> '/' !in s[..|s| - 1]
  {
    assert forall i :: 0 <= i < |s| - 1 ==> s[..|s| - 1][i] == s[i];
  }

  /** Appending a character after a non-slash, or a non-slash after
      anything, makes no double slash. */
  lemma AppendKeepsNoDoubleSlash(r: seq<char>, c: char)
    requires NoDoubleSlash(r)
    requires r == [] || r[|r| - 1] != '/' || c != '/'
    ensures NoDoubleSlash(r + [c])
  {
    var t := r + [c];
    forall i | 0 < i < |t|
      ensures !DoubleSlashAt(t, i)
    {
      if i < |r| {
        assert t[i - 1] == r[i - 1] && t[i] == r[i];
        assert !DoubleSlashAt(r, i);
      }
    }
  }

  /** Collapsing changes nothing in a path without double slashes, so
      collapsing twice is collapsing once. */
  lemma {:induction false} CollapseSlashesFixpoint(s: seq<char>)
    requires NoDoubleSlash(s)
    ensures CollapseSlashes(s) == s
    decreases |s|
  {
    if |s| > 1 {
      var p := s[..|s| - 1];
      NoDoubleSlashPrefix(s, |s| - 1);
      CollapseSlashesFixpoint(p);
      assert !DoubleSlashAt(s, |s| - 1);
      CollapseKeepsLast(s);
      assert s == p + [s[|s| - 1]];
    }
  }

  /** A prefix of a path without double slashes has none either. */
  lemma NoDoubleSlashPrefix(s: seq<char>, k: nat)
    requires k <= |s| && NoDoubleSlash(s)
    ensures NoDoubleSlash(s[..k])
  {
    forall i | 0 < i < k
      ensures !DoubleSlashAt(s[..k], i)
    {
      assert s[..k][i - 1] == s[i - 1] && s[..k][i] == s[i];
      assert !DoubleSlashAt(s, i);
    }
  }

  /** A suffix of a path without double slashes has none either. */
  lemma NoDoubleSlashSuffix(s: seq<char>, k: nat)
    requires k <= |s| && NoDoubleSlash(s)
    ensures NoDoubleSlash(s[k..])
  {
    forall i | 0 < i < |s[k..]|
      ensures !DoubleSlashAt(s[k..], i)
    {
      assert s[k..][i - 1] == s[k + i - 1] && s[k..][i] == s[k + i];
      assert !DoubleSlashAt(s, k + i);
    }
  }

  /** When the last two characters are not both slashes, collapsing keeps
      the last one. */
  lemma CollapseKeepsLast(s: seq<char>)
    requires |s| > 1 && (s[|s| - 2] != '/' || s[|s| - 1] != '/')
    ensures CollapseSlashes(s) == CollapseSlashes(s[..|s| - 1]) + [s[|s| - 1]]
  {
  }

  /** Collapsing after one more character depends only on the collapsed
      prefix and on whether a slash follows a slash. */
  lemma CollapseSnoc(x: seq<char>, c: char)
    requires x != []
    ensures x[|x| - 1] == '/' && c == '/' ==> CollapseSlashes(x + [c]) == CollapseSlashes(x)
    ensures x[|x| - 1] != '/' || c != '/' ==> CollapseSlashes(x + [c]) == CollapseSlashes(x) + [c]
  {
    var s := x + [c];
    assert s[..|s| - 1] == x;
    if x[|x| - 1] != '/' || c != '/' {
      CollapseKeepsLast(s);
    }
  }

  /** A run of two slashes collapses like a single slash wherever it
      stands; with `CollapseSlashesFixpoint` this fixes the value of
      `CollapseSlashes` on every path: each run of slashes becomes exactly
      one slash. */
  lemma {:induction false} CollapseSlashesOfRun(a: seq<char>, b: seq<char>)
    ensures CollapseSlashes(a + "//" + b) == CollapseSlashes(a + "/" + b)
    decreases |b|
  {
    if b == [] {
      assert a + "//" + b == (a + "/") + ['/'];
      assert a + "/" + b == a + "/";
      CollapseSnoc(a + "/", '/');
    } else {
      var p, c := b[..|b| - 1], b[|b| - 1];
      CollapseSlashesOfRun(a, p);
      var x1, x2 := a + "//" + p, a + "/" + p;
      assert a + "//" + b == x1 + [c];
      assert a + "/" + b == x2 + [c];
      assert x1[|x1| - 1] == x2[|x2| - 1];
      CollapseSnoc(x1, c);
      CollapseSnoc(x2, c);
    }
  }

  /** The test double's `normalize`: collapse slashes, then drop one
      trailing slash. Only slashes are removed (`NormalizeKeepsNonSlashes`). */
  function Normalize(p: seq<char>): (r: seq<char>)
    ensures NoDoubleSlash(r)
    ensures r == [] || r[|r| - 1] != '/'
    ensures '/' !in p ==> r == p
  {
    var c := CollapseSlashes(p);
    if c != [] && c[|c| - 1] == '/' then
      if |c| >= 2 then
        assert !DoubleSlashAt(c, |c| - 1);
        NoDoubleSlashPrefix(c, |c| - 1);
        c[..|c| - 1]
      else []
    else c
  }

  /** Normalising removes slashes only: the other characters are kept, in
      order. */
  lemma NormalizeKeepsNonSlashes(p: seq<char>)
    ensures NonSlashes(Normalize(p)) == NonSlashes(p)
  {
    var c := CollapseSlashes(p);
    CollapseSlashesKeepsNonSlashes(p);
    if c != [] && c[|c| - 1] == '/' {
      assert c == c[..|c| - 1] + [c[|c| - 1]];
    }
  }

  /** A double slash normalises like a single one wherever it stands, so
      with `NormalizeIdempotent` the value of `Normalize` is fixed on every
      path. */
  lemma NormalizeOfRun(a: seq<char>, b: seq<char>)
    ensures Normalize(a + "//" + b) == Normalize(a + "/" + b)
  {
    CollapseSlashesOfRun(a, b);
  }

  /** Normalising a normalised path changes nothing. */
  lemma NormalizeIdempotent(p: seq<char>)
    ensures Normalize(Normalize(p)) == Normalize(p)
  {
    var n := Normalize(p);
    CollapseSlashesFixpoint(n);
  }

  /** The test double's `join` of two parts: empty parts are dropped, the
      rest joined with `/`, and slash runs collapsed. */
  function Join(a: seq<char>, b: seq<char>): (r: seq<char>)
    ensures NoDoubleSlash(r)
    ensures a == [] ==> r == CollapseSlashes(b)
    ensures b == [] ==> r == CollapseSlashes(a)
    ensures a != [] && b != [] ==> r == CollapseSlashes(a + "/" + b)
  {
    if a == [] then CollapseSlashes(b)
    else if b == [] then CollapseSlashes(a)
    else CollapseSlashes(a + "/" + b)
  }

  /** The test double's `dirname`: the collapsed path before its last slash,
      or "" when that slash is missing or first. */
  function Dirname(p: seq<char>): (r: seq<char>)
    ensures var n := CollapseSlashes(p);
            r == [] || (|r| < |n| && r == n[..|r|] && n[|r|] == '/' && '/' !in n[|r| + 1..])
    ensures var n := CollapseSlashes(p);
            r == [] <==> (forall i :: 0 < i < |n| ==> n[i] != '/')
  {
    var n := CollapseSlashes(p);
    match LastIndexOf(n, '/')
    case None => []
    case Some(i) =>
      if i == 0 then
        assert forall j :: 0 < j < |n| ==> n[j] != '/' by {
          assert forall j :: 0 < j < |n| ==> n[j] == n[1..][j - 1];
        }
        []
      else n[..i]
  }

  /** Joining a folder and a file name, then taking the folder back: a
      folder without double, leading or trailing slashes comes back as it
      was. */
  lemma DirnameOfJoin(dir: seq<char>, name: seq<char>)
    requires dir != [] && NoDoubleSlash(dir) && dir[0] != '/' && dir[|dir| - 1] != '/'
    requires name != [] && '/' !in name
    ensures Dirname(Join(dir, name)) == dir
  {
    var s := dir + "/" + name;
    JoinedHasNoDoubleSlash(dir, name);
    CollapseSlashesFixpoint(s);
    assert Join(dir, name) == s;
    LastSlashOfJoined(dir, name);
    DirnameAtLastSlash(s, |dir|);
  }

  /** A collapsed path whose last slash is not its first character has the
      part before that slash as its folder. */
  lemma DirnameAtLastSlash(s: seq<char>, k: nat)
    requires CollapseSlashes(s) == s && LastIndexOf(s, '/') == Some(k) && k > 0
    ensures Dirname(s) == s[..k]
  {
  }

  lemma JoinedHasNoDoubleSlash(dir: seq<char>, name: seq<char>)
    requires dir != [] && NoDoubleSlash(dir) && dir[|dir| - 1] != '/'
    requires name != [] && '/' !in name
    ensures NoDoubleSlash(dir + "/" + name)
  {
    var s := dir + "/" + name;
    forall i | 0 < i < |s| ensures !DoubleSlashAt(s, i) {
      if i < |dir| {
        assert s[i - 1] == dir[i - 1] && s[i] == dir[i];
        assert !DoubleSlashAt(dir, i);
      } else if i == |dir| {
        assert s[i - 1] == dir[|dir| - 1];
      } else {
        assert s[i] == name[i - |dir| - 1];
      }
    }
  }

  lemma LastSlashOfJoined(dir: seq<char>, name: seq<char>)
    requires '/' !in name
    ensures LastIndexOf(dir + "/" + name, '/') == Some(|dir|)
    ensures (dir + "/" + name)[..|dir|] == dir
  {
    var s := dir + "/" + name;
    assert s[|dir|] == '/';
    assert s[|dir| + 1..] == name;
    LastIndexOfIs(s, '/', |dir|);
  }
}
