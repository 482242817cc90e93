/** File naming for notes and attachments (packages/core/src/path-utils.ts):
    turning a conversation title into a safe file name, building the note and
    attachment file names, and finding a path's extension. */
module PathUtils {
  import opened Wrappers
  import opened Strings

  /** The characters of the `RESERVED` class `[<>:"/\\|?*]`. */
  predicate IsReserved(c: char) {
    c == '<' || c == '>' || c == ':' || c == '"' || c == '/' || c == '\\' || c == '|' || c == '?' || c == '*'
  }

  /** Characters whose code is at most 0x1F. */
  predicate IsControl(c: char) {
    c as int <= 0x1F
  }

  /** A character that sanitising turns into (part of) a separating space. */
  predicate IsJunk(c: char) {
    IsSpace(c) || IsReserved(c) || IsControl(c)
  }

  predicate NoReservedOrControl(s: seq<char>) {
    forall i :: 0 <= i < |s| ==> !IsReserved(s[i]) && !IsControl(s[i])
  }

  /** Whitespace occurs only as single `' '` characters. */
  predicate SingleSpaces(s: seq<char>) {
    && (forall i :: 0 <= i < |s| && IsSpace(s[i]) ==> s[i] == ' ')
    && NoDoubleSpace(s)
  }

  /** No two adjacent whitespace characters. */
  predicate NoDoubleSpace(s: seq<char>) {
    forall i, j :: 0 <= i < |s| && 0 <= j < |s| && j == i + 1 ==> !(IsSpace(s[i]) && IsSpace(s[j]))
  }

  predicate NoOuterSpace(s: seq<char>) {
    s == [] || (!IsSpace(s[0]) && !IsSpace(s[|s| - 1]))
  }

  /** The shape of every sanitised name: no reserved or control characters,
      whitespace only as single `' '` characters between other characters. */
  predicate Clean(s: seq<char>) {
    NoReservedOrControl(s) && SingleSpaces(s) && NoOuterSpace(s)
  }

  lemma SliceKeepsShape(s: seq<char>, a: nat, b: nat)
    requires a <= b <= |s|
    ensures NoReservedOrControl(s) ==> NoReservedOrControl(s[a..b])
    ensures SingleSpaces(s) ==> SingleSpaces(s[a..b])
  {
    var t := s[a..b];
    assert forall i :: 0 <= i < |t| ==> t[i] == s[a + i];
  }

  /** `stripControlChars`: every control character becomes a space. */
  function StripControlChars(s: seq<char>): (r: seq<char>)
    ensures |r| == |s|
    ensures forall i :: 0 <= i < |s| ==> r[i] == (if IsControl(s[i]) then ' ' else s[i])
  {
    if s == [] then [] else [if IsControl(s[0]) then ' ' else s[0]] + StripControlChars(s[1..])
  }

  /** `.replace(RESERVED, " ")`: every reserved character becomes a space. */
  function ReplaceReserved(s: seq<char>): (r: seq<char>)
    ensures |r| == |s|
    ensures forall i :: 0 <= i < |s| ==> r[i] == (if IsReserved(s[i]) then ' ' else s[i])
  {
    if s == [] then [] else [if IsReserved(s[0]) then ' ' else s[0]] + ReplaceReserved(s[1..])
  }

  /** The non-whitespace characters of `s`, in order. */
  function NonSpaces(s: seq<char>): seq<char> {
    if s == [] then [] else (if IsSpace(s[0]) then [] else [s[0]]) + NonSpaces(s[1..])
  }

  lemma NonSpacesCons(c: char, x: seq<char>)
    ensures NonSpaces([c] + x) == (if IsSpace(c) then [] else [c]) + NonSpaces(x)
  {
    assert ([c] + x)[1..] == x;
  }

  /** `trimStart` removes only whitespace. */
  lemma {:induction false} NonSpacesOfTrimStart(s: seq<char>)
    ensures NonSpaces(TrimStart(s)) == NonSpaces(s)
    decreases |s|
  {
    if |s| > 0 && IsSpace(s[0]) {
      NonSpacesOfTrimStart(s[1..]);
    }
  }

  /** `.replace(/\s+/g, " ")`: every maximal run of whitespace becomes one
      space. The non-whitespace characters are kept, in order, and every
      other character of the result is a single space. */
  function CollapseSpaces(s: seq<char>): (r: seq<char>)
    ensures NonSpaces(r) == NonSpaces(s)
    ensures SingleSpaces(r)
    ensures r == [] <==> s == []
    ensures s != [] ==> (IsSpace(r[0]) <==> IsSpace(s[0]))
    decreases |s|
  {
    if s == [] then []
    else if IsSpace(s[0]) then
      var rest := TrimStart(s);
      assert rest == [] || rest[0] != s[0] || |rest| < |s|;
      NonSpacesOfTrimStart(s);
      NonSpacesCons(' ', CollapseSpaces(rest));
      SingleSpacesCons(' ', CollapseSpaces(rest));
      [' '] + CollapseSpaces(rest)
    else
      NonSpacesCons(s[0], CollapseSpaces(s[1..]));
      SingleSpacesCons(s[0], CollapseSpaces(s[1..]));
      [s[0]] + CollapseSpaces(s[1..])
  }

  /** A space before a non-space, or a non-space before anything, keeps
      whitespace single. */
  lemma SingleSpacesCons(c: char, x: seq<char>)
    requires SingleSpaces(x)
    requires c == ' ' || !IsSpace(c)
    requires IsSpace(c) ==> x == [] || !IsSpace(x[0])
    ensures SingleSpaces([c] + x)
  {
    var t := [c] + x;
    assert forall i :: 0 < i < |t| ==> t[i] == x[i - 1];
  }

  /** The sanitising pipeline before the "untitled" fallback. */
  function Cleaned(input: seq<char>): seq<char> {
    Trim(CollapseSpaces(ReplaceReserved(StripControlChars(input))))
  }

  /** `sanitizeFileName`: never empty, and always clean. */
  function SanitizeFileName(input: seq<char>): (r: seq<char>)
    ensures r != []
    ensures Clean(r)
  {
    var cleaned := Cleaned(input);
    CleanedIsClean(input);
    UntitledIsClean();
    if |cleaned| > 0 then cleaned else "untitled"
  }

  lemma UntitledIsClean()
    ensures Clean("untitled")
  {
    var u := "untitled";
    assert forall i :: 0 <= i < |u| ==> 'a' <= u[i] <= 'z';
    LettersAreClean(u);
  }

  lemma LettersAreClean(s: seq<char>)
    requires forall i :: 0 <= i < |s| ==> 'a' <= s[i] <= 'z'
    ensures Clean(s)
  {
  }

  lemma CleanedIsClean(input: seq<char>)
    ensures Clean(Cleaned(input))
  {
    var a := ReplaceReserved(StripControlChars(input));
    ReplacedHasNoReservedOrControl(input);
    CollapseKeepsNoReservedOrControl(a);
    TrimKeepsShape(CollapseSpaces(a));
  }

  lemma ReplacedHasNoReservedOrControl(input: seq<char>)
    ensures NoReservedOrControl(ReplaceReserved(StripControlChars(input)))
  {
    var x := StripControlChars(input);
    assert forall i :: 0 <= i < |x| ==> !IsControl(x[i]);
  }

  lemma CollapseKeepsNoReservedOrControl(a: seq<char>)
    requires NoReservedOrControl(a)
    ensures NoReservedOrControl(CollapseSpaces(a)) && SingleSpaces(CollapseSpaces(a))
  {
    var r := CollapseSpaces(a);
    forall i | 0 <= i < |r|
      ensures !IsReserved(r[i]) && !IsControl(r[i])
    {
      if !IsSpace(r[i]) {
        NonSpacesHas(r, i);
        NonSpacesFrom(a, r[i]);
        var k :| 0 <= k < |a| && a[k] == r[i];
      }
    }
  }

  /** A non-whitespace character is among the non-whitespace characters. */
  lemma {:induction false} NonSpacesHas(s: seq<char>, i: nat)
    requires i < |s| && !IsSpace(s[i])
    ensures s[i] in NonSpaces(s)
    decreases i
  {
    if i > 0 {
      NonSpacesHas(s[1..], i - 1);
    }
  }

  /** The non-whitespace characters are characters of the string. */
  lemma {:induction false} NonSpacesFrom(s: seq<char>, c: char)
    requires c in NonSpaces(s)
    ensures exists k :: 0 <= k < |s| && s[k] == c
    decreases |s|
  {
    if s[0] != c {
      NonSpacesFrom(s[1..], c);
      var k :| 0 <= k < |s[1..]| && s[1..][k] == c;
      assert s[k + 1] == c;
    }
  }

  lemma TrimKeepsShape(b: seq<char>)
    requires NoReservedOrControl(b) && SingleSpaces(b)
    ensures Clean(Trim(b))
  {
    var c := TrimStart(b);
    var d := TrimEnd(c);
    assert NoReservedOrControl(c) && SingleSpaces(c) by {
      SliceKeepsShape(b, |b| - |c|, |b|);
    }
    assert NoReservedOrControl(d) && SingleSpaces(d) by {
      SliceKeepsShape(c, 0, |d|);
    }
    assert NoOuterSpace(d);
  }

  /** The fallback to "untitled" happens exactly when every character of the
      input is whitespace, reserved or a control character. */
  lemma SanitizeFallsBackIffJunk(input: seq<char>)
    ensures Cleaned(input) == [] <==> forall i :: 0 <= i < |input| ==> IsJunk(input[i])
  {
    if forall i :: 0 <= i < |input| ==> IsJunk(input[i]) {
      JunkCleansToEmpty(input);
    } else {
      var i :| 0 <= i < |input| && !IsJunk(input[i]);
      NonJunkSurvives(input, i);
    }
  }

  lemma JunkCleansToEmpty(input: seq<char>)
    requires forall i :: 0 <= i < |input| ==> IsJunk(input[i])
    ensures Cleaned(input) == []
  {
    var a := ReplaceReserved(StripControlChars(input));
    CollapseOfBlank(a);
    TrimEmptyIffBlank(CollapseSpaces(a));
  }

  lemma NonJunkSurvives(input: seq<char>, i: nat)
    requires i < |input| && !IsJunk(input[i])
    ensures Cleaned(input) != []
  {
    var a := ReplaceReserved(StripControlChars(input));
    assert a[i] == input[i];
    CollapseKeepsNonSpace(a, i);
    TrimEmptyIffBlank(CollapseSpaces(a));
  }

  /** A run of whitespace collapses to one space. */
  lemma CollapseOfBlank(a: seq<char>)
    requires AllSpace(a)
    ensures AllSpace(CollapseSpaces(a))
    ensures a != [] ==> CollapseSpaces(a) == " "
  {
    assert forall c :: c in a ==> IsSpace(c);
    if a != [] {
    }
  }

  /** Any two non-empty runs of whitespace collapse alike wherever they
      stand: a run of one whitespace character or of several becomes the
      same single space. With `CollapseOfClean` this fixes the value of
      `CollapseSpaces` on every input. */
  lemma {:induction false} CollapseSpacesOfRun(a: seq<char>, x: seq<char>, y: seq<char>, b: seq<char>)
    requires x != [] && AllSpace(x)
    requires y != [] && AllSpace(y)
    ensures CollapseSpaces(a + x + b) == CollapseSpaces(a + y + b)
    decreases |a|, 1
  {
    if a == [] {
      assert a + x + b == x + b && a + y + b == y + b;
      RunAtStart(x, y, b);
    } else if AllSpace(a) {
      AllSpaceAppend(a, x);
      AllSpaceAppend(a, y);
      assert a + x + b == (a + x) + b && a + y + b == (a + y) + b;
      RunAtStart(a + x, a + y, b);
    } else {
      RunAfterHead(a, x, y, b);
    }
  }

  /** The run lemma over a non-blank head: the head's first step is the
      same on both sides, and the run is carried into the rest. */
  lemma {:induction false} RunAfterHead(a: seq<char>, x: seq<char>, y: seq<char>, b: seq<char>)
    requires !AllSpace(a)
    requires x != [] && AllSpace(x)
    requires y != [] && AllSpace(y)
    ensures CollapseSpaces(a + x + b) == CollapseSpaces(a + y + b)
    decreases |a|, 0
  {
    var t, c := CollapseSpacesShift(a, x, y, b);
    CollapseSpacesOfRun(t, x, y, b);
  }

  /** One step of collapsing over a non-blank head `a`: the same character
      (its first one, or one space for its leading whitespace) is emitted
      before either tail, and collapsing goes on with the same shorter rest
      `t` of `a`. */
  lemma CollapseSpacesShift(a: seq<char>, x: seq<char>, y: seq<char>, b: seq<char>) returns (t: seq<char>, c: char)
    requires !AllSpace(a)
    ensures |t| < |a|
    ensures CollapseSpaces(a + x + b) == [c] + CollapseSpaces(t + x + b)
    ensures CollapseSpaces(a + y + b) == [c] + CollapseSpaces(t + y + b)
  {
    t, c := HeadStep(a, x, b);
    var t', c' := HeadStep(a, y, b);
  }

  lemma HeadStep(a: seq<char>, x: seq<char>, b: seq<char>) returns (t: seq<char>, c: char)
    requires !AllSpace(a)
    ensures t == (if IsSpace(a[0]) then TrimStart(a) else a[1..])
    ensures c == (if IsSpace(a[0]) then ' ' else a[0])
    ensures |t| < |a|
    ensures CollapseSpaces(a + x + b) == [c] + CollapseSpaces(t + x + b)
  {
    t := if IsSpace(a[0]) then TrimStart(a) else a[1..];
    c := if IsSpace(a[0]) then ' ' else a[0];
    var s := a + x + b;
    HeadTail(a, x, b);
    CollapseSpacesUnfold(s);
  }

  /** Where collapsing `a + x + b` goes on after its first step, for a
      non-blank `a`. */
  lemma HeadTail(a: seq<char>, x: seq<char>, b: seq<char>)
    requires !AllSpace(a)
    ensures var s := a + x + b;
            && s[0] == a[0]
            && (if IsSpace(a[0]) then TrimStart(a) else a[1..]) + x + b == (if IsSpace(s[0]) then TrimStart(s) else s[1..])
            && |if IsSpace(a[0]) then TrimStart(a) else a[1..]| < |a|
  {
    var s := a + x + b;
    assert s[0] == a[0];
    if IsSpace(a[0]) {
      TrimStartBefore(a, x + b);
      ConcatAssoc(a, x, b);
      ConcatAssoc(TrimStart(a), x, b);
    } else {
      assert s[1..] == a[1..] + x + b;
    }
  }

  lemma ConcatAssoc(a: seq<char>, x: seq<char>, b: seq<char>)
    ensures a + x + b == a + (x + b)
  {
  }

  /** One step of `CollapseSpaces`. */
  lemma CollapseSpacesUnfold(s: seq<char>)
    requires s != []
    ensures CollapseSpaces(s)
            == if IsSpace(s[0]) then [' '] + CollapseSpaces(TrimStart(s)) else [s[0]] + CollapseSpaces(s[1..])
  {
  }

  /** A leading run of whitespace collapses to one space whatever its
      length. */
  lemma RunAtStart(x: seq<char>, y: seq<char>, b: seq<char>)
    requires x != [] && AllSpace(x)
    requires y != [] && AllSpace(y)
    ensures CollapseSpaces(x + b) == CollapseSpaces(y + b)
  {
    assert (x + b)[0] == x[0] && (y + b)[0] == y[0];
    TrimStartSkips(x, b);
    TrimStartSkips(y, b);
  }

  lemma AllSpaceAppend(a: seq<char>, x: seq<char>)
    requires AllSpace(a) && AllSpace(x)
    ensures AllSpace(a + x)
  {
    assert forall i :: 0 <= i < |a + x| ==> (a + x)[i] == if i < |a| then a[i] else x[i - |a|];
  }

  /** Leading whitespace is skipped entirely. */
  lemma {:induction false} TrimStartSkips(x: seq<char>, y: seq<char>)
    requires AllSpace(x)
    ensures TrimStart(x + y) == TrimStart(y)
    decreases |x|
  {
    if x != [] {
      assert (x + y)[1..] == x[1..] + y;
      TrimStartSkips(x[1..], y);
    } else {
      assert x + y == y;
    }
  }

  /** When `a` is not blank, its leading whitespace is all that is
      trimmed from `a + y`, and it is strictly shorter after trimming when
      it starts with whitespace. */
  lemma {:induction false} TrimStartBefore(a: seq<char>, y: seq<char>)
    requires !AllSpace(a)
    ensures TrimStart(a + y) == TrimStart(a) + y
    ensures IsSpace(a[0]) ==> |TrimStart(a)| < |a|
    decreases |a|
  {
    if IsSpace(a[0]) {
      assert (a + y)[1..] == a[1..] + y;
      assert !AllSpace(a[1..]) by {
        var i :| 0 <= i < |a| && !IsSpace(a[i]);
        assert a[1..][i - 1] == a[i];
      }
      TrimStartBefore(a[1..], y);
    }
  }

  /** A non-whitespace character survives the collapsing of whitespace runs. */
  lemma {:induction false} CollapseKeepsNonSpace(s: seq<char>, i: nat)
    requires i < |s| && !IsSpace(s[i])
    ensures !AllSpace(CollapseSpaces(s))
    decreases |s|
  {
    if i == 0 {
      assert !IsSpace(CollapseSpaces(s)[0]);
    } else if IsSpace(s[0]) {
      var rest := TrimStart(s);
      NonSpacePastRun(s, i);
      var k := i - (|s| - |rest|);
      assert rest[k] == s[i];
      CollapseKeepsNonSpace(rest, k);
      NonSpaceShifts(CollapseSpaces(rest), [' ']);
      assert CollapseSpaces(s) == [' '] + CollapseSpaces(rest);
    } else {
      CollapseKeepsNonSpace(s[1..], i - 1);
      NonSpaceShifts(CollapseSpaces(s[1..]), [s[0]]);
      assert CollapseSpaces(s) == [s[0]] + CollapseSpaces(s[1..]);
    }
  }

  /** A non-whitespace character lies past the leading whitespace run. */
  lemma NonSpacePastRun(s: seq<char>, i: nat)
    requires i < |s| && !IsSpace(s[i])
    ensures |s| - |TrimStart(s)| <= i
  {
    var pre := s[..|s| - |TrimStart(s)|];
    assert AllSpace(pre);
    assert forall k :: 0 <= k < |pre| ==> pre[k] == s[k];
  }

  lemma NonSpaceShifts(x: seq<char>, c: seq<char>)
    requires !AllSpace(x)
    ensures !AllSpace(c + x)
  {
    var j :| 0 <= j < |x| && !IsSpace(x[j]);
    assert (c + x)[|c| + j] == x[j];
  }

  /** Blank input, or input made only of reserved or control characters, is
      named "untitled". */
  lemma SanitizeJunkIsUntitled(input: seq<char>)
    requires forall i :: 0 <= i < |input| ==> IsJunk(input[i])
    ensures SanitizeFileName(input) == "untitled"
  {
    SanitizeFallsBackIffJunk(input);
  }

  /** Collapsing leaves a string alone when its whitespace is already single spaces. */
  lemma {:induction false} CollapseOfClean(s: seq<char>)
    requires forall i :: 0 <= i < |s| && IsSpace(s[i]) ==> s[i] == ' '
    requires NoDoubleSpace(s)
    ensures CollapseSpaces(s) == s
    decreases |s|
  {
    if s != [] {
      if IsSpace(s[0]) {
        assert TrimStart(s) == s[1..] by {
          if |s| > 1 { assert !IsSpace(s[1]); }
        }
      }
      CollapseOfClean(s[1..]);
    }
  }

  /** `sanitizeFileName` is idempotent. */
  lemma SanitizeIdempotent(input: seq<char>)
    ensures SanitizeFileName(SanitizeFileName(input)) == SanitizeFileName(input)
  {
    SanitizeOfClean(SanitizeFileName(input));
  }

  /** The last `/`- or `\`-separated segment of a path. */
  function LastSegment(p: seq<char>): (r: seq<char>)
    ensures EndsWith(p, r)
    ensures forall i :: 0 <= i < |r| ==> r[i] != '/' && r[i] != '\\'
    ensures |r| < |p| ==> p[|p| - |r| - 1] == '/' || p[|p| - |r| - 1] == '\\'
  {
    if p == [] || p[|p| - 1] == '/' || p[|p| - 1] == '\\' then []
    else LastSegment(p[..|p| - 1]) + [p[|p| - 1]]
  }

  /** `extnameFromPath`: the suffix of the last segment starting at its last
      dot, or "" when that segment has no dot other than a leading one. */
  function Extname(p: seq<char>): seq<char> {
    SegmentExtname(LastSegment(p))
  }

  /** The extension of one path segment. */
  function SegmentExtname(base: seq<char>): (r: seq<char>)
    ensures r == [] <==> forall i :: 0 < i < |base| ==> base[i] != '.'
    ensures r != [] ==> r[0] == '.' && '.' !in r[1..] && |r| < |base| && EndsWith(base, r)
  {
    match LastIndexOf(base, '.')
    case None => []
    case Some(d) =>
      if d == 0 then
        assert forall i :: 0 < i < |base| ==> base[i] == base[1..][i - 1];
        []
      else
        assert base[d..][1..] == base[d + 1..];
        base[d..]
  }

  /** An extension is a suffix of the whole path as well. */
  lemma ExtnameIsSuffix(p: seq<char>)
    ensures EndsWith(p, Extname(p))
  {
    var base := LastSegment(p);
    var e := Extname(p);
    assert p[|p| - |e|..] == base[|base| - |e|..];
  }

  /** At most the first `n` characters of `s` (`s.slice(0, n)`). */
  function Prefix(s: seq<char>, n: nat): (r: seq<char>)
    ensures |r| <= n && StartsWith(s, r)
    ensures |s| <= n ==> r == s
    ensures |s| > n ==> |r| == n
  {
    if |s| <= n then s else s[..n]
  }

  /** The title part of a note's file name: the sanitised title cut to 80
      characters. It is never empty, starts with a non-space and holds no
      reserved or control character; unlike a full sanitised name it may end
      with the space the cut stopped at. */
  function TitlePart(title: seq<char>): (t: seq<char>)
    ensures 0 < |t| <= 80 && StartsWith(SanitizeFileName(title), t)
    ensures NoReservedOrControl(t) && SingleSpaces(t) && !IsSpace(t[0])
  {
    var base := SanitizeFileName(title);
    var t := Prefix(base, 80);
    SliceKeepsShape(base, 0, |t|);
    t
  }

  /** `buildConversationFileName`: the title part, a dash, at most 8
      characters of the id, and ".md". */
  function BuildConversationFileName(title: seq<char>, conversationId: seq<char>): (r: seq<char>)
    ensures var t := TitlePart(title);
            var id := Prefix(conversationId, 8);
            && |r| == |t| + 1 + |id| + 3
            && StartsWith(r, t) && r[|t|] == '-'
            && r[|t| + 1..|r| - 3] == id
            && EndsWith(r, ".md")
  {
    NoteFileName(TitlePart(title), Prefix(conversationId, 8))
  }

  /** The `${base}-${id}.md` template. */
  function NoteFileName(base: seq<char>, id: seq<char>): (r: seq<char>)
    ensures |r| == |base| + 1 + |id| + 3
    ensures StartsWith(r, base) && r[|base|] == '-'
    ensures r[|base| + 1..|r| - 3] == id && EndsWith(r, ".md")
  {
    var r := base + "-" + id + ".md";
    assert r[..|base|] == base;
    assert r[|base| + 1..|r| - 3] == id;
    r
  }

  /** A clean title of at most 80 characters is kept verbatim in the note's
      file name, followed by the first 8 characters of the id (as with "My
      Chat" and "conv-12345678", which give "My Chat-conv-123.md"). */
  lemma ConversationFileNameOfCleanTitle(title: seq<char>, conversationId: seq<char>)
    requires title != [] && Clean(title) && |title| <= 80
    requires |conversationId| >= 8
    ensures BuildConversationFileName(title, conversationId) == title + "-" + conversationId[..8] + ".md"
  {
    SanitizeOfClean(title);
  }

  /** A name that is already clean and non-empty is its own sanitised form. */
  lemma SanitizeOfClean(s: seq<char>)
    requires s != [] && Clean(s)
    ensures SanitizeFileName(s) == s
  {
    assert StripControlChars(s) == s;
    assert ReplaceReserved(s) == s;
    CollapseOfClean(s);
    TrimOfTrimmed(s);
  }

  /** `buildAttachmentFileName`: the sanitised original name (or the id when
      there is none) if it already has an extension; otherwise that base
      followed by the source file's extension. */
  function BuildAttachmentFileName(originalName: Option<seq<char>>, sourcePath: seq<char>, attachmentId: seq<char>): (r: seq<char>)
    ensures var base := AttachmentBase(originalName, attachmentId);
            && (Extname(base) != [] ==> r == base)
            && (Extname(base) == [] ==> r == base + Extname(sourcePath))
  {
    var sourceExt := Extname(sourcePath);
    var sourceBase := AttachmentBase(originalName, attachmentId);
    var hasExt := |Extname(sourceBase)| > 0;
    if hasExt then sourceBase
    else if |sourceExt| > 0 then sourceBase + sourceExt
    else sourceBase
  }

  /** The name an attachment file starts from: the sanitised original name
      when there is a non-empty one, the attachment id otherwise. */
  function AttachmentBase(originalName: Option<seq<char>>, attachmentId: seq<char>): seq<char> {
    if originalName.Some? && originalName.value != [] then SanitizeFileName(originalName.value) else attachmentId
  }

  /** An attachment file name has an extension whenever its base or its source
      file has one: the base's own when it has one, the source file's otherwise
      (unless the id ends in a path separator, leaving no last segment). */
  lemma AttachmentNameExtension(originalName: Option<seq<char>>, sourcePath: seq<char>, attachmentId: seq<char>)
    ensures var base := AttachmentBase(originalName, attachmentId);
            var r := BuildAttachmentFileName(originalName, sourcePath, attachmentId);
            && (Extname(base) != [] ==> Extname(r) == Extname(base))
            && (Extname(base) == [] && LastSegment(base) != [] ==> Extname(r) == Extname(sourcePath))
  {
    var base := AttachmentBase(originalName, attachmentId);
    if Extname(base) == [] && LastSegment(base) != [] {
      ExtnameOfAppended(base, Extname(sourcePath), sourcePath);
    }
  }

  /** Appending a path's extension to a dot-free, non-empty last segment gives
      a name whose extension is exactly that one. */
  lemma ExtnameOfAppended(b: seq<char>, e: seq<char>, p: seq<char>)
    requires e == Extname(p)
    requires Extname(b) == [] && LastSegment(b) != []
    ensures Extname(b + e) == e
  {
    if e != [] {
      var lb := LastSegment(b);
      var le := LastSegment(p);
      assert e == le[|le| - |e|..];
      assert forall i :: 0 <= i < |e| ==> e[i] != '/' && e[i] != '\\';
      LastSegmentAppend(b, e);
      var seg := lb + e;
      assert LastSegment(b + e) == seg;
      LastDotAt(lb, e);
      assert seg[|lb|..] == e;
    } else {
      assert b + e == b;
    }
  }

  /** When `e` starts with the only dot it has, the last dot of `x + e` is that one. */
  lemma LastDotAt(x: seq<char>, e: seq<char>)
    requires e != [] && e[0] == '.' && '.' !in e[1..]
    ensures LastIndexOf(x + e, '.') == Some(|x|)
  {
    var s := x + e;
    assert s[|x|] == '.';
    var r := LastIndexOf(s, '.');
    assert r.Some?;
    var d := r.value;
    assert forall k :: d < k < |s| ==> s[k] == s[d + 1..][k - d - 1];
    assert forall k :: |x| < k < |s| ==> s[k] == e[1..][k - |x| - 1];
  }

  lemma {:induction false} LastSegmentAppend(b: seq<char>, e: seq<char>)
    requires forall i :: 0 <= i < |e| ==> e[i] != '/' && e[i] != '\\'
    ensures LastSegment(b + e) == LastSegment(b) + e
    decreases |e|
  {
    if e == [] {
      assert b + e == b;
    } else {
      var front := e[..|e| - 1];
      AppendLast(b, e);
      assert (b + e)[..|b + e| - 1] == b + front;
      LastSegmentAppend(b, front);
      AppendLast(LastSegment(b), e);
    }
  }

  /** `isImageMimeType`: the MIME type is defined and starts with "image/". */
  predicate IsImageMimeType(mimeType: Option<seq<char>>) {
    mimeType.Some? && StartsWith(mimeType.value, "image/")
  }
}
