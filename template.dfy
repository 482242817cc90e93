/** Rendering a conversation to Markdown (packages/core/src/template.ts).
    The nunjucks engine is not modelled: it is a function parameter. What is
    modelled is the `roleTitle` filter, the normalisation applied to every
    rendered note (runs of three or more newlines shrink to two, trailing
    whitespace is dropped, one newline is appended), and the front matter the
    default template emits, which the importer reads back. */
module Template {
  import opened Wrappers
  import opened Strings
  import opened Conversation

  /** The `roleTitle` filter: headings for the four known roles, any other
      role unchanged. */
  function RoleTitle(role: String): (t: String)
    ensures role == "user" ==> t == "User"
    ensures role == "assistant" ==> t == "ChatGPT"
    ensures role == "system" ==> t == "System"
    ensures role == "tool" ==> t == "Tool"
    ensures !IsKnownRole(role) ==> t == role
  {
    match role
    case "user" => "User"
    case "assistant" => "ChatGPT"
    case "system" => "System"
    case "tool" => "Tool"
    case _ => role
  }

  predicate IsKnownRole(role: String) {
    role == "user" || role == "assistant" || role == "system" || role == "tool"
  }

  predicate IsRoleTitle(s: String) {
    s == "User" || s == "ChatGPT" || s == "System" || s == "Tool"
  }

  /** Headings tell roles apart: two roles that are not themselves heading
      words get the same heading only when they are the same role. */
  lemma RoleTitleInjective(a: String, b: String)
    requires !IsRoleTitle(a) && !IsRoleTitle(b)
    requires RoleTitle(a) == RoleTitle(b)
    ensures a == b
  {
    if IsKnownRole(a) || IsKnownRole(b) {
      assert "User" != "ChatGPT" && "User" != "System" && "User" != "Tool";
      assert "ChatGPT" != "System" && "ChatGPT" != "Tool" && "System" != "Tool";
    }
  }

  /** Three newlines start at position `i`. */
  predicate TripleNewlineAt(s: String, i: nat)
    requires i + 2 < |s|
  {
    s[i] == '\n' && s[i + 1] == '\n' && s[i + 2] == '\n'
  }

  predicate NoTripleNewline(s: String) {
    forall i: nat :: i + 2 < |s| ==> !TripleNewlineAt(s, i)
  }

  /** The characters of `s` other than newlines, in order. */
  function WithoutNewlines(s: String): String {
    if s == [] then []
    else (if s[0] == '\n' then [] else [s[0]]) + WithoutNewlines(s[1..])
  }

  /** The length of the run of newlines `s` starts with. */
  function LeadingNewlines(s: String): (k: nat)
    ensures k <= |s|
    ensures forall i :: 0 <= i < k ==> s[i] == '\n'
    ensures k == |s| || s[k] != '\n'
  {
    if s != [] && s[0] == '\n' then 1 + LeadingNewlines(s[1..]) else 0
  }

  /** `.replace(/\n{3,}/g, "\n\n")`: every maximal run of three or more
      newlines becomes two newlines; shorter runs and all other characters
      are kept. */
  function CollapseNewlines(s: String): (r: String)
    ensures NoTripleNewline(r)
    ensures r == [] <==> s == []
    ensures s != [] ==> (r[0] == '\n' <==> s[0] == '\n')
    decreases |s|
  {
    if s == [] then []
    else if s[0] != '\n' then
      var r := [s[0]] + CollapseNewlines(s[1..]);
      NoTriplePrepend([s[0]], CollapseNewlines(s[1..]));
      r
    else
      var k := LeadingNewlines(s);
      var run := if k >= 3 then "\n\n" else s[..k];
      var r := run + CollapseNewlines(s[k..]);
      NoTriplePrepend(run, CollapseNewlines(s[k..]));
      r
  }

  /** Putting one non-newline character, or a run of at most two newlines
      that the rest does not continue, in front keeps a string free of
      triple newlines. */
  lemma NoTriplePrepend(c: String, t: String)
    requires NoTripleNewline(t)
    requires (|c| == 1 && c[0] != '\n')
             || (|c| <= 2 && (forall i :: 0 <= i < |c| ==> c[i] == '\n') && (t == [] || t[0] != '\n'))
    ensures NoTripleNewline(c + t)
  {
    var s := c + t;
    forall i: nat | i + 2 < |s| ensures !TripleNewlineAt(s, i) {
      if i >= |c| {
        assert s[i] == t[i - |c|] && s[i + 1] == t[i + 1 - |c|] && s[i + 2] == t[i + 2 - |c|];
        assert !TripleNewlineAt(t, i - |c|);
      } else if |c| == 1 && c[0] != '\n' {
        assert s[0] != '\n';
      } else {
        assert s[|c|] == t[0];
      }
    }
  }

  lemma NoTripleOfSuffix(s: String, k: nat)
    requires k <= |s| && NoTripleNewline(s)
    ensures NoTripleNewline(s[k..])
  {
    var t := s[k..];
    forall i: nat | i + 2 < |t| ensures !TripleNewlineAt(t, i) {
      assert !TripleNewlineAt(s, i + k);
    }
  }

  lemma NoTripleOfPrefix(s: String, k: nat)
    requires k <= |s| && NoTripleNewline(s)
    ensures NoTripleNewline(s[..k])
  {
    var t := s[..k];
    forall i: nat | i + 2 < |t| ensures !TripleNewlineAt(t, i) {
      assert !TripleNewlineAt(s, i);
    }
  }

  /** Text without triple newlines is left alone by the collapsing. */
  lemma {:induction false} CollapseNewlinesFixpoint(s: String)
    requires NoTripleNewline(s)
    ensures CollapseNewlines(s) == s
    decreases |s|
  {
    if s != [] {
      if s[0] != '\n' {
        NoTripleOfSuffix(s, 1);
        CollapseNewlinesFixpoint(s[1..]);
      } else {
        var k := LeadingNewlines(s);
        if k >= 3 {
          assert TripleNewlineAt(s, 0);
        }
        NoTripleOfSuffix(s, k);
        CollapseNewlinesFixpoint(s[k..]);
        assert s == s[..k] + s[k..];
      }
    }
  }

  lemma {:induction false} WithoutNewlinesAppend(a: String, b: String)
    ensures WithoutNewlines(a + b) == WithoutNewlines(a) + WithoutNewlines(b)
    decreases |a|
  {
    if a == [] {
      assert a + b == b;
    } else {
      assert (a + b)[0] == a[0];
      assert (a + b)[1..] == a[1..] + b;
      WithoutNewlinesAppend(a[1..], b);
    }
  }

  lemma WithoutNewlinesOfRun(s: String)
    requires forall i :: 0 <= i < |s| ==> s[i] == '\n'
    ensures WithoutNewlines(s) == []
  {
    if s != [] {
      WithoutNewlinesOfRun(s[1..]);
    }
  }

  /** Collapsing only ever removes newlines: every other character is kept,
      in order. */
  lemma {:induction false} CollapseNewlinesKeepsText(s: String)
    ensures WithoutNewlines(CollapseNewlines(s)) == WithoutNewlines(s)
    decreases |s|
  {
    if s != [] {
      if s[0] != '\n' {
        CollapseNewlinesKeepsText(s[1..]);
        WithoutNewlinesAppend([s[0]], CollapseNewlines(s[1..]));
      } else {
        var k := LeadingNewlines(s);
        var run := if k >= 3 then "\n\n" else s[..k];
        CollapseNewlinesKeepsText(s[k..]);
        WithoutNewlinesAppend(run, CollapseNewlines(s[k..]));
        WithoutNewlinesOfRun(run);
        assert s == s[..k] + s[k..];
        WithoutNewlinesAppend(s[..k], s[k..]);
        WithoutNewlinesOfRun(s[..k]);
      }
    }
  }

  /** A prefix without triple newlines that ends in another character is
      not touched by collapsing what follows it. */
  lemma {:induction false} CollapseNewlinesAppend(a: String, b: String)
    requires NoTripleNewline(a) && a != [] && a[|a| - 1] != '\n'
    ensures CollapseNewlines(a + b) == a + CollapseNewlines(b)
    decreases |a|, 1
  {
    if a[0] != '\n' {
      CollapseAppendChar(a, b);
    } else {
      CollapseAppendRun(a, b);
    }
  }

  lemma {:induction false} CollapseAppendChar(a: String, b: String)
    requires NoTripleNewline(a) && a != [] && a[|a| - 1] != '\n' && a[0] != '\n'
    ensures CollapseNewlines(a + b) == a + CollapseNewlines(b)
    decreases |a|, 0
  {
    CollapseStepChar(a, b);
    if |a| > 1 {
      NoTripleOfSuffix(a, 1);
      CollapseNewlinesAppend(a[1..], b);
      SplitAppend(a, 1, CollapseNewlines(b));
      assert a[..1] == [a[0]];
    } else {
      assert a[1..] + b == b;
      assert a == [a[0]];
    }
  }

  lemma {:induction false} CollapseAppendRun(a: String, b: String)
    requires NoTripleNewline(a) && a != [] && a[|a| - 1] != '\n' && a[0] == '\n'
    ensures CollapseNewlines(a + b) == a + CollapseNewlines(b)
    decreases |a|, 0
  {
    var k := CollapseStepRun(a, b);
    NoTripleOfSuffix(a, k);
    CollapseNewlinesAppend(a[k..], b);
    SplitAppend(a, k, CollapseNewlines(b));
  }

  lemma CollapseStepChar(a: String, b: String)
    requires a != [] && a[0] != '\n'
    ensures CollapseNewlines(a + b) == [a[0]] + CollapseNewlines(a[1..] + b)
  {
    assert (a + b)[1..] == a[1..] + b;
  }

  lemma CollapseStepRun(a: String, b: String) returns (k: nat)
    requires NoTripleNewline(a) && a != [] && a[0] == '\n' && a[|a| - 1] != '\n'
    ensures 0 < k < |a|
    ensures CollapseNewlines(a + b) == a[..k] + CollapseNewlines(a[k..] + b)
  {
    var s := a + b;
    LeadingNewlinesOfPrefix(a, b);
    k := LeadingNewlines(a);
    if k >= 3 {
      assert TripleNewlineAt(a, 0);
    }
    assert s[..k] == a[..k];
    assert s[k..] == a[k..] + b;
  }

  lemma {:induction false} LeadingNewlinesOfPrefix(a: String, b: String)
    requires a != [] && a[|a| - 1] != '\n'
    ensures LeadingNewlines(a + b) == LeadingNewlines(a)
    decreases |a|
  {
    if a[0] == '\n' {
      assert (a + b)[1..] == a[1..] + b;
      LeadingNewlinesOfPrefix(a[1..], b);
    }
  }

  /** The normalisation of `renderConversationMarkdown`:
      `rendered.replace(/\n{3,}/g, "\n\n").trimEnd() + "\n"`. The result
      has no triple newline and ends with exactly one newline, after a
      character that is not whitespace (or nothing). */
  function PostProcess(rendered: String): (r: String)
    ensures NoTripleNewline(r)
    ensures |r| > 0 && r[|r| - 1] == '\n'
    ensures |r| == 1 || !IsSpace(r[|r| - 2])
  {
    var c := CollapseNewlines(rendered);
    var p := TrimEnd(c);
    NoTripleOfPrefix(c, |p|);
    NoTripleAppendNewline(p);
    p + "\n"
  }

  lemma NoTripleAppendNewline(p: String)
    requires NoTripleNewline(p) && (p == [] || !IsSpace(p[|p| - 1]))
    ensures NoTripleNewline(p + "\n")
  {
    var s := p + "\n";
    forall i: nat | i + 2 < |s| ensures !TripleNewlineAt(s, i) {
      if i + 2 < |p| {
        assert !TripleNewlineAt(p, i);
      } else {
        assert s[|p| - 1] == p[|p| - 1];
      }
    }
  }

  /** Normalising a normalised note changes nothing. */
  lemma PostProcessIdempotent(rendered: String)
    ensures PostProcess(PostProcess(rendered)) == PostProcess(rendered)
  {
    var r := PostProcess(rendered);
    var p := TrimEnd(CollapseNewlines(rendered));
    assert r == p + "\n";
    CollapseNewlinesFixpoint(r);
    PostProcessOfCollapsed(r);
    TrimEndAppendSpace(p, "\n");
    TrimEndOfTrimmed(p);
  }

  /** On text without runs of three newlines, `postProcess` only trims the
      end and appends the final newline. */
  lemma PostProcessOfCollapsed(s: String)
    requires CollapseNewlines(s) == s
    ensures PostProcess(s) == TrimEnd(s) + "\n"
  {
  }

  /** `renderConversationMarkdown(conversation, template)`, with the nunjucks
      rendering of the template given as `render`: whatever the template
      produces, the note is already in normal form. */
  function RenderConversationMarkdown(conversation: ConversationRecord, template: String,
                                      render: (String, ConversationRecord) -> String): (r: String)
    ensures NoTripleNewline(r) && |r| > 0 && r[|r| - 1] == '\n'
    ensures PostProcess(r) == r
  {
    PostProcessIdempotent(render(template, conversation));
    PostProcess(render(template, conversation))
  }

  /** `DEFAULT_MARKDOWN_TEMPLATE`: the template used when no custom one is
      configured; the engine that renders it is a parameter of
      `RenderConversationMarkdown`. */
  const DefaultMarkdownTemplate: String :=
    "---\n"
    + "ai_source: \"{{ conversation.source }}\"\n"
    + "ai_conversation_id: \"{{ conversation.conversationId }}\"\n"
    + "ai_import_key: \"{{ conversation.importKey }}\"\n"
    + "created_at: \"{{ conversation.createdAt or \'\' }}\"\n"
    + "updated_at: \"{{ conversation.updatedAt or \'\' }}\"\n"
    + "---\n"
    + "\n"
    + "# {{ conversation.title }}\n"
    + "\n"
    + "{% for message in conversation.messages %}\n"
    + "## {{ message.role | roleTitle }}{% if message.createdAt %} ({{ message.createdAt }}){% endif %}\n"
    + "\n"
    + "{{ message.content | trim }}\n"
    + "{% if message.attachments.length > 0 %}\n"
    + "\n"
    + "### Attachments\n"
    + "{% for attachment in message.attachments %}\n"
    + "- {% if attachment.obsidianLink %}{{ attachment.obsidianLink }}{% else %}`{{ attachment.id }}`{% endif %}\n"
    + "{% endfor %}\n"
    + "{% endif %}\n"
    + "\n"
    + "{% endfor %}\n"

  /** `{{ x or '' }}` on an optional string. */
  function OrEmpty(x: Option<String>): String {
    if x.Some? then x.value else ""
  }

  /** The lines between the two `---` markers of the default template, in order. */
  function FrontMatterLines(conversation: ConversationRecord): seq<String> {
    [ "ai_source: \"" + conversation.source + "\"",
      "ai_conversation_id: \"" + conversation.conversationId + "\"",
      "ai_import_key: \"" + conversation.importKey + "\"",
      "created_at: \"" + OrEmpty(conversation.createdAt) + "\"",
      "updated_at: \"" + OrEmpty(conversation.updatedAt) + "\"" ]
  }

  /** What the default template renders before the title: an opening `---`
      line, the five front-matter lines and a closing `---`. */
  function DefaultFrontMatter(conversation: ConversationRecord): (r: String)
    ensures StartsWith(r, "---\n") && EndsWith(r, "\n---")
  {
    var r := "---\n" + Join(FrontMatterLines(conversation), "\n") + "\n---";
    assert r[..4] == "---\n";
    assert r[|r| - 4..] == "\n---";
    r
  }

  /** A run of three newlines collapses like a run of two wherever it
      stands. With `CollapseNewlinesFixpoint` this fixes the value of
      `CollapseNewlines` on every text: each maximal run of three or more
      newlines becomes exactly two, and nothing else changes. */
  lemma {:induction false} CollapseNewlinesOfRun(a: String, b: String)
    ensures CollapseNewlines(a + "\n\n\n" + b) == CollapseNewlines(a + "\n\n" + b)
    decreases |a|, 1
  {
    if LeadingNewlines(a) == |a| {
      var x, y := a + "\n\n\n", a + "\n\n";
      assert forall i :: 0 <= i < |x| ==> x[i] == '\n';
      assert forall i :: 0 <= i < |y| ==> y[i] == '\n';
      NewlineRunAtStart(x, y, b);
    } else {
      RunAfterText(a, b);
    }
  }

  /** The run lemma when `a` holds a character other than a newline: the
      first step over `a` is the same on both sides. */
  lemma {:induction false} RunAfterText(a: String, b: String)
    requires LeadingNewlines(a) < |a|
    ensures CollapseNewlines(a + "\n\n\n" + b) == CollapseNewlines(a + "\n\n" + b)
    decreases |a|, 0
  {
    var p, t := NewlineHead(a, "\n\n\n", b);
    var p', t' := NewlineHead(a, "\n\n", b);
    CollapseNewlinesOfRun(t, b);
  }

  /** One step of collapsing over a head `a` that is not all newlines:
      the same prefix is emitted whatever follows `a`, and collapsing goes on
      with the same shorter rest `t` of `a`. */
  lemma NewlineHead(a: String, x: String, b: String) returns (p: String, t: String)
    requires LeadingNewlines(a) < |a|
    ensures p == if a[0] != '\n' then [a[0]] else if LeadingNewlines(a) >= 3 then "\n\n" else a[..LeadingNewlines(a)]
    ensures t == if a[0] != '\n' then a[1..] else a[LeadingNewlines(a)..]
    ensures |t| < |a|
    ensures CollapseNewlines(a + x + b) == p + CollapseNewlines(t + x + b)
  {
    var k := LeadingNewlines(a);
    var z := x + b;
    p := if a[0] != '\n' then [a[0]] else if k >= 3 then "\n\n" else a[..k];
    t := if a[0] != '\n' then a[1..] else a[k..];
    NewlineStep(a, z, k);
    assert a + x + b == a + z;
    assert t + z == t + x + b;
  }

  lemma NewlineStep(a: String, z: String, k: nat)
    requires k == LeadingNewlines(a) < |a|
    ensures a[0] != '\n' ==> CollapseNewlines(a + z) == [a[0]] + CollapseNewlines(a[1..] + z)
    ensures a[0] == '\n' ==>
              CollapseNewlines(a + z) == (if k >= 3 then "\n\n" else a[..k]) + CollapseNewlines(a[k..] + z)
  {
    if a[0] != '\n' {
      CollapseStepChar(a, z);
    } else {
      LeadingNewlinesAppend(a, z);
      var s := a + z;
      assert s[..k] == a[..k];
      assert s[k..] == a[k..] + z;
    }
  }

  /** A leading run of three or more newlines collapses like one of two or
      more: both become two newlines before the rest. */
  lemma NewlineRunAtStart(x: String, y: String, b: String)
    requires forall i :: 0 <= i < |x| ==> x[i] == '\n'
    requires forall i :: 0 <= i < |y| ==> y[i] == '\n'
    requires |x| >= 3 && |y| >= 2
    ensures CollapseNewlines(x + b) == CollapseNewlines(y + b)
  {
    LeadingRunCollapse(x, b);
    if |y| + LeadingNewlines(b) >= 3 {
      LeadingRunCollapse(y, b);
    } else {
      assert y == "\n\n";
      TwoNewlinesBefore(b);
    }
  }

  /** A leading run of newlines that reaches three with those `b` starts
      with becomes two newlines before the rest of `b`. */
  lemma LeadingRunCollapse(x: String, b: String)
    requires forall i :: 0 <= i < |x| ==> x[i] == '\n'
    requires x != [] && |x| + LeadingNewlines(b) >= 3
    ensures CollapseNewlines(x + b) == "\n\n" + CollapseNewlines(b[LeadingNewlines(b)..])
  {
    var s, l := x + b, LeadingNewlines(b);
    assert LeadingNewlines(s) == |x| + l && s[0] == '\n' && s[|x| + l..] == b[l..] by {
      LeadingNewlinesAfterRun(x, b);
    }
    CollapseNewlinesRunUnfold(s);
  }

  /** Two newlines before text that does not start with one are kept. */
  lemma TwoNewlinesBefore(b: String)
    requires LeadingNewlines(b) == 0
    ensures CollapseNewlines("\n\n" + b) == "\n\n" + CollapseNewlines(b)
  {
    var s := "\n\n" + b;
    LeadingNewlinesAfterRun("\n\n", b);
    assert s[..2] == "\n\n" && s[2..] == b;
    CollapseNewlinesRunUnfold(s);
  }

  /** One step of `CollapseNewlines` over a leading run of newlines. */
  lemma CollapseNewlinesRunUnfold(s: String)
    requires s != [] && s[0] == '\n'
    ensures var k := LeadingNewlines(s);
            CollapseNewlines(s) == (if k >= 3 then "\n\n" else s[..k]) + CollapseNewlines(s[k..])
  {
  }

  /** The leading run of `a + z` is that of `a` when `a` is not all
      newlines. */
  lemma {:induction false} LeadingNewlinesAppend(a: String, z: String)
    requires LeadingNewlines(a) < |a|
    ensures LeadingNewlines(a + z) == LeadingNewlines(a)
    decreases |a|
  {
    assert (a + z)[0] == a[0];
    if a[0] == '\n' {
      assert (a + z)[1..] == a[1..] + z;
      LeadingNewlinesAppend(a[1..], z);
    }
  }

  /** A run of newlines in front lengthens the leading run by its length. */
  lemma {:induction false} LeadingNewlinesAfterRun(x: String, z: String)
    requires forall i :: 0 <= i < |x| ==> x[i] == '\n'
    ensures LeadingNewlines(x + z) == |x| + LeadingNewlines(z)
    decreases |x|
  {
    if x == [] {
      assert x + z == z;
    } else {
      assert (x + z)[0] == '\n';
      assert (x + z)[1..] == x[1..] + z;
      LeadingNewlinesAfterRun(x[1..], z);
    }
  }
}
