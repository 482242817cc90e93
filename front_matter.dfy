/** Reading a note's conversation id back from its front matter
    (`extractConversationId`, packages/core/src/importer.ts), and the proof
    that it reads back the id the default template wrote. */
module FrontMatter {
  import opened Wrappers
  import opened Strings
  import opened Conversation
  import opened Template

  const IdKey: String := "ai_conversation_id:"

  predicate IsQuote(c: char) {
    c == '"' || c == '\''
  }

  /** `.replace(/^["']/, "").replace(/["']$/, "")`: the value without one
      leading quote, if it starts with one, and then without one trailing
      quote, if what is left ends with one. Only those characters go: the
      result is the slice of the value between them. */
  function StripQuotes(v: String): (r: String)
    ensures var i := if |v| > 0 && IsQuote(v[0]) then 1 else 0;
            var j := if |v| > i && IsQuote(v[|v| - 1]) then 1 else 0;
            r == v[i..|v| - j]
    ensures (v == [] || (!IsQuote(v[0]) && !IsQuote(v[|v| - 1]))) ==> r == v
  {
    var w := if |v| > 0 && IsQuote(v[0]) then v[1..] else v;
    if |w| > 0 && IsQuote(w[|w| - 1]) then w[..|w| - 1] else w
  }

  /** A value quoted with `"` loses exactly those two quotes, whatever it
      holds. */
  lemma StripQuotesOfQuoted(x: String)
    ensures StripQuotes("\"" + x + "\"") == x
  {
    var v := "\"" + x + "\"";
    assert v[1..] == x + "\"";
    assert (x + "\"")[..|x|] == x;
  }

  /** `line.split(":").slice(1).join(":")`: everything after the first colon,
      later colons included; "" when there is no colon. */
  function AfterFirstColon(t: String): (r: String)
    ensures IndexOfChar(t, ':').Some? ==> r == t[IndexOfChar(t, ':').value + 1..]
    ensures IndexOfChar(t, ':').None? ==> r == []
  {
    var parts := Split(t, ':');
    match IndexOfChar(t, ':')
    case None =>
      assert parts == [t];
      Join(parts[1..], [':'])
    case Some(i) =>
      assert parts[1..] == Split(t[i + 1..], ':');
      JoinSplit(t[i + 1..], ':');
      Join(parts[1..], [':'])
  }

  /** A line whose trimmed form starts with `ai_conversation_id:`. */
  predicate IsIdLine(line: String) {
    StartsWith(Trim(line), IdKey)
  }

  /** The id an id line gives: its text after the first colon, trimmed and
      without its surrounding quotes. */
  function IdOfLine(line: String): String {
    StripQuotes(Trim(AfterFirstColon(Trim(line))))
  }

  /** The loop over the front-matter lines, for any line test and any
      reading of the matching line: the value of the first line that passes
      the test. */
  function FirstKeyed(lines: seq<String>, isKey: String -> bool, valueOf: String -> String): (r: Option<String>)
    ensures r.None? <==> forall k :: 0 <= k < |lines| ==> !isKey(lines[k])
  {
    if lines == [] then None
    else if isKey(lines[0]) then Some(valueOf(lines[0]))
    else
      var r := FirstKeyed(lines[1..], isKey, valueOf);
      assert forall k :: 1 <= k < |lines| ==> lines[k] == lines[1..][k - 1];
      r
  }

  /** The first line passing the test decides: later ones are never read. */
  lemma {:induction false} FirstKeyedAt(lines: seq<String>, isKey: String -> bool, valueOf: String -> String, k: nat)
    requires k < |lines| && isKey(lines[k])
    requires forall j :: 0 <= j < k ==> !isKey(lines[j])
    ensures FirstKeyed(lines, isKey, valueOf) == Some(valueOf(lines[k]))
    decreases k
  {
    if k > 0 {
      assert forall j :: 0 <= j < k - 1 ==> lines[1..][j] == lines[j + 1];
      assert lines[1..][k - 1] == lines[k];
      FirstKeyedAt(lines[1..], isKey, valueOf, k - 1);
    }
  }

  /** The loop of `extractConversationId`: the id read from the first line
      whose trimmed form starts with `ai_conversation_id:`; nothing when no
      line does. */
  function IdInLines(lines: seq<String>): (r: Option<String>)
    ensures r.None? <==> forall k :: 0 <= k < |lines| ==> !IsIdLine(lines[k])
  {
    FirstKeyed(lines, IsIdLine, IdOfLine)
  }

  /** The first id line decides: later id lines are never read. */
  lemma IdInLinesFirst(lines: seq<String>, k: nat)
    requires k < |lines| && IsIdLine(lines[k])
    requires forall j :: 0 <= j < k ==> !IsIdLine(lines[j])
    ensures IdInLines(lines) == Some(IdOfLine(lines[k]))
  {
    FirstKeyedAt(lines, IsIdLine, IdOfLine, k);
  }

  /** `extractConversationId`: nothing unless the note starts with `---` and
      a later line starts with `---`; otherwise the id read from the lines in
      between. */
  function ExtractConversationId(markdown: String): (r: Option<String>)
    ensures !StartsWith(markdown, "---") ==> r.None?
    ensures IndexOfFrom(markdown, "\n---", 3).None? ==> r.None?
    ensures StartsWith(markdown, "---") && IndexOfFrom(markdown, "\n---", 3).Some? ==>
              r == IdInLines(Split(markdown[3..IndexOfFrom(markdown, "\n---", 3).value], '\n'))
  {
    if !StartsWith(markdown, "---") then None
    else match IndexOfFrom(markdown, "\n---", 3)
      case None => None
      case Some(end) => IdInLines(Split(markdown[3..end], '\n'))
  }

  /** No field written into the front matter contains a line break. */
  predicate SingleLineFields(c: ConversationRecord) {
    && '\n' !in c.source && '\n' !in c.conversationId && '\n' !in c.importKey
    && '\n' !in OrEmpty(c.createdAt) && '\n' !in OrEmpty(c.updatedAt)
  }

  /** The round trip between the default template and the importer: a note
      rendered from the default template, whatever follows its front matter,
      and then normalised, yields the conversation's id when read back. */
  lemma FrontMatterRoundTrip(c: ConversationRecord, body: String)
    requires SingleLineFields(c)
    ensures ExtractConversationId(PostProcess(DefaultFrontMatter(c) + body)) == Some(c.conversationId)
  {
    var fm := DefaultFrontMatter(c);
    var lines := FrontMatterLines(c);
    LinesAreSingle(c);
    var x := "\n" + Join(lines, "\n");
    assert fm == "---" + x + "\n---";
    NewlinesStartLines(lines);
    FrontMatterHasNoTriple(x);
    var rest := PostProcessAfter(fm, body);
    FrontMatterReadBack(c, rest);
  }

  /** Whatever follows the default front matter, the id read back is the
      conversation's. */
  lemma FrontMatterReadBack(c: ConversationRecord, rest: String)
    requires SingleLineFields(c)
    ensures ExtractConversationId(DefaultFrontMatter(c) + rest) == Some(c.conversationId)
  {
    var lines := FrontMatterLines(c);
    LinesAreSingle(c);
    var x := "\n" + Join(lines, "\n");
    assert DefaultFrontMatter(c) + rest == "---" + x + "\n---" + rest;
    NewlinesStartLines(lines);
    ReadBlock(x, rest);
    SplitAfterBreak(lines);
    IdFoundInSecondLine(c);
  }

  /** A note that opens with `---`, a block whose line breaks each start a
      line not beginning with `-`, and a closing `\n---` is read from the
      lines of that block. */
  lemma ReadBlock(x: String, rest: String)
    requires BreaksStartLines(x)
    ensures ExtractConversationId("---" + x + "\n---" + rest) == IdInLines(Split(x, '\n'))
  {
    var md := "---" + x + "\n---" + rest;
    var end := ClosingMarker(x, rest);
    assert md[..3] == "---";
    assert md[3..end] == x;
  }

  /** Splitting `"\n" + lines joined by "\n"` at its line breaks gives an
      empty piece and then the lines. */
  lemma SplitAfterBreak(lines: seq<String>)
    requires |lines| > 0 && forall k :: 0 <= k < |lines| ==> '\n' !in lines[k]
    ensures Split("\n" + Join(lines, "\n"), '\n') == [""] + lines
  {
    var x := "\n" + Join(lines, "\n");
    assert x[0] == '\n' && x[..0] == [] && x[1..] == Join(lines, "\n");
    IndexOfCharIs(x, '\n', 0);
    SplitJoin(lines, '\n');
  }

  /** The five front-matter lines are non-empty, single lines that start
      with a letter. */
  lemma LinesAreSingle(c: ConversationRecord)
    requires SingleLineFields(c)
    ensures var lines := FrontMatterLines(c);
            && |lines| == 5
            && forall k :: 0 <= k < |lines| ==> '\n' !in lines[k] && |lines[k]| > 0 && lines[k][0] != '-' && lines[k][0] != '\n'
  {
    QuotedFieldLine("ai_source: ", c.source);
    QuotedFieldLine("ai_conversation_id: ", c.conversationId);
    QuotedFieldLine("ai_import_key: ", c.importKey);
    QuotedFieldLine("created_at: ", OrEmpty(c.createdAt));
    QuotedFieldLine("updated_at: ", OrEmpty(c.updatedAt));
  }

  /** A quoted field line holds no line break when its value holds none. */
  lemma QuotedFieldLine(key: String, v: String)
    requires '\n' !in key && |key| > 0
    requires '\n' !in v
    ensures var line := key + "\"" + v + "\"";
            '\n' !in line && |line| > 0 && line[0] == key[0]
  {
    var line := key + "\"" + v + "\"";
    assert forall i :: 0 <= i < |line| ==> line[i] in key || line[i] == '"' || line[i] in v by {
      forall i | 0 <= i < |line| ensures line[i] in key || line[i] == '"' || line[i] in v {
        if i < |key| {
          assert line[i] == key[i];
        } else if i == |key| || i == |line| - 1 {
        } else {
          assert line[i] == v[i - |key| - 1];
        }
      }
    }
  }

  /** Each line break of `x` is followed by a character that is neither
      `-` nor another line break. */
  predicate BreaksStartLines(x: String) {
    forall i :: 0 <= i < |x| && x[i] == '\n' ==> i + 1 < |x| && x[i + 1] != '-' && x[i + 1] != '\n'
  }

  /** Each line break of `"\n" + lines joined by "\n"` is followed by the
      first character of a line, which is neither `-` nor a line break. */
  lemma {:induction false} NewlinesStartLines(lines: seq<String>)
    requires |lines| > 0
    requires forall k :: 0 <= k < |lines| ==> '\n' !in lines[k] && |lines[k]| > 0 && lines[k][0] != '-' && lines[k][0] != '\n'
    ensures BreaksStartLines("\n" + Join(lines, "\n"))
    decreases |lines|
  {
    var x := "\n" + Join(lines, "\n");
    var l := lines[0];
    if |lines| == 1 {
      assert x == "\n" + l;
      assert forall j :: 1 <= j < |x| ==> x[j] == l[j - 1];
    } else {
      var y := "\n" + Join(lines[1..], "\n");
      assert Join(lines, "\n") == l + "\n" + Join(lines[1..], "\n");
      assert x == "\n" + l + y;
      NewlinesStartLines(lines[1..]);
      assert forall j :: 1 <= j < 1 + |l| ==> x[j] == l[j - 1];
      assert forall j :: 1 + |l| <= j < |x| ==> x[j] == y[j - 1 - |l|];
    }
  }

  lemma FrontMatterHasNoTriple(x: String)
    requires BreaksStartLines(x)
    ensures NoTripleNewline("---" + x + "\n---")
  {
    var s := "---" + x + "\n---";
    forall i: nat | i + 2 < |s| ensures !TripleNewlineAt(s, i) {
      if 3 <= i < 3 + |x| && s[i] == '\n' {
        assert s[i] == x[i - 3];
        if i + 1 < 3 + |x| {
          assert s[i + 1] == x[i - 2];
        }
      }
    }
  }

  /** Normalising a note that starts with the front matter keeps the front
      matter and normalises the rest. */
  lemma PostProcessAfter(fm: String, body: String) returns (rest: String)
    requires NoTripleNewline(fm) && |fm| > 0 && fm[|fm| - 1] == '-'
    ensures PostProcess(fm + body) == fm + rest
  {
    CollapseNewlinesAppend(fm, body);
    var cb := CollapseNewlines(body);
    TrimEndKeepsPrefix(fm, cb);
    rest := TrimEnd(cb) + "\n";
  }

  /** The first `\n---` at or after position 3 is the closing marker. */
  lemma ClosingMarker(x: String, rest: String) returns (end: nat)
    requires BreaksStartLines(x)
    ensures end == 3 + |x|
    ensures IndexOfFrom("---" + x + "\n---" + rest, "\n---", 3) == Some(end)
  {
    var md := "---" + x + "\n---" + rest;
    end := 3 + |x|;
    assert md[end..end + 4] == "\n---";
    assert OccursAt(md, "\n---", end);
    forall i: nat | 3 <= i < end ensures !OccursAt(md, "\n---", i) {
      if md[i] == '\n' {
        assert md[i] == x[i - 3];
        assert md[i + 1] == x[i - 2];
        assert md[i..i + 4][1] == md[i + 1];
      } else {
        assert md[i..i + 4][0] == md[i];
      }
    }
  }

  /** Reading the lines: the empty first piece and the `ai_source` line do
      not match; the `ai_conversation_id` line gives the id. */
  lemma IdFoundInSecondLine(c: ConversationRecord)
    ensures IdInLines([""] + FrontMatterLines(c)) == Some(c.conversationId)
  {
    SourceLineIsNotId(c);
    IdLineGivesId(c);
    SecondLineDecides(FrontMatterLines(c));
  }

  /** After the empty piece, a line that is not an id line and then an id
      line: the id line decides. */
  lemma SecondLineDecides(lines: seq<String>)
    requires |lines| >= 2 && !IsIdLine(lines[0]) && IsIdLine(lines[1])
    ensures IdInLines([""] + lines) == Some(IdOfLine(lines[1]))
  {
    var all := [""] + lines;
    assert !IsIdLine(all[0]) by {
      TrimOfTrimmed("");
    }
    assert all[1..] == lines;
    assert lines[1..][0] == lines[1];
    assert FirstKeyed(lines, IsIdLine, IdOfLine) == FirstKeyed(lines[1..], IsIdLine, IdOfLine);
  }

  lemma SourceLineIsNotId(c: ConversationRecord)
    ensures !IsIdLine(FrontMatterLines(c)[0])
  {
    assert FrontMatterLines(c)[0] == "ai_source: " + "\"" + c.source + "\"";
    OtherKeyLine("ai_source: ", c.source);
  }

  lemma IdLineGivesId(c: ConversationRecord)
    ensures IsIdLine(FrontMatterLines(c)[1]) && IdOfLine(FrontMatterLines(c)[1]) == c.conversationId
  {
    assert FrontMatterLines(c)[1] == IdKey + " \"" + c.conversationId + "\"";
    KeyLineValue(IdKey, c.conversationId);
  }

  /** A field line whose key differs from `ai_conversation_id:` at its
      fourth character is not the id line. */
  lemma OtherKeyLine(key: String, v: String)
    requires |key| > 3 && !IsSpace(key[0]) && key[3] != IdKey[3]
    ensures !IsIdLine(key + "\"" + v + "\"")
  {
    var line := key + "\"" + v + "\"";
    assert line[0] == key[0] && line[3] == key[3];
    TrimOfTrimmed(line);
  }

  /** A line `key "v"`, with a key ending in its only colon, starts with the
      key and its quoted value reads back as `v`. */
  lemma KeyLineValue(key: String, v: String)
    requires |key| > 0 && !IsSpace(key[0]) && key[|key| - 1] == ':' && ':' !in key[..|key| - 1]
    ensures var line := key + " \"" + v + "\"";
            StartsWith(Trim(line), key) && IdOfLine(line) == v
  {
    var line := key + " \"" + v + "\"";
    assert line[0] == key[0];
    TrimOfTrimmed(line);
    assert line[..|key|] == key;
    AfterKey(key, v);
    TrimQuoted(v);
    StripQuotesOfQuoted(v);
  }

  lemma AfterKey(key: String, v: String)
    requires |key| > 0 && key[|key| - 1] == ':' && ':' !in key[..|key| - 1]
    ensures AfterFirstColon(key + " \"" + v + "\"") == " \"" + v + "\""
  {
    var line := key + " \"" + v + "\"";
    assert line[..|key| - 1] == key[..|key| - 1];
    IndexOfCharIs(line, ':', |key| - 1);
    assert line[|key|..] == " \"" + v + "\"";
  }

  lemma TrimQuoted(v: String)
    ensures Trim(" \"" + v + "\"") == "\"" + v + "\""
  {
    var w := " \"" + v + "\"";
    assert w[1..] == "\"" + v + "\"";
    assert TrimStart(w) == TrimStart(w[1..]);
    TrimOfTrimmed(w[1..]);
  }
}
