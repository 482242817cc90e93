/** The Claude export parser (packages/claude/src/parser.ts): it turns the
    conversations of a Claude export, each a flat list of chat messages,
    into conversation records. A message's text is assembled from its content
    blocks: thinking and text blocks are kept, and a separator line is put
    between a thinking block and a text block that follow one another.

    A `null` content block behaves exactly like a block with no members, so
    it is modelled as one. Timestamp normalisation (`new Date(v)` and
    `toISOString`) is a given function. */
module ClaudeParser {
  import opened Wrappers
  import opened Strings
  import opened Conversation
  import opened ParserCommon

  const Source: String := "claude"
  const DefaultThinkingSeparator: String := "---"

  datatype ContentBlock = ContentBlock(blockType: Option<String>, text: Option<String>, thinking: Option<String>)

  datatype ClaudeMessage = ClaudeMessage(
    uuid: Option<String>,
    text: Option<String>,
    content: Option<seq<ContentBlock>>,
    sender: Option<String>,
    createdAt: Option<String>)

  datatype ClaudeConversation = ClaudeConversation(
    uuid: Option<String>,
    name: Option<String>,
    createdAt: Option<String>,
    updatedAt: Option<String>,
    chatMessages: Option<seq<ClaudeMessage>>)

  datatype ParseOptions = ParseOptions(
    includeSystemMessages: Option<bool>,
    excludeThinking: Option<bool>,
    thinkingSeparator: Option<String>)

  /** `new Date(v)` rendered by `toISOString`, or `v` itself when it does not parse. */
  datatype Builtins = Builtins(normalizeTimestamp: String -> String)

  /** `normalizeTimestamp`: a missing or empty value gives `undefined`. */
  function NormalizeTimestamp(v: Option<String>, builtins: Builtins): Option<String> {
    if v.None? || v.value == [] then None else Some(builtins.normalizeTimestamp(v.value))
  }

  /** `normalizeContentText`: a string trimmed, anything else "". */
  function NormalizeContentText(v: Option<String>): (r: String)
    ensures v.None? ==> r == []
    ensures v.Some? ==> (r == [] <==> AllSpace(v.value))
    ensures r == [] || (!IsSpace(r[0]) && !IsSpace(r[|r| - 1]))
  {
    if v.None? then []
    else
      TrimEmptyIffBlank(v.value);
      Trim(v.value)
  }

  // ---------------------------------------------------------------------
  // Message text

  datatype Kind = Thinking | Text | Other

  /** A block is thinking, text (also when its type is missing or empty), or other. */
  function KindOf(blockType: Option<String>): (k: Kind)
    ensures k == Thinking <==> blockType == Some("thinking")
    ensures k == Text <==> blockType.None? || blockType == Some("") || blockType == Some("text")
  {
    if blockType == Some("thinking") then Thinking
    else if blockType.None? || blockType.value == [] || blockType == Some("text") then Text
    else Other
  }

  /** A piece of message text and the kind of block it came from. */
  datatype Chunk = Chunk(kind: Kind, text: String)

  /** What one block contributes, if anything: a thinking block its trimmed
      `thinking`, or failing that its trimmed `text`, unless thinking is
      excluded; any other block its trimmed `text`. Blank text contributes
      nothing. */
  function Contribution(b: ContentBlock, excludeThinking: bool): (r: Option<Chunk>)
    ensures r.Some? ==> r.value.kind == KindOf(b.blockType)
    ensures r.Some? ==> r.value.text != [] && !IsSpace(r.value.text[0])
    ensures excludeThinking && KindOf(b.blockType) == Thinking ==> r.None?
  {
    var kind := KindOf(b.blockType);
    if kind == Thinking then
      if excludeThinking then None
      else
        var fromThinking := NormalizeContentText(b.thinking);
        var t := if fromThinking != [] then fromThinking else NormalizeContentText(b.text);
        if t == [] then None else Some(Chunk(Thinking, t))
    else
      var t := NormalizeContentText(b.text);
      if t == [] then None else Some(Chunk(kind, t))
  }

  /** A thinking block whose `thinking` is not blank contributes it
      trimmed; any other block contributes nothing exactly when its `text`
      is missing or blank. */
  lemma ContributionCases(b: ContentBlock, excludeThinking: bool)
    ensures KindOf(b.blockType) == Thinking && !excludeThinking && !AllSpace(b.thinking.GetOr([])) ==>
              Contribution(b, excludeThinking) == Some(Chunk(Thinking, Trim(b.thinking.value)))
    ensures KindOf(b.blockType) != Thinking ==>
              (Contribution(b, excludeThinking).None? <==> AllSpace(b.text.GetOr([])))
  {
    var kind := KindOf(b.blockType);
    if kind == Thinking {
      if !excludeThinking && !AllSpace(b.thinking.GetOr([])) {
        assert NormalizeContentText(b.thinking) == Trim(b.thinking.value) != [];
      }
    } else {
      assert Contribution(b, excludeThinking).None? <==> NormalizeContentText(b.text) == [];
    }
  }

  function OptionSeq<T>(o: Option<T>): seq<T> {
    if o.None? then [] else [o.value]
  }

  /** The chunks contributed by a list of blocks, in order. */
  function Chunks(bs: seq<ContentBlock>, excludeThinking: bool): (r: seq<Chunk>)
    ensures forall k :: 0 <= k < |r| ==> r[k].text != [] && !IsSpace(r[k].text[0])
    ensures excludeThinking ==> forall k :: 0 <= k < |r| ==> r[k].kind != Thinking
  {
    if bs == [] then []
    else Chunks(bs[..|bs| - 1], excludeThinking) + OptionSeq(Contribution(bs[|bs| - 1], excludeThinking))
  }

  /** An element of the list that is joined into the text. */
  datatype Piece = Separator | Block(chunk: Chunk)

  /** A switch between thinking and text, in either direction. */
  predicate Switches(a: Kind, b: Kind) {
    (a == Thinking && b == Text) || (a == Text && b == Thinking)
  }

  /** The chunks with a separator between any two neighbours that switch
      between thinking and text. */
  function Interleave(cs: seq<Chunk>): (r: seq<Piece>)
    ensures |cs| <= |r|
  {
    if cs == [] then []
    else
      var init := cs[..|cs| - 1];
      var last := cs[|cs| - 1];
      Interleave(init) + (if init != [] && Switches(init[|init| - 1].kind, last.kind) then [Separator] else [])
        + [Block(last)]
  }

  function PieceText(p: Piece, separator: String): String {
    if p.Separator? then separator else p.chunk.text
  }

  /** The strings the pieces stand for. */
  function Render(ps: seq<Piece>, separator: String): (r: seq<String>)
    ensures |r| == |ps|
    ensures ps != [] ==> r[0] == PieceText(ps[0], separator)
  {
    if ps == [] then [] else Render(ps[..|ps| - 1], separator) + [PieceText(ps[|ps| - 1], separator)]
  }

  lemma RenderSnoc(ps: seq<Piece>, p: Piece, separator: String)
    ensures Render(ps + [p], separator) == Render(ps, separator) + [PieceText(p, separator)]
  {
    assert (ps + [p])[..|ps|] == ps;
  }

  /** The chunks of a list of pieces, separators dropped. */
  function BlocksOf(ps: seq<Piece>): seq<Chunk> {
    if ps == [] then []
    else BlocksOf(ps[..|ps| - 1]) + (if ps[|ps| - 1].Block? then [ps[|ps| - 1].chunk] else [])
  }

  lemma BlocksOfSnoc(ps: seq<Piece>, p: Piece)
    ensures BlocksOf(ps + [p]) == BlocksOf(ps) + (if p.Block? then [p.chunk] else [])
  {
    assert (ps + [p])[..|ps|] == ps;
  }

  lemma SnocOfLast<T>(s: seq<T>)
    requires s != []
    ensures s[..|s| - 1] + [s[|s| - 1]] == s
  {
  }

  lemma InterleaveSnoc(cs: seq<Chunk>, c: Chunk)
    ensures Interleave(cs + [c]) ==
      Interleave(cs) + (if cs != [] && Switches(cs[|cs| - 1].kind, c.kind) then [Separator] else []) + [Block(c)]
  {
    assert (cs + [c])[..|cs|] == cs;
  }

  lemma BlocksOfInterleaveSnoc(cs: seq<Chunk>, c: Chunk)
    ensures BlocksOf(Interleave(cs + [c])) == BlocksOf(Interleave(cs)) + [c]
  {
    InterleaveSnoc(cs, c);
    var head := Interleave(cs);
    if cs != [] && Switches(cs[|cs| - 1].kind, c.kind) {
      BlocksOfSnoc(head, Separator);
      BlocksOfSnoc(head + [Separator], Block(c));
    } else {
      assert head + [] == head;
      BlocksOfSnoc(head, Block(c));
    }
  }

  /** Interleaving only adds separators: no chunk is dropped or reordered. */
  lemma {:induction false} InterleaveKeepsChunks(cs: seq<Chunk>)
    ensures BlocksOf(Interleave(cs)) == cs
    decreases |cs|
  {
    if cs != [] {
      InterleaveKeepsChunks(cs[..|cs| - 1]);
      BlocksOfInterleaveSnoc(cs[..|cs| - 1], cs[|cs| - 1]);
      SnocOfLast(cs);
    }
  }

  /** A separator is never first, never last, and always sits between a
      thinking chunk and a text chunk; so two separators are never adjacent
      and none ever follows or precedes an "other" block. */
  lemma {:induction false} SeparatorsBetweenSwitches(cs: seq<Chunk>)
    ensures var ps := Interleave(cs);
      && (ps != [] ==> ps[0].Block? && ps[|ps| - 1].Block?)
      && forall i :: 0 <= i < |ps| && ps[i].Separator? ==>
           0 < i < |ps| - 1 && ps[i - 1].Block? && ps[i + 1].Block?
           && Switches(ps[i - 1].chunk.kind, ps[i + 1].chunk.kind)
    decreases |cs|
  {
    if cs != [] {
      var init := cs[..|cs| - 1];
      var last := cs[|cs| - 1];
      var head := Interleave(init);
      var sw := init != [] && Switches(init[|init| - 1].kind, last.kind);
      var sep: seq<Piece> := if sw then [Separator] else [];
      SeparatorsBetweenSwitches(init);
      var ps := Interleave(cs);
      assert ps == head + sep + [Block(last)];
      if init != [] {
        InterleaveLast(init);
      }
      forall i | 0 <= i < |ps| && ps[i].Separator?
        ensures 0 < i < |ps| - 1 && ps[i - 1].Block? && ps[i + 1].Block?
                && Switches(ps[i - 1].chunk.kind, ps[i + 1].chunk.kind)
      {
        if i < |head| {
          assert ps[i] == head[i];
          assert ps[i - 1] == head[i - 1] && ps[i + 1] == head[i + 1];
        } else {
          assert sw && i == |head|;
        }
      }
    }
  }

  /** The last piece of an interleaving is the last chunk. */
  lemma InterleaveLast(cs: seq<Chunk>)
    requires cs != []
    ensures var ps := Interleave(cs); ps != [] && ps[|ps| - 1] == Block(cs[|cs| - 1])
  {
  }

  /** With thinking excluded there is never a separator. */
  lemma ExcludeThinkingHasNoSeparator(bs: seq<ContentBlock>)
    ensures forall p :: p in Interleave(Chunks(bs, true)) ==> p.Block?
  {
    var cs := Chunks(bs, true);
    SeparatorsBetweenSwitches(cs);
    var ps := Interleave(cs);
    forall i | 0 <= i < |ps| && ps[i].Separator?
      ensures false
    {
      InterleaveKeepsChunks(cs);
      BlockInChunks(ps, i - 1);
      BlockInChunks(ps, i + 1);
    }
  }

  /** A chunk of a list of pieces is one of its chunks. */
  lemma {:induction false} BlockInChunks(ps: seq<Piece>, i: int)
    requires 0 <= i < |ps| && ps[i].Block?
    ensures ps[i].chunk in BlocksOf(ps)
    decreases |ps|
  {
    if i < |ps| - 1 {
      BlockInChunks(ps[..|ps| - 1], i);
    }
  }

  function ThinkingSeparator(options: ParseOptions): String {
    options.thinkingSeparator.GetOr(DefaultThinkingSeparator)
  }

  /** The pieces of text a message's content blocks produce. */
  function Parts(m: ClaudeMessage, options: ParseOptions): seq<String> {
    if m.content.None? then []
    else Render(Interleave(Chunks(m.content.value, options.excludeThinking.GetOr(false))), ThinkingSeparator(options))
  }

  /** The text of a message: its parts joined by a blank line and trimmed,
      or, when the blocks produce nothing, the trimmed `text` member. */
  function MessageText(m: ClaudeMessage, options: ParseOptions): (r: String)
    ensures r == [] || (!IsSpace(r[0]) && !IsSpace(r[|r| - 1]))
  {
    var parts := Parts(m, options);
    if parts != [] then Trim(Join(parts, "\n\n"))
    else if m.text.Some? && Trim(m.text.value) != [] then Trim(m.text.value)
    else []
  }

  /** The fallback: with no parts, the message text is the trimmed `text`
      when it is not blank and "" otherwise. */
  lemma MessageTextFallback(m: ClaudeMessage, options: ParseOptions)
    requires Parts(m, options) == []
    ensures m.text.Some? && !AllSpace(m.text.value) ==> MessageText(m, options) == Trim(m.text.value)
    ensures m.text.None? || AllSpace(m.text.value) ==> MessageText(m, options) == []
  {
    if m.text.Some? {
      TrimEmptyIffBlank(m.text.value);
    }
  }

  /** A block that contributes a chunk always yields a non-empty text. */
  lemma ContributingBlockGivesText(m: ClaudeMessage, options: ParseOptions, i: nat)
    requires m.content.Some? && i < |m.content.value|
    requires Contribution(m.content.value[i], options.excludeThinking.GetOr(false)).Some?
    ensures MessageText(m, options) != []
  {
    var bs := m.content.value;
    var ex := options.excludeThinking.GetOr(false);
    ChunksNonEmpty(bs, ex, i);
    var cs := Chunks(bs, ex);
    var parts := Parts(m, options);
    InterleaveFirst(cs);
    assert parts[0] == cs[0].text;
    JoinStartsWith(parts, "\n\n");
    var j := Join(parts, "\n\n");
    assert j[0] == cs[0].text[0];
    TrimEmptyIffBlank(j);
  }

  lemma {:induction false} ChunksNonEmpty(bs: seq<ContentBlock>, ex: bool, i: nat)
    requires i < |bs| && Contribution(bs[i], ex).Some?
    ensures Chunks(bs, ex) != []
    decreases |bs|
  {
    if i < |bs| - 1 {
      ChunksNonEmpty(bs[..|bs| - 1], ex, i);
    }
  }

  /** The first piece of an interleaving is the first chunk. */
  lemma {:induction false} InterleaveFirst(cs: seq<Chunk>)
    requires cs != []
    ensures Interleave(cs)[0] == Block(cs[0])
    decreases |cs|
  {
    if |cs| > 1 {
      InterleaveFirst(cs[..|cs| - 1]);
    }
  }

  lemma JoinStartsWith(parts: seq<String>, sep: String)
    requires parts != []
    ensures |parts[0]| <= |Join(parts, sep)| && Join(parts, sep)[..|parts[0]|] == parts[0]
  {
  }

  lemma {:induction false} ChunksSnoc(bs: seq<ContentBlock>, k: nat, ex: bool)
    requires k < |bs|
    ensures Chunks(bs[..k + 1], ex) == Chunks(bs[..k], ex) + OptionSeq(Contribution(bs[k], ex))
  {
    assert bs[..k + 1][..k] == bs[..k];
  }

  /** The kind `lastKind` holds after the given chunks: that of the last
      one, and none after an "other" block. */
  function LastKind(cs: seq<Chunk>): (r: Option<Kind>)
    ensures r != Some(Other)
  {
    if cs == [] || cs[|cs| - 1].kind == Other then None else Some(cs[|cs| - 1].kind)
  }

  /** A separator goes in when the kind of the last kept chunk switches. */
  predicate NeedsSeparator(lastKind: Option<Kind>, k: Kind) {
    lastKind.Some? && Switches(lastKind.value, k)
  }

  function SeparatorText(lastKind: Option<Kind>, k: Kind, separator: String): seq<String> {
    if NeedsSeparator(lastKind, k) then [separator] else []
  }

  /** Appending a chunk appends a separator first exactly when the last kept
      kind switches to the new chunk's kind. */
  lemma PartsSnoc(before: seq<Chunk>, c: Chunk, separator: String)
    ensures Render(Interleave(before + [c]), separator) ==
      Render(Interleave(before), separator) + SeparatorText(LastKind(before), c.kind, separator) + [c.text]
  {
    InterleaveSnoc(before, c);
    var head := Interleave(before);
    if NeedsSeparator(LastKind(before), c.kind) {
      assert before != [] && Switches(before[|before| - 1].kind, c.kind);
      RenderSnoc(head, Separator, separator);
      RenderSnoc(head + [Separator], Block(c), separator);
    } else {
      assert !(before != [] && Switches(before[|before| - 1].kind, c.kind));
      assert head + [] == head;
      RenderSnoc(head, Block(c), separator);
    }
  }

  /** What one pass of the loop of `extractMessageText` does, given what
      the block contributes: nothing, or the block's text appended to
      `parts`, after the separator when the kind of the last kept block
      switches, with `lastKind` updated. */
  predicate Appended(parts: seq<String>, lastKind: Option<Kind>, c: Option<Chunk>, separator: String,
                     parts': seq<String>, lastKind': Option<Kind>)
  {
    && (c.None? ==> parts' == parts && lastKind' == lastKind)
    && (c.Some? ==>
          && parts' == parts + SeparatorText(lastKind, c.value.kind, separator) + [c.value.text]
          && lastKind' == LastKind([c.value]))
  }

  /** One pass of the loop of `extractMessageText`, on a block of any kind. */
  method AppendBlock(parts: seq<String>, lastKind: Option<Kind>, entry: ContentBlock,
                     excludeThinking: bool, separator: String)
    returns (parts': seq<String>, lastKind': Option<Kind>)
    requires lastKind != Some(Other)
    ensures Appended(parts, lastKind, Contribution(entry, excludeThinking), separator, parts', lastKind')
  {
    var kind := KindOf(entry.blockType);
    if kind == Thinking {
      parts', lastKind' := AppendThinking(parts, lastKind, entry, excludeThinking, separator);
    } else {
      parts', lastKind' := AppendText(parts, lastKind, entry, excludeThinking, separator);
    }
  }

  /** The pass for a thinking block: skipped when thinking is excluded or
      both its `thinking` and its `text` are blank. */
  method AppendThinking(parts: seq<String>, lastKind: Option<Kind>, entry: ContentBlock,
                        excludeThinking: bool, separator: String)
    returns (parts': seq<String>, lastKind': Option<Kind>)
    requires lastKind != Some(Other)
    requires KindOf(entry.blockType) == Thinking
    ensures Appended(parts, lastKind, Contribution(entry, excludeThinking), separator, parts', lastKind')
  {
    parts', lastKind' := parts, lastKind;
    if excludeThinking {
      return;
    }
    var thinkingText := NormalizeContentText(entry.thinking);
    if thinkingText == [] {
      thinkingText := NormalizeContentText(entry.text);
    }
    if thinkingText == [] {
      return;
    }
    assert Contribution(entry, excludeThinking) == Some(Chunk(Thinking, thinkingText));
    SeparatorForThinking(lastKind, separator);
    if lastKind.Some? && lastKind.value != Thinking {
      parts' := parts' + [separator];
    }
    assert parts' == parts + SeparatorText(lastKind, Thinking, separator);
    parts' := parts' + [thinkingText];
    lastKind' := Some(Thinking);
  }

  /** A text or other block after a block that is not "other" needs a
      separator exactly when it is text and the last kept kind was not. */
  lemma SeparatorForText(lastKind: Option<Kind>, kind: Kind, separator: String)
    requires lastKind != Some(Other) && kind != Thinking
    ensures SeparatorText(lastKind, kind, separator) ==
              if kind == Text && lastKind.Some? && lastKind.value != Text then [separator] else []
  {
  }

  /** A thinking block needs a separator exactly when the last kept kind was
      not thinking. */
  lemma SeparatorForThinking(lastKind: Option<Kind>, separator: String)
    requires lastKind != Some(Other)
    ensures SeparatorText(lastKind, Thinking, separator) ==
              if lastKind.Some? && lastKind.value != Thinking then [separator] else []
  {
  }

  /** The pass for a text or other block: skipped when its `text` is blank;
      only a text block can need a separator, and an other block clears
      `lastKind`. */
  method AppendText(parts: seq<String>, lastKind: Option<Kind>, entry: ContentBlock,
                    excludeThinking: bool, separator: String)
    returns (parts': seq<String>, lastKind': Option<Kind>)
    requires lastKind != Some(Other)
    requires KindOf(entry.blockType) != Thinking
    ensures Appended(parts, lastKind, Contribution(entry, excludeThinking), separator, parts', lastKind')
  {
    parts', lastKind' := parts, lastKind;
    var kind := KindOf(entry.blockType);
    var text := NormalizeContentText(entry.text);
    if text == [] {
      assert Contribution(entry, excludeThinking).None?;
      return;
    }
    assert Contribution(entry, excludeThinking) == Some(Chunk(kind, text));
    SeparatorForText(lastKind, kind, separator);
    if kind == Text && lastKind.Some? && lastKind.value != Text {
      parts' := parts' + [separator];
    }
    assert parts' == parts + SeparatorText(lastKind, kind, separator);
    parts' := parts' + [text];
    lastKind' := if kind == Text then Some(Text) else None;
    assert lastKind' == LastKind([Chunk(kind, text)]);
  }

  /** The loop invariant of `extractMessageText` after the first `k` blocks. */
  predicate CollectedUpTo(content: seq<ContentBlock>, k: nat, excludeThinking: bool, separator: String,
                          parts: seq<String>, lastKind: Option<Kind>)
    requires k <= |content|
  {
    var cs := Chunks(content[..k], excludeThinking);
    parts == Render(Interleave(cs), separator) && lastKind == LastKind(cs)
  }

  lemma CollectedStep(content: seq<ContentBlock>, k: nat, excludeThinking: bool, separator: String,
                      parts: seq<String>, lastKind: Option<Kind>, parts': seq<String>, lastKind': Option<Kind>)
    requires k < |content|
    requires CollectedUpTo(content, k, excludeThinking, separator, parts, lastKind)
    requires Appended(parts, lastKind, Contribution(content[k], excludeThinking), separator, parts', lastKind')
    ensures CollectedUpTo(content, k + 1, excludeThinking, separator, parts', lastKind')
  {
    ChunksSnoc(content, k, excludeThinking);
    var before := Chunks(content[..k], excludeThinking);
    var c := Contribution(content[k], excludeThinking);
    if c.Some? {
      PartsSnoc(before, c.value, separator);
      assert Chunks(content[..k + 1], excludeThinking) == before + [c.value];
    } else {
      assert Chunks(content[..k + 1], excludeThinking) == before + [];
      assert before + [] == before;
    }
  }

  /** The loop of `extractMessageText`: the pieces the content blocks
      produce, with a separator only where the kind of the last kept block
      switches. */
  method CollectParts(content: seq<ContentBlock>, excludeThinking: bool, separator: String)
    returns (parts: seq<String>)
    ensures parts == Render(Interleave(Chunks(content, excludeThinking)), separator)
  {
    parts := [];
    var lastKind: Option<Kind> := None;
    for k := 0 to |content|
      invariant CollectedUpTo(content, k, excludeThinking, separator, parts, lastKind)
    {
      var parts', lastKind' := AppendBlock(parts, lastKind, content[k], excludeThinking, separator);
      CollectedStep(content, k, excludeThinking, separator, parts, lastKind, parts', lastKind');
      parts, lastKind := parts', lastKind';
    }
    assert content[..|content|] == content;
  }

  /** `extractMessageText`: the collected pieces joined by a blank line and
      trimmed; with no pieces, the message's trimmed `text`. */
  method ExtractMessageText(m: ClaudeMessage, options: ParseOptions) returns (r: String)
    ensures r == MessageText(m, options)
  {
    if m.content.Some? {
      var parts := CollectParts(m.content.value, options.excludeThinking.GetOr(false), ThinkingSeparator(options));
      if |parts| > 0 {
        return Trim(Join(parts, "\n\n"));
      }
    }
    if m.text.Some? {
      var trimmed := Trim(m.text.value);
      if trimmed != [] {
        return trimmed;
      }
    }
    return [];
  }

  // ---------------------------------------------------------------------
  // Messages

  /** `mapRole`. */
  function MapRole(sender: Option<String>): (role: String)
    ensures sender == Some("human") ==> role == "user"
    ensures sender == Some("assistant") ==> role == "assistant"
    ensures sender == Some("system") ==> role == "system"
    ensures sender !in {Some("human"), Some("assistant"), Some("system")} ==> role == "unknown"
  {
    match sender
    case Some("human") => "user"
    case Some("assistant") => "assistant"
    case Some("system") => "system"
    case _ => "unknown"
  }

  function ContentTypeOf(m: ClaudeMessage): Option<String> {
    if m.content.Some? && m.content.value != [] then m.content.value[0].blockType else None
  }

  predicate Dropped(m: ClaudeMessage, includeSystem: bool) {
    m.uuid.None? || m.uuid.value == [] || (!includeSystem && m.sender == Some("system"))
  }

  /** `mapMessage`: a message with a uuid, not a system message unless those
      are included, becomes a message without attachments. */
  function MapMessage(m: ClaudeMessage, includeSystem: bool, options: ParseOptions, builtins: Builtins)
    : (r: Option<Message>)
    ensures r.None? <==> Dropped(m, includeSystem)
    ensures r.Some? ==>
      && r.value.id == m.uuid.value && r.value.id != []
      && r.value.role == MapRole(m.sender)
      && r.value.content == MessageText(m, options)
      && r.value.attachments == []
  {
    if m.uuid.None? || m.uuid.value == [] then None
    else
      var role := MapRole(m.sender);
      if !includeSystem && role == "system" then None
      else Some(Message(m.uuid.value, role, NormalizeTimestamp(m.createdAt, builtins), MessageText(m, options),
                        ContentTypeOf(m), []))
  }

  /** What every kept message satisfies. */
  predicate MessageOk(m: Message, includeSystem: bool) {
    m.id != [] && m.content != [] && m.attachments == [] && (!includeSystem ==> m.role != "system")
  }

  /** The two filters after `map`: the messages present and with text, in order. */
  function WithText(os: seq<Option<Message>>): (r: seq<Message>)
    ensures |r| <= |os|
    ensures forall k :: 0 <= k < |r| ==> r[k].content != [] && Some(r[k]) in os
  {
    if os == [] then []
    else (if os[0].Some? && os[0].value.content != [] then [os[0].value] else []) + WithText(os[1..])
  }

  /** Every message present and with text passes both filters. */
  lemma {:induction false} WithTextKeeps(os: seq<Option<Message>>, i: nat)
    requires i < |os| && os[i].Some? && os[i].value.content != []
    ensures os[i].value in WithText(os)
    decreases i
  {
    if i > 0 {
      assert os[1..][i - 1] == os[i];
      WithTextKeeps(os[1..], i - 1);
    }
  }

  /** The chat messages mapped by `mapMessage`. */
  function MappedMessages(ms: seq<ClaudeMessage>, includeSystem: bool, options: ParseOptions, builtins: Builtins)
    : seq<Option<Message>>
  {
    seq(|ms|, k requires 0 <= k < |ms| => MapMessage(ms[k], includeSystem, options, builtins))
  }

  /** The chat messages mapped, those dropped or without text left out. */
  function KeptMessages(ms: seq<ClaudeMessage>, includeSystem: bool, options: ParseOptions, builtins: Builtins)
    : (r: seq<Message>)
    ensures |r| <= |ms|
    ensures forall k :: 0 <= k < |r| ==> MessageOk(r[k], includeSystem)
  {
    var os := MappedMessages(ms, includeSystem, options, builtins);
    var r := WithText(os);
    assert forall k :: 0 <= k < |r| ==> MessageOk(r[k], includeSystem) by {
      forall k | 0 <= k < |r|
        ensures MessageOk(r[k], includeSystem)
      {
        var j :| 0 <= j < |os| && os[j] == Some(r[k]);
        assert os[j] == MapMessage(ms[j], includeSystem, options, builtins);
      }
    }
    r
  }

  /** Every message that maps to non-empty text is kept. */
  lemma KeptMessagesKeeps(ms: seq<ClaudeMessage>, includeSystem: bool, options: ParseOptions,
                          builtins: Builtins, i: nat)
    requires i < |ms|
    requires var m := MapMessage(ms[i], includeSystem, options, builtins); m.Some? && m.value.content != []
    ensures MapMessage(ms[i], includeSystem, options, builtins).value in KeptMessages(ms, includeSystem, options, builtins)
  {
    WithTextKeeps(MappedMessages(ms, includeSystem, options, builtins), i);
  }

  // ---------------------------------------------------------------------
  // Conversations

  predicate HasUuid(c: ClaudeConversation) {
    c.uuid.Some? && c.uuid.value != []
  }

  /** The import key `claude:<uuid>`. */
  function KeyOf(id: String): String {
    Source + ":" + id
  }

  function ConversationMessages(c: ClaudeConversation, options: ParseOptions, builtins: Builtins): seq<Message> {
    KeptMessages(c.chatMessages.GetOr([]), options.includeSystemMessages.GetOr(false), options, builtins)
  }

  /** The record of a conversation with a uuid: its import key is the source
      and the uuid, its title is never empty, and every message it carries
      has an id and text and no attachments. */
  function RecordOf(c: ClaudeConversation, options: ParseOptions, builtins: Builtins): (r: ConversationRecord)
    requires HasUuid(c)
    ensures r.source == Source && r.conversationId == c.uuid.value && r.importKey == KeyOf(r.conversationId)
    ensures r.title != []
    ensures forall k :: 0 <= k < |r.messages| ==> MessageOk(r.messages[k], options.includeSystemMessages.GetOr(false))
  {
    ConversationRecord(Source, c.uuid.value, KeyOf(c.uuid.value), Title(c.name),
                       NormalizeTimestamp(c.createdAt, builtins), NormalizeTimestamp(c.updatedAt, builtins),
                       ConversationMessages(c, options, builtins))
  }

  /** The import keys of the conversations before index `i` that have a uuid. */
  function SeenKeys(cs: seq<ClaudeConversation>, i: nat): set<String>
    requires i <= |cs|
  {
    set j | 0 <= j < i && HasUuid(cs[j]) :: KeyOf(cs[j].uuid.value)
  }

  lemma SeenKeysStep(cs: seq<ClaudeConversation>, i: nat)
    requires i < |cs|
    ensures HasUuid(cs[i]) ==> SeenKeys(cs, i + 1) == SeenKeys(cs, i) + {KeyOf(cs[i].uuid.value)}
    ensures !HasUuid(cs[i]) ==> SeenKeys(cs, i + 1) == SeenKeys(cs, i)
  {
  }

  /** Conversation `i` becomes a record: it has a uuid, no earlier
      conversation had its import key (whether or not that one became a
      record), and some message of it is kept. */
  predicate Kept(cs: seq<ClaudeConversation>, i: nat, options: ParseOptions, builtins: Builtins)
    requires i < |cs|
  {
    && HasUuid(cs[i])
    && KeyOf(cs[i].uuid.value) !in SeenKeys(cs, i)
    && ConversationMessages(cs[i], options, builtins) != []
  }

  lemma KeptKeysDistinct(cs: seq<ClaudeConversation>, i: nat, j: nat, options: ParseOptions, builtins: Builtins)
    requires i < j < |cs|
    requires Kept(cs, i, options, builtins) && Kept(cs, j, options, builtins)
    ensures KeyOf(cs[i].uuid.value) != KeyOf(cs[j].uuid.value)
  {
    assert KeyOf(cs[i].uuid.value) in SeenKeys(cs, j);
  }

  /** One iteration of the parsing loop. */
  method ParseOne(conversations: seq<ClaudeConversation>, i: nat, seen: set<String>,
                  options: ParseOptions, builtins: Builtins)
    returns (record: Option<ConversationRecord>, seenAfter: set<String>)
    requires i < |conversations|
    requires seen == SeenKeys(conversations, i)
    ensures seenAfter == SeenKeys(conversations, i + 1)
    ensures record.Some? <==> Kept(conversations, i, options, builtins)
    ensures record.Some? ==> record.value == RecordOf(conversations[i], options, builtins)
  {
    var c := conversations[i];
    SeenKeysStep(conversations, i);
    seenAfter := seen;
    record := None;
    if c.uuid.None? || c.uuid.value == [] {
      return;
    }
    var importKey := Source + ":" + c.uuid.value;
    if importKey in seen {
      return;
    }
    seenAfter := seen + {importKey};
    var messages := KeptMessages(c.chatMessages.GetOr([]), options.includeSystemMessages.GetOr(false), options, builtins);
    if |messages| == 0 {
      return;
    }
    record := Some(ConversationRecord(Source, c.uuid.value, importKey, Title(c.name),
                                      NormalizeTimestamp(c.createdAt, builtins),
                                      NormalizeTimestamp(c.updatedAt, builtins), messages));
  }

  /** What conversation `j` becomes: its record when it is kept, nothing
      otherwise. */
  ghost function Outcome(cs: seq<ClaudeConversation>, options: ParseOptions, builtins: Builtins): nat -> Option<ConversationRecord> {
    (j: nat) => if j < |cs| && Kept(cs, j, options, builtins) then Some(RecordOf(cs[j], options, builtins)) else None
  }

  /** After the first `i` conversations: `output` holds the records of the
      kept ones among them, in order, and `from` their indices. */
  ghost predicate ParsedUpTo(cs: seq<ClaudeConversation>, i: nat, output: seq<ConversationRecord>, from: seq<nat>,
                             options: ParseOptions, builtins: Builtins)
    requires i <= |cs|
  {
    Selected(i, output, from, Outcome(cs, options, builtins))
  }

  lemma ParsedUpToStep(cs: seq<ClaudeConversation>, i: nat, output: seq<ConversationRecord>, from: seq<nat>,
                       record: Option<ConversationRecord>, options: ParseOptions, builtins: Builtins)
    requires i < |cs| && ParsedUpTo(cs, i, output, from, options, builtins)
    requires record.Some? <==> Kept(cs, i, options, builtins)
    requires record.Some? ==> record.value == RecordOf(cs[i], options, builtins)
    ensures record.None? ==> ParsedUpTo(cs, i + 1, output, from, options, builtins)
    ensures record.Some? ==> ParsedUpTo(cs, i + 1, output + [record.value], from + [i], options, builtins)
  {
    var outcome := Outcome(cs, options, builtins);
    assert outcome(i) == record;
    SelectedStep(i, output, from, outcome);
  }

  /** No two parsed records share an import key. */
  lemma ParsedKeysDistinct(cs: seq<ClaudeConversation>, output: seq<ConversationRecord>, from: seq<nat>,
                           options: ParseOptions, builtins: Builtins)
    requires ParsedUpTo(cs, |cs|, output, from, options, builtins)
    ensures forall k, l :: 0 <= k < l < |output| ==> output[k].importKey != output[l].importKey
  {
    forall k, l | 0 <= k < l < |output|
      ensures output[k].importKey != output[l].importKey
    {
      var outcome := Outcome(cs, options, builtins);
      assert outcome(from[k]) == Some(output[k]) && outcome(from[l]) == Some(output[l]);
      KeptKeysDistinct(cs, from[k], from[l], options, builtins);
    }
  }

  /** `parseClaudeConversations`: the records of exactly the kept
      conversations, in input order, each built from its conversation; no two
      share an import key. */
  method ParseClaudeConversations(conversations: seq<ClaudeConversation>, options: ParseOptions, builtins: Builtins)
    returns (output: seq<ConversationRecord>, ghost from: seq<nat>)
    ensures ParsedUpTo(conversations, |conversations|, output, from, options, builtins)
    ensures forall k, l :: 0 <= k < l < |output| ==> output[k].importKey != output[l].importKey
  {
    var seen: set<String> := {};
    output := [];
    from := [];
    for i: nat := 0 to |conversations|
      invariant seen == SeenKeys(conversations, i)
      invariant ParsedUpTo(conversations, i, output, from, options, builtins)
    {
      var record;
      record, seen := ParseOne(conversations, i, seen, options, builtins);
      ParsedUpToStep(conversations, i, output, from, record, options, builtins);
      if record.Some? {
        output := output + [record.value];
        from := from + [i];
      }
    }
    ParsedKeysDistinct(conversations, output, from, options, builtins);
  }
}
