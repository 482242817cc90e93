/** The ChatGPT export parser (packages/chatgpt/src/parser.ts): it turns the
    conversations of a `conversations.json` export into conversation records.
    Each conversation's message tree is reduced to one branch, the chain of
    parents from the current node back to the root, and the messages on that
    branch are filtered and mapped. Conversations are identified by an import
    key, and only the first conversation with a given key is considered.

    The JSON values of the export are datatypes whose optional members are
    `Option`s. A JSON object of mapping nodes is its keys, in the order
    `Object.values` lists them, together with the entries. The two runtime
    built-ins the parser calls, ISO date formatting and `JSON.stringify`, are
    given functions. */
module ChatGptParser {
  import opened Wrappers
  import opened Strings
  import opened Conversation
  import opened ParserCommon

  const Source: String := "chatgpt"
  /** The one content type whose messages are never imported. */
  const SkippedContentType: String := "user_editable_context"

  /** An element of `content.parts`; only strings contribute text. */
  datatype Part = TextPart(text: String) | OtherPart

  datatype Content = Content(
    contentType: Option<String>,
    parts: Option<seq<Part>>,
    text: Option<String>,
    content: Option<String>)

  datatype ChatGptAttachment = ChatGptAttachment(
    id: String,
    name: Option<String>,
    mimeType: Option<String>,
    size: Option<int>)

  /** A message; `role` is `author.role` (absent when `author` is) and
      `hidden` is `metadata.is_visually_hidden_from_conversation`. An entry of
      `attachments` is `None` where the export holds `null`. */
  datatype ChatGptMessage = ChatGptMessage(
    id: String,
    role: Option<String>,
    createTime: Option<real>,
    content: Option<Content>,
    attachments: Option<seq<Option<ChatGptAttachment>>>,
    hidden: Option<bool>)

  datatype MappingNode = MappingNode(parent: Option<String>, message: Option<ChatGptMessage>)

  datatype Mapping = Mapping(keys: seq<String>, nodes: map<String, MappingNode>)

  datatype ChatGptConversation = ChatGptConversation(
    id: Option<String>,
    conversationId: Option<String>,
    title: Option<String>,
    createTime: Option<real>,
    updateTime: Option<real>,
    currentNode: Option<String>,
    mapping: Option<Mapping>)

  /** `new Date(t * 1000).toISOString()` and `JSON.stringify(content, null, 2)`. */
  datatype Builtins = Builtins(isoDate: real -> String, stringify: Content -> String)

  datatype ParseOptions = ParseOptions(
    includeSystemMessages: Option<bool>,
    includeHiddenMessages: Option<bool>,
    resolveAttachmentPath: Option<ChatGptAttachment -> Option<String>>)

  function ToIsoDate(t: Option<real>, builtins: Builtins): Option<String> {
    if t.None? then None else Some(builtins.isoDate(t.value))
  }

  // ---------------------------------------------------------------------
  // Message text

  /** The string elements of `parts`, in order. */
  function StringParts(parts: seq<Part>): (r: seq<String>)
    ensures |r| <= |parts|
  {
    if parts == [] then []
    else if parts[0].TextPart? then [parts[0].text] + StringParts(parts[1..])
    else StringParts(parts[1..])
  }

  lemma {:induction false} StringPartsAppend(xs: seq<Part>, ys: seq<Part>)
    ensures StringParts(xs + ys) == StringParts(xs) + StringParts(ys)
    decreases |xs|
  {
    if xs == [] {
      assert xs + ys == ys;
    } else {
      assert (xs + ys)[1..] == xs[1..] + ys;
      StringPartsAppend(xs[1..], ys);
    }
  }

  predicate IsTextType(t: Option<String>) {
    t == Some("text") || t == Some("multimodal_text")
  }

  predicate IsCodeType(t: Option<String>) {
    t == Some("code") || t == Some("execution_output")
  }

  predicate IsRecapType(t: Option<String>) {
    t == Some("reasoning_recap")
  }

  predicate IsKnownType(t: Option<String>) {
    IsTextType(t) || IsCodeType(t) || IsRecapType(t)
  }

  /** The text of a message, by content type: the string parts joined by a
      blank line, the code or output text, or the reasoning recap, each
      trimmed; a missing member gives "". Any other content type is rendered
      as JSON. */
  function ExtractMessageText(content: Option<Content>, builtins: Builtins): (r: String)
    ensures content.None? ==> r == []
    ensures content.Some? && IsKnownType(content.value.contentType) ==>
              r == [] || (!IsSpace(r[0]) && !IsSpace(r[|r| - 1]))
    ensures content.Some? && !IsKnownType(content.value.contentType) ==> r == builtins.stringify(content.value)
  {
    if content.None? then []
    else
      var c := content.value;
      if IsTextType(c.contentType) then
        if c.parts.Some? then Trim(Join(StringParts(c.parts.value), "\n\n")) else []
      else if IsCodeType(c.contentType) then
        if c.text.Some? then Trim(c.text.value) else []
      else if IsRecapType(c.contentType) then
        if c.content.Some? then Trim(c.content.value) else []
      else
        builtins.stringify(c)
  }

  /** Each known content type reads its own member and trims it, and
      gives "" when that member is missing: the string parts joined by a
      blank line for text, `text` for code and output, `content` for a
      reasoning recap. */
  lemma ExtractMessageTextByType(content: Option<Content>, builtins: Builtins)
    ensures var r := ExtractMessageText(content, builtins);
            && (content.None? ==> r == [])
            && (content.Some? && IsTextType(content.value.contentType) ==>
                  && (content.value.parts.None? ==> r == [])
                  && (content.value.parts.Some? ==> IsTrimOf(r, Join(StringParts(content.value.parts.value), "\n\n"))))
            && (content.Some? && IsCodeType(content.value.contentType) ==>
                  && (content.value.text.None? ==> r == [])
                  && (content.value.text.Some? ==> IsTrimOf(r, content.value.text.value)))
            && (content.Some? && IsRecapType(content.value.contentType) ==>
                  && (content.value.content.None? ==> r == [])
                  && (content.value.content.Some? ==> IsTrimOf(r, content.value.content.value)))
  {
    if content.Some? {
      var c := content.value;
      if IsTextType(c.contentType) && c.parts.Some? {
        var i := TrimIsTrimmed(Join(StringParts(c.parts.value), "\n\n"));
      } else if IsCodeType(c.contentType) && c.text.Some? {
        var i := TrimIsTrimmed(c.text.value);
      } else if IsRecapType(c.contentType) && c.content.Some? {
        var i := TrimIsTrimmed(c.content.value);
      }
    }
  }

  /** The parts of a text content made of the strings `texts`. */
  function TextParts(texts: seq<String>): (r: seq<Part>)
    ensures |r| == |texts| && forall k :: 0 <= k < |r| ==> r[k] == TextPart(texts[k])
  {
    seq(|texts|, k requires 0 <= k < |texts| => TextPart(texts[k]))
  }

  lemma {:induction false} StringPartsOfText(texts: seq<String>)
    ensures StringParts(TextParts(texts)) == texts
    decreases |texts|
  {
    if texts != [] {
      assert TextParts(texts)[1..] == TextParts(texts[1..]);
      StringPartsOfText(texts[1..]);
    }
  }

  /** Any number of string parts: the text is their join with a blank line
      between every two, trimmed. */
  lemma TextPartsJoined(c: Content, texts: seq<String>, builtins: Builtins)
    requires IsTextType(c.contentType)
    ensures ExtractMessageText(Some(c.(parts := Some(TextParts(texts)))), builtins)
         == Trim(Join(texts, "\n\n"))
  {
    StringPartsOfText(texts);
  }

  /** Parts that are not strings (images, file references) never change the text. */
  lemma NonStringPartsIgnored(c: Content, xs: seq<Part>, ys: seq<Part>, builtins: Builtins)
    requires IsTextType(c.contentType)
    ensures ExtractMessageText(Some(c.(parts := Some(xs + [OtherPart] + ys))), builtins)
         == ExtractMessageText(Some(c.(parts := Some(xs + ys))), builtins)
  {
    StringPartsAppend(xs + [OtherPart], ys);
    StringPartsAppend(xs, [OtherPart]);
    StringPartsAppend(xs, ys);
    assert StringParts([OtherPart]) == StringParts([OtherPart][1..]);
    assert StringParts(xs + [OtherPart]) == StringParts(xs);
  }

  /** Two string parts are separated by one blank line before trimming. */
  lemma TwoPartsJoined(c: Content, a: String, b: String, builtins: Builtins)
    requires IsTextType(c.contentType)
    ensures ExtractMessageText(Some(c.(parts := Some([TextPart(a), TextPart(b)]))), builtins)
         == Trim(a + "\n\n" + b)
  {
    assert StringParts([TextPart(a), TextPart(b)]) == [a, b] by {
      assert [TextPart(a), TextPart(b)][1..] == [TextPart(b)];
    }
    assert Join([a, b], "\n\n") == a + "\n\n" + b by {
      assert [a, b][1..] == [b];
    }
  }

  // ---------------------------------------------------------------------
  // Messages and attachments

  function MapAttachment(a: ChatGptAttachment, resolve: ChatGptAttachment -> Option<String>): (r: Attachment)
    ensures r.id == a.id && r.name == a.name && r.mimeType == a.mimeType && r.sizeBytes == a.size
    ensures r.sourcePath == resolve(a) && r.vaultPath.None? && r.obsidianLink.None?
  {
    Attachment(a.id, a.name, a.mimeType, resolve(a), None, None, a.size)
  }

  predicate HasAttachmentId(a: Option<ChatGptAttachment>) {
    a.Some? && a.value.id != []
  }

  /** The attachments with a non-empty id, mapped, in order. */
  function MapAttachments(atts: seq<Option<ChatGptAttachment>>, resolve: ChatGptAttachment -> Option<String>)
    : (r: seq<Attachment>)
    ensures |r| <= |atts|
    ensures forall k :: 0 <= k < |r| ==> r[k].id != []
  {
    if atts == [] then []
    else if HasAttachmentId(atts[0]) then [MapAttachment(atts[0].value, resolve)] + MapAttachments(atts[1..], resolve)
    else MapAttachments(atts[1..], resolve)
  }

  /** Every attachment entry with an id is carried over. */
  lemma {:induction false} MapAttachmentsKeepsIdentified(
    atts: seq<Option<ChatGptAttachment>>, resolve: ChatGptAttachment -> Option<String>, i: nat)
    requires i < |atts| && HasAttachmentId(atts[i])
    ensures MapAttachment(atts[i].value, resolve) in MapAttachments(atts, resolve)
    decreases i
  {
    if i > 0 {
      MapAttachmentsKeepsIdentified(atts[1..], resolve, i - 1);
    }
  }

  /** Mapping a concatenation maps each part in turn, so the attachments
      keep the order of the entries they come from. */
  lemma {:induction false} MapAttachmentsAppend(xs: seq<Option<ChatGptAttachment>>, ys: seq<Option<ChatGptAttachment>>,
                                                resolve: ChatGptAttachment -> Option<String>)
    ensures MapAttachments(xs + ys, resolve) == MapAttachments(xs, resolve) + MapAttachments(ys, resolve)
    decreases |xs|
  {
    if xs == [] {
      assert xs + ys == ys;
    } else {
      assert (xs + ys)[1..] == xs[1..] + ys;
      MapAttachmentsAppend(xs[1..], ys, resolve);
    }
  }

  /** One entry gives its mapped attachment when it has an id, and nothing
      otherwise. */
  lemma MapAttachmentsSingle(a: Option<ChatGptAttachment>, resolve: ChatGptAttachment -> Option<String>)
    ensures MapAttachments([a], resolve) == if HasAttachmentId(a) then [MapAttachment(a.value, resolve)] else []
  {
    assert [a][1..] == [];
  }

  function RoleOf(m: ChatGptMessage): String {
    m.role.GetOr("unknown")
  }

  /** The reasons `mapMessage` returns null. */
  predicate Dropped(node: MappingNode, includeSystem: bool, includeHidden: bool) {
    || node.message.None?
    || node.message.value.id == []
    || (!includeSystem && RoleOf(node.message.value) == "system")
    || (node.message.value.content.Some? && node.message.value.content.value.contentType == Some(SkippedContentType))
    || (!includeHidden && node.message.value.hidden == Some(true))
  }

  function MapMessage(node: MappingNode, resolve: ChatGptAttachment -> Option<String>,
                      includeSystem: bool, includeHidden: bool, builtins: Builtins): (r: Option<Message>)
    ensures r.None? <==> Dropped(node, includeSystem, includeHidden)
    ensures r.Some? ==> MessageOk(r.value, includeSystem)
    ensures r.Some? ==>
      var m := node.message.value;
      && r.value.id == m.id
      && r.value.role == RoleOf(m)
      && r.value.createdAt == ToIsoDate(m.createTime, builtins)
      && r.value.content == ExtractMessageText(m.content, builtins)
      && r.value.contentType == (if m.content.Some? then m.content.value.contentType else None)
      && r.value.attachments == MapAttachments(m.attachments.GetOr([]), resolve)
  {
    if node.message.None? || node.message.value.id == [] then None
    else
      var m := node.message.value;
      var role := RoleOf(m);
      var contentType := if m.content.Some? then m.content.value.contentType else None;
      if !includeSystem && role == "system" then None
      else if contentType.GetOr([]) == SkippedContentType then None
      else if !includeHidden && m.hidden == Some(true) then None
      else
        Some(Message(m.id, role, ToIsoDate(m.createTime, builtins), ExtractMessageText(m.content, builtins),
                     contentType, MapAttachments(m.attachments.GetOr([]), resolve)))
  }

  /** What `mapMessage` guarantees of every message it returns. */
  predicate MessageOk(m: Message, includeSystem: bool) {
    m.id != [] && (!includeSystem ==> m.role != "system")
  }

  /** A message worth importing has text or attachments. */
  predicate HasSubstance(m: Message) {
    m.content != [] || m.attachments != []
  }

  /** The messages of a branch: each node mapped, nulls and empty messages dropped. */
  function BranchMessages(nodes: seq<MappingNode>, resolve: ChatGptAttachment -> Option<String>,
                          includeSystem: bool, includeHidden: bool, builtins: Builtins): (r: seq<Message>)
    ensures |r| <= |nodes|
    ensures forall k :: 0 <= k < |r| ==> HasSubstance(r[k]) && MessageOk(r[k], includeSystem)
  {
    if nodes == [] then []
    else
      var m := MapMessage(nodes[0], resolve, includeSystem, includeHidden, builtins);
      var rest := BranchMessages(nodes[1..], resolve, includeSystem, includeHidden, builtins);
      if m.Some? && HasSubstance(m.value) then [m.value] + rest else rest
  }

  /** The messages of a concatenation of nodes are those of each part in
      turn: a branch keeps its order. */
  lemma {:induction false} BranchMessagesAppend(xs: seq<MappingNode>, ys: seq<MappingNode>,
                                                resolve: ChatGptAttachment -> Option<String>,
                                                includeSystem: bool, includeHidden: bool, builtins: Builtins)
    ensures BranchMessages(xs + ys, resolve, includeSystem, includeHidden, builtins)
         == BranchMessages(xs, resolve, includeSystem, includeHidden, builtins)
            + BranchMessages(ys, resolve, includeSystem, includeHidden, builtins)
    decreases |xs|
  {
    if xs == [] {
      assert xs + ys == ys;
    } else {
      assert (xs + ys)[1..] == xs[1..] + ys;
      BranchMessagesAppend(xs[1..], ys, resolve, includeSystem, includeHidden, builtins);
    }
  }

  /** One node gives its mapped message when that has text or attachments,
      and nothing otherwise. */
  lemma BranchMessagesSingle(n: MappingNode, resolve: ChatGptAttachment -> Option<String>,
                             includeSystem: bool, includeHidden: bool, builtins: Builtins)
    ensures var m := MapMessage(n, resolve, includeSystem, includeHidden, builtins);
            BranchMessages([n], resolve, includeSystem, includeHidden, builtins)
              == if m.Some? && HasSubstance(m.value) then [m.value] else []
  {
    assert [n][1..] == [];
  }

  /** Every mapped message with text or attachments is kept. */
  lemma {:induction false} BranchMessagesKeeps(nodes: seq<MappingNode>, resolve: ChatGptAttachment -> Option<String>,
                                               includeSystem: bool, includeHidden: bool, builtins: Builtins, i: nat)
    requires i < |nodes|
    requires var m := MapMessage(nodes[i], resolve, includeSystem, includeHidden, builtins);
             m.Some? && HasSubstance(m.value)
    ensures MapMessage(nodes[i], resolve, includeSystem, includeHidden, builtins).value
            in BranchMessages(nodes, resolve, includeSystem, includeHidden, builtins)
    decreases i
  {
    if i > 0 {
      BranchMessagesKeeps(nodes[1..], resolve, includeSystem, includeHidden, builtins, i - 1);
    }
  }

  // ---------------------------------------------------------------------
  // The active branch

  function NodeMap(m: Option<Mapping>): map<String, MappingNode> {
    if m.None? then map[] else m.value.nodes
  }

  /** `Object.values(mapping)`: the entries in key order. */
  function Values(m: Option<Mapping>): seq<MappingNode> {
    if m.None? then [] else ValuesOf(m.value.keys, m.value.nodes)
  }

  function ValuesOf(keys: seq<String>, nodes: map<String, MappingNode>): (r: seq<MappingNode>)
    ensures |r| <= |keys|
  {
    if keys == [] then []
    else if keys[0] in nodes then [nodes[keys[0]]] + ValuesOf(keys[1..], nodes)
    else ValuesOf(keys[1..], nodes)
  }

  lemma {:induction false} ValuesOfCovers(keys: seq<String>, nodes: map<String, MappingNode>, i: nat)
    requires i < |keys| && keys[i] in nodes
    ensures nodes[keys[i]] in ValuesOf(keys, nodes)
    decreases i
  {
    if i > 0 {
      ValuesOfCovers(keys[1..], nodes, i - 1);
    }
  }

  /** The walk up the tree stops at a missing or empty id or at an id the mapping lacks. */
  predicate Stops(nodes: map<String, MappingNode>, id: Option<String>) {
    id.None? || id.value == [] || id.value !in nodes
  }

  /** The parent chain from `id` stops within `fuel` steps. */
  predicate ChainEnds(nodes: map<String, MappingNode>, id: Option<String>, fuel: nat)
    decreases fuel
  {
    Stops(nodes, id) || (fuel > 0 && ChainEnds(nodes, nodes[id.value].parent, fuel - 1))
  }

  /** The ids on the parent chain from `id`, nearest first, for at most `fuel` steps. */
  function Ancestry(nodes: map<String, MappingNode>, id: Option<String>, fuel: nat): (r: seq<String>)
    ensures forall k :: 0 <= k < |r| ==> r[k] in nodes
    decreases fuel
  {
    if Stops(nodes, id) || fuel == 0 then []
    else [id.value] + Ancestry(nodes, nodes[id.value].parent, fuel - 1)
  }

  function NodesOf(nodes: map<String, MappingNode>, ids: seq<String>): (r: seq<MappingNode>)
    requires forall k :: 0 <= k < |ids| ==> ids[k] in nodes
    ensures |r| == |ids| && forall k :: 0 <= k < |ids| ==> r[k] == nodes[ids[k]]
  {
    seq(|ids|, k requires 0 <= k < |ids| => nodes[ids[k]])
  }

  function Reverse<T>(s: seq<T>): (r: seq<T>)
    ensures |r| == |s| && forall k :: 0 <= k < |s| ==> r[k] == s[|s| - 1 - k]
  {
    seq(|s|, k requires 0 <= k < |s| => s[|s| - 1 - k])
  }

  /** The walk from the current node terminates: the parent chain has no
      cycle, so it leaves the mapping within as many steps as there are nodes. */
  predicate PathTerminates(c: ChatGptConversation) {
    ChainEnds(NodeMap(c.mapping), c.currentNode, |NodeMap(c.mapping)|)
  }

  /** The nodes `selectPathNodes` returns: the branch from the root down to
      the current node, or every node when there is no usable current node.
      The walk is cut off after as many steps as there are nodes, which only
      matters for a cyclic mapping, on which `selectPathNodes` never returns. */
  function ActivePath(c: ChatGptConversation): seq<MappingNode>
  {
    var nodes := NodeMap(c.mapping);
    if Stops(nodes, c.currentNode) then Values(c.mapping)
    else Reverse(NodesOf(nodes, Ancestry(nodes, c.currentNode, |nodes|)))
  }

  method SelectPathNodes(c: ChatGptConversation) returns (r: seq<MappingNode>)
    requires PathTerminates(c)
    ensures r == ActivePath(c)
  {
    var nodes := NodeMap(c.mapping);
    if Stops(nodes, c.currentNode) {
      return Values(c.mapping);
    }
    var ordered: seq<MappingNode> := [];
    var nodeId := c.currentNode;
    ghost var fuel: nat := |nodes|;
    ghost var visited: seq<String> := [];
    while nodeId.Some? && nodeId.value != []
      invariant ChainEnds(nodes, nodeId, fuel)
      invariant forall k :: 0 <= k < |visited| ==> visited[k] in nodes
      invariant ordered == NodesOf(nodes, visited)
      invariant visited + Ancestry(nodes, nodeId, fuel) == Ancestry(nodes, c.currentNode, |nodes|)
      decreases fuel
    {
      if nodeId.value !in nodes {
        break;
      }
      ordered := ordered + [nodes[nodeId.value]];
      visited := visited + [nodeId.value];
      nodeId := nodes[nodeId.value].parent;
      fuel := fuel - 1;
    }
    assert Ancestry(nodes, nodeId, fuel) == [];
    assert visited == Ancestry(nodes, c.currentNode, |nodes|);
    r := Reverse(ordered);
  }

  /** The ancestry is a chain of parent links that ends where the walk stops. */
  lemma {:induction false} AncestryIsChain(nodes: map<String, MappingNode>, id: Option<String>, fuel: nat)
    requires ChainEnds(nodes, id, fuel) && !Stops(nodes, id)
    ensures var a := Ancestry(nodes, id, fuel);
      && |a| > 0 && a[0] == id.value
      && (forall k :: 0 <= k < |a| - 1 ==> nodes[a[k]].parent == Some(a[k + 1]))
      && Stops(nodes, nodes[a[|a| - 1]].parent)
    decreases fuel
  {
    var parent := nodes[id.value].parent;
    if !Stops(nodes, parent) {
      AncestryIsChain(nodes, parent, fuel - 1);
    }
  }

  /** With a usable current node, the selected nodes are exactly the branch
      from a root (a node whose parent is missing) down to the current node,
      each node the parent of the next. */
  lemma ActivePathIsBranch(c: ChatGptConversation)
    requires PathTerminates(c) && !Stops(NodeMap(c.mapping), c.currentNode)
    ensures var nodes := NodeMap(c.mapping);
      var ids := Reverse(Ancestry(nodes, c.currentNode, |nodes|));
      && |ids| > 0
      && ids[|ids| - 1] == c.currentNode.value
      && (forall k :: 0 <= k < |ids| ==> ids[k] in nodes)
      && ActivePath(c) == NodesOf(nodes, ids)
      && (forall k :: 0 < k < |ids| ==> nodes[ids[k]].parent == Some(ids[k - 1]))
      && Stops(nodes, nodes[ids[0]].parent)
  {
    var nodes := NodeMap(c.mapping);
    var a := Ancestry(nodes, c.currentNode, |nodes|);
    AncestryIsChain(nodes, c.currentNode, |nodes|);
    var ids := Reverse(a);
    forall k | 0 < k < |ids|
      ensures nodes[ids[k]].parent == Some(ids[k - 1])
    {
      assert ids[k] == a[|a| - 1 - k] && ids[k - 1] == a[|a| - 1 - k + 1];
    }
  }

  /** Without a usable current node every entry of the mapping is selected. */
  lemma ActivePathFallbackCoversMapping(c: ChatGptConversation, i: nat)
    requires Stops(NodeMap(c.mapping), c.currentNode)
    requires c.mapping.Some? && i < |c.mapping.value.keys| && c.mapping.value.keys[i] in c.mapping.value.nodes
    ensures c.mapping.value.nodes[c.mapping.value.keys[i]] in ActivePath(c)
  {
    ValuesOfCovers(c.mapping.value.keys, c.mapping.value.nodes, i);
  }

  // ---------------------------------------------------------------------
  // Conversations

  /** `id ?? conversation_id`: an empty `id` is not replaced. */
  function IdOf(c: ChatGptConversation): Option<String> {
    if c.id.Some? then c.id else c.conversationId
  }

  predicate HasId(c: ChatGptConversation) {
    IdOf(c).Some? && IdOf(c).value != []
  }

  /** The import key `chatgpt:<id>`. */
  function KeyOf(id: String): String {
    Source + ":" + id
  }

  lemma KeyOfInjective(a: String, b: String)
    requires KeyOf(a) == KeyOf(b)
    ensures a == b
  {
    assert a == KeyOf(a)[|Source| + 1..];
    assert b == KeyOf(b)[|Source| + 1..];
  }

  function Resolver(options: ParseOptions): ChatGptAttachment -> Option<String> {
    options.resolveAttachmentPath.GetOr(_ => None)
  }

  function ConversationMessages(c: ChatGptConversation, options: ParseOptions, builtins: Builtins): seq<Message>
  {
    BranchMessages(ActivePath(c), Resolver(options), options.includeSystemMessages.GetOr(false),
                   options.includeHiddenMessages.GetOr(false), builtins)
  }

  /** The record of a conversation with an id: its import key is the source
      and the id, its title is never empty, and every message it carries has
      an id and text or attachments. */
  function RecordOf(c: ChatGptConversation, options: ParseOptions, builtins: Builtins): (r: ConversationRecord)
    requires HasId(c)
    ensures r.source == Source && r.conversationId != [] && r.importKey == KeyOf(r.conversationId)
    ensures r.title != []
    ensures forall k :: 0 <= k < |r.messages| ==>
      HasSubstance(r.messages[k]) && MessageOk(r.messages[k], options.includeSystemMessages.GetOr(false))
  {
    ConversationRecord(Source, IdOf(c).value, KeyOf(IdOf(c).value), Title(c.title),
                       ToIsoDate(c.createTime, builtins), ToIsoDate(c.updateTime, builtins),
                       ConversationMessages(c, options, builtins))
  }

  /** The import keys of the conversations before index `i` that have an id. */
  function SeenKeys(cs: seq<ChatGptConversation>, i: nat): set<String>
    requires i <= |cs|
  {
    set j | 0 <= j < i && HasId(cs[j]) :: KeyOf(IdOf(cs[j]).value)
  }

  /** Conversation `i` becomes a record: it has an id, no earlier conversation
      had its import key (whether or not that one became a record), and its
      branch has messages worth importing. */
  predicate Kept(cs: seq<ChatGptConversation>, i: nat, options: ParseOptions, builtins: Builtins)
    requires i < |cs|
  {
    && HasId(cs[i])
    && KeyOf(IdOf(cs[i]).value) !in SeenKeys(cs, i)
    && ConversationMessages(cs[i], options, builtins) != []
  }

  /** Two kept conversations never share an import key. */
  lemma KeptKeysDistinct(cs: seq<ChatGptConversation>, i: nat, j: nat, options: ParseOptions, builtins: Builtins)
    requires i < j < |cs|
    requires Kept(cs, i, options, builtins) && Kept(cs, j, options, builtins)
    ensures KeyOf(IdOf(cs[i]).value) != KeyOf(IdOf(cs[j]).value)
  {
    assert KeyOf(IdOf(cs[i]).value) in SeenKeys(cs, j);
  }

  lemma SeenKeysStep(cs: seq<ChatGptConversation>, i: nat)
    requires i < |cs|
    ensures HasId(cs[i]) ==> SeenKeys(cs, i + 1) == SeenKeys(cs, i) + {KeyOf(IdOf(cs[i]).value)}
    ensures !HasId(cs[i]) ==> SeenKeys(cs, i + 1) == SeenKeys(cs, i)
  {
  }

  /** One iteration of the parsing loop: the record of conversation `i`, if
      it is kept, and the import keys seen once it has been looked at. */
  method ParseOne(conversations: seq<ChatGptConversation>, i: nat, seen: set<String>,
                  options: ParseOptions, builtins: Builtins)
    returns (record: Option<ConversationRecord>, seenAfter: set<String>)
    requires i < |conversations| && PathTerminates(conversations[i])
    requires seen == SeenKeys(conversations, i)
    ensures seenAfter == SeenKeys(conversations, i + 1)
    ensures record.Some? <==> Kept(conversations, i, options, builtins)
    ensures record.Some? ==> record.value == RecordOf(conversations[i], options, builtins)
  {
    var c := conversations[i];
    SeenKeysStep(conversations, i);
    seenAfter := seen;
    record := None;
    var conversationId := if c.id.Some? then c.id else c.conversationId;
    if conversationId.None? || conversationId.value == [] {
      return;
    }
    var importKey := Source + ":" + conversationId.value;
    if importKey in seen {
      return;
    }
    seenAfter := seen + {importKey};
    var path := SelectPathNodes(c);
    var messages := BranchMessages(path, options.resolveAttachmentPath.GetOr(_ => None),
                                   options.includeSystemMessages.GetOr(false),
                                   options.includeHiddenMessages.GetOr(false), builtins);
    if |messages| == 0 {
      return;
    }
    record := Some(ConversationRecord(Source, conversationId.value, importKey, Title(c.title),
                                      ToIsoDate(c.createTime, builtins), ToIsoDate(c.updateTime, builtins),
                                      messages));
  }

  /** What conversation `j` becomes: its record when it is kept, nothing
      otherwise. */
  ghost function Outcome(cs: seq<ChatGptConversation>, options: ParseOptions, builtins: Builtins): nat -> Option<ConversationRecord> {
    (j: nat) => if j < |cs| && Kept(cs, j, options, builtins) then Some(RecordOf(cs[j], options, builtins)) else None
  }

  /** After the first `i` conversations: `output` holds the records of the
      kept ones among them, in order, and `from` their indices. */
  ghost predicate ParsedUpTo(cs: seq<ChatGptConversation>, i: nat, output: seq<ConversationRecord>, from: seq<nat>,
                             options: ParseOptions, builtins: Builtins)
    requires i <= |cs|
  {
    Selected(i, output, from, Outcome(cs, options, builtins))
  }

  lemma ParsedUpToStep(cs: seq<ChatGptConversation>, i: nat, output: seq<ConversationRecord>, from: seq<nat>,
                       record: Option<ConversationRecord>, options: ParseOptions, builtins: Builtins)
    requires i < |cs| && ParsedUpTo(cs, i, output, from, options, builtins)
    requires record.Some? <==> Kept(cs, i, options, builtins)
    requires record.Some? ==> record.value == RecordOf(cs[i], options, builtins)
    ensures record.None? ==> ParsedUpTo(cs, i + 1, output, from, options, builtins)
    ensures record.Some? ==> ParsedUpTo(cs, i + 1, output + [record.value], from + [i], options, builtins)
  {
    var outcome := Outcome(cs, options, builtins);
    assert outcome(i) == record;
    SelectedStep(i, output, from, outcome);
  }

  /** No two parsed records share an import key. */
  lemma ParsedKeysDistinct(cs: seq<ChatGptConversation>, output: seq<ConversationRecord>, from: seq<nat>,
                           options: ParseOptions, builtins: Builtins)
    requires ParsedUpTo(cs, |cs|, output, from, options, builtins)
    ensures forall k, l :: 0 <= k < l < |output| ==> output[k].importKey != output[l].importKey
  {
    forall k, l | 0 <= k < l < |output|
      ensures output[k].importKey != output[l].importKey
    {
      var outcome := Outcome(cs, options, builtins);
      assert outcome(from[k]) == Some(output[k]) && outcome(from[l]) == Some(output[l]);
      KeptKeysDistinct(cs, from[k], from[l], options, builtins);
    }
  }

  /** `parseChatGptConversations`: the records of exactly the kept
      conversations, in input order, each built from its conversation; no two
      share an import key. */
  method ParseChatGptConversations(conversations: seq<ChatGptConversation>, options: ParseOptions, builtins: Builtins)
    returns (output: seq<ConversationRecord>, ghost from: seq<nat>)
    requires forall i :: 0 <= i < |conversations| ==> PathTerminates(conversations[i])
    ensures ParsedUpTo(conversations, |conversations|, output, from, options, builtins)
    ensures forall k, l :: 0 <= k < l < |output| ==> output[k].importKey != output[l].importKey
  {
    var seen: set<String> := {};
    output := [];
    from := [];
    for i: nat := 0 to |conversations|
      invariant seen == SeenKeys(conversations, i)
      invariant ParsedUpTo(conversations, i, output, from, options, builtins)
    {
      var record;
      record, seen := ParseOne(conversations, i, seen, options, builtins);
      ParsedUpToStep(conversations, i, output, from, record, options, builtins);
      if record.Some? {
        output := output + [record.value];
        from := from + [i];
      }
    }
    ParsedKeysDistinct(conversations, output, from, options, builtins);
  }
}
