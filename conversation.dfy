/** The canonical conversation records every parser produces and the
    importers consume (packages/core/src/types.ts). Optional fields are
    `Option`s; a role is kept as the string the parser produced, since the
    ChatGPT parser passes the export's role through unchecked. Timestamps are
    the ISO strings the parsers computed. The free-form `metadata` fields are
    not part of this model. */
module Conversation {
  import opened Wrappers

  type String = seq<char>

  datatype Attachment = Attachment(
    id: String,
    name: Option<String>,
    mimeType: Option<String>,
    sourcePath: Option<String>,
    vaultPath: Option<String>,
    obsidianLink: Option<String>,
    sizeBytes: Option<int>)

  datatype Message = Message(
    id: String,
    role: String,
    createdAt: Option<String>,
    content: String,
    contentType: Option<String>,
    attachments: seq<Attachment>)

  datatype ConversationRecord = ConversationRecord(
    source: String,
    conversationId: String,
    importKey: String,
    title: String,
    createdAt: Option<String>,
    updatedAt: Option<String>,
    messages: seq<Message>)
}
