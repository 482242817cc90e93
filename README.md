# AI chat history importer for Obsidian, in Dafny

This project models the core of `obsidian-ai-history-importer`. The importer turns chat exports from ChatGPT and Claude into Markdown notes in an Obsidian vault. It does so in four stages:

- **Format parsers** turn an export's JSON into canonical conversation records.
  - The ChatGPT parser follows the active branch of the message tree.
  - The Claude parser merges thinking and text blocks with separators.
- **Naming utilities** turn titles and attachment names into safe file names.
- **A renderer** normalises the rendered note.
- **A reconciler** writes the notes and copies the attachments into a note store.
  - It finds existing notes by path or by the `ai_conversation_id` front-matter line.
  - It picks collision-free `-2`, `-3`, … paths.

There are two front ends:

- The core/ChatGPT importer works against the abstract `ExportSource` / `ImportTarget` interfaces.
- The Obsidian plugin works against the vault and the file system, and skips conversations it has already imported by means of a persisted state map.

Modules follow the source files:

| module | source file |
|---|---|
| `PathUtils` | core `path-utils.ts` |
| `PluginPathUtils` | plugin `path-utils.ts` |
| `Template` | `template.ts`, the post-processing and `roleTitle` |
| `FrontMatter` | `extractConversationId`, and how it reads back the default template |
| `ChatGptParser`, `ClaudeParser` | the two parsers; shared pieces are in `ParserCommon` |
| `ChatGptImport` | the attachment index, the resolver and `importChatGptExport` |
| `CoreImporter` | the reconciler |
| `PluginImporter` | the plugin importer |

Support modules:

- `Wrappers`: `Option`, `Result`.
- `Strings`: trimming, splitting, searching, decimal numbers.
- `VaultPath`: the `join` / `dirname` / `normalize` of the path API.
- `NoteStore`: the stores.
- `Conversation`: the canonical record types.

Pure code is written as functions and lemmas. Code that loops or changes state is written as methods. Each such method is proved against a specification function or a predicate on the new state. The stateful parts are:

- The vault store is a class, `NoteStore.ImportTarget`.
- The plugin's persisted state is a class, `PluginImporter.ImportState`.
- The memoising resolver is a class, `ChatGptImport.AttachmentResolver`.
- Parsing loops, the directory walk, the suffix searches and the import loops are methods with loop invariants.

`isImageMimeType` is the predicate `PathUtils.IsImageMimeType`. It holds exactly when a MIME type is given and starts with `image/`. The plugin uses the same predicate.

## Model

| member | source | states |
|---|---|---|
| PathUtils.StripControlChars | packages/core/src/path-utils.ts:3-5 | every character with code at most 0x1F becomes a space; every other character is kept in place |
| PathUtils.ReplaceReserved | packages/core/src/path-utils.ts:1 | each reserved character (angle brackets, colon, double quote, both slashes, pipe, question mark, asterisk) becomes a space; every other character is kept in place |
| PathUtils.CollapseSpaces | packages/core/src/path-utils.ts:16 | the non-whitespace characters of the input are kept, in order, and nothing else but single spaces is left: no two whitespace characters are adjacent and every whitespace character is a space. The result is empty only for empty input and starts with whitespace exactly when the input does; `CollapseSpacesOfRun` and `CollapseOfClean` fix its value on every input |
| PathUtils.CollapseSpacesOfRun | packages/core/src/path-utils.ts:16 | any two non-empty whitespace runs collapse alike wherever they stand, so a run of one whitespace character or of several becomes exactly one space |
| PathUtils.SanitizeFileName | packages/core/src/path-utils.ts:15-18 | the sanitised name is never empty. It holds no reserved or control character and no whitespace run, and it does not start or end with whitespace |
| PathUtils.CleanedIsClean | packages/core/src/path-utils.ts:16 | the cleaning pipeline (strip controls, replace reserved, collapse, trim) always yields a clean string |
| PathUtils.TrimKeepsShape | packages/core/src/path-utils.ts:16 | trimming a string free of reserved characters, control characters and whitespace runs keeps it so and removes its edge whitespace |
| PathUtils.SanitizeFallsBackIffJunk | packages/core/src/path-utils.ts:15-18 | cleaning gives "" exactly when every input character is whitespace, reserved or a control character |
| PathUtils.SanitizeJunkIsUntitled | packages/core/src/path-utils.ts:15-18 | blank input, or input made only of reserved and control characters, is named "untitled" |
| PathUtils.CollapseKeepsNonSpace | packages/core/src/path-utils.ts:16 | a non-whitespace character of the input survives the collapsing of whitespace runs |
| PathUtils.CollapseOfClean | packages/core/src/path-utils.ts:16 | collapsing leaves a string alone when its whitespace is already single spaces |
| PathUtils.SanitizeOfClean | packages/core/src/path-utils.ts:15-18 | a non-empty clean name is its own sanitised form |
| PathUtils.SanitizeIdempotent | packages/core/src/path-utils.ts:15-18 | sanitising twice is sanitising once |
| PathUtils.LastSegment | packages/core/src/path-utils.ts:8-9 | the result is the suffix after the last `/` or `\`, and holds no separator |
| PathUtils.SegmentExtname | packages/core/src/path-utils.ts:10-12 | "" exactly when the segment has no dot after its first character; otherwise the suffix from the last dot |
| PathUtils.ExtnameIsSuffix | packages/core/src/path-utils.ts:7-13 | the extension of a path is a suffix of the path |
| PathUtils.Prefix | packages/core/src/path-utils.ts:21-22 | `slice(0, n)`: a prefix of the string, of length n or the whole string when it is shorter |
| PathUtils.TitlePart | packages/core/src/path-utils.ts:21 | the first at most 80 characters of the sanitised title: never empty, starting with a non-space, with no reserved or control character |
| PathUtils.BuildConversationFileName | packages/core/src/path-utils.ts:20-23 | the name is the title part, `-`, at most 8 characters of the id, and `.md`, each at its position |
| PathUtils.ConversationFileNameOfCleanTitle | packages/core/src/path-utils.ts:20-23 | a clean title of at most 80 characters is kept verbatim, followed by `-`, the first 8 characters of the id, and `.md` |
| PathUtils.BuildAttachmentFileName | packages/core/src/path-utils.ts:25-35 | the sanitised name (or the id) is kept when it has an extension; otherwise the source path's extension is appended |
| PathUtils.AttachmentNameExtension | packages/core/src/path-utils.ts:25-35 | the built name's extension is the base's own when it has one, and otherwise the source file's |
| PathUtils.ExtnameOfAppended | packages/core/src/path-utils.ts:30-34 | appending an extension to a dot-free base gives a name whose extension is exactly that one |
| PluginPathUtils.NodeExtname | packages/plugin/src/path-utils.ts:1 | Node's POSIX `extname`: "" exactly when the base name has no dot after its first character or is `..`; otherwise the base's suffix from its last dot |
| PluginPathUtils.StripTrailingSlashes | packages/plugin/src/path-utils.ts:1 | the longest prefix that does not end in `/`; only slashes are removed |
| PluginPathUtils.AfterLastSlash | packages/plugin/src/path-utils.ts:1 | the suffix after the last `/`, which holds no `/` |
| PluginPathUtils.NodeExtnameAgrees | packages/plugin/src/path-utils.ts:22-24 | without backslashes, trailing slashes or a `..` segment, Node's `extname` and the core's `extnameFromPath` agree |
| PluginPathUtils.TrailingSlashExtnames | packages/plugin/src/path-utils.ts:22-24 | where the two differ: "a.txt/" has no extension for the core but ".txt" for Node |
| PluginPathUtils.DotDotExtnames | packages/plugin/src/path-utils.ts:22-24 | where the two differ: ".." has the extension "." for the core and none for Node |
| PluginPathUtils.BuildAttachmentFileName | packages/plugin/src/path-utils.ts:21-27 | the base (sanitised name or id) when Node's `extname` finds an extension in it; otherwise the base and the source path's extension |
| PluginPathUtils.AttachmentNamesAgree | packages/plugin/src/path-utils.ts:21-27 | where the two extension functions agree, the plugin and the core build the same attachment file name |
| Template.RoleTitle | packages/core/src/template.ts:41-54 | user→User, assistant→ChatGPT, system→System, tool→Tool, any other role unchanged |
| Template.RoleTitleInjective | packages/core/src/template.ts:41-54 | two roles that are not heading words get the same heading only when they are equal |
| Template.CollapseNewlines | packages/core/src/template.ts:63 | the result has no three consecutive newlines, is empty only for empty input, and starts with a newline exactly when the input does; `CollapseNewlinesOfRun` and `CollapseNewlinesFixpoint` fix its value on every text |
| Template.CollapseNewlinesOfRun | packages/core/src/template.ts:63 | three newlines collapse like two wherever they stand, so every run of three or more newlines becomes exactly two |
| Template.CollapseNewlinesFixpoint | packages/core/src/template.ts:63 | text without triple newlines is left unchanged |
| Template.CollapseNewlinesKeepsText | packages/core/src/template.ts:63 | collapsing removes only newlines: every other character is kept, in order |
| Template.PostProcess | packages/core/src/template.ts:63 | the normalised note has no triple newline and ends with exactly one newline; the character before it, if any, is not whitespace |
| Template.PostProcessIdempotent | packages/core/src/template.ts:63 | normalising a normalised note changes nothing |
| Template.PostProcessOfCollapsed | packages/core/src/template.ts:63 | on text without triple newlines, post-processing only trims the end and appends the final newline |
| Template.RenderConversationMarkdown | packages/core/src/template.ts:58-64 | whatever the template renders to, the note is in normal form: post-processing it again changes nothing |
| Template.DefaultFrontMatter | packages/core/src/template.ts:4-11 | the default template's front matter opens with a `---` line and closes with `\n---` |
| FrontMatter.StripQuotes | packages/core/src/importer.ts:56 | the result is the slice of the value between one leading quote, when there is one, and then one trailing quote of what is left, when there is one; a value with no quote at either end is kept |
| FrontMatter.StripQuotesOfQuoted | packages/core/src/importer.ts:56 | a value wrapped in `"` loses exactly those two quotes, whatever it holds |
| FrontMatter.AfterFirstColon | packages/core/src/importer.ts:55 | everything after the first colon, later colons included; "" without a colon |
| FrontMatter.FirstKeyed | packages/core/src/importer.ts:52-57 | the line loop finds nothing exactly when no line passes the key test |
| FrontMatter.FirstKeyedAt | packages/core/src/importer.ts:52-57 | the first line that passes the test decides; later lines are never read |
| FrontMatter.IdInLines | packages/core/src/importer.ts:52-57 | no id exactly when no trimmed line starts with `ai_conversation_id:` |
| FrontMatter.IdInLinesFirst | packages/core/src/importer.ts:52-57 | the first id line decides |
| FrontMatter.ExtractConversationId | packages/core/src/importer.ts:47-58 | nothing unless the note starts with `---` and has `\n---` after position 3; otherwise the id read from the lines in between |
| FrontMatter.FrontMatterReadBack | packages/core/src/template.ts:5-11 | a note that starts with the default front matter yields the conversation's id when read back, whatever follows |
| FrontMatter.FrontMatterRoundTrip | packages/core/src/importer.ts:47-58 | the round trip from template to reader: a note rendered from the default template and normalised yields the conversation's id |
| FrontMatter.ReadBlock | packages/core/src/importer.ts:48-51 | a note `---` + block + `\n---` + rest is read from the lines of the block |
| NoteStore.ExportSource.ListDir | packages/core/__tests__/importer.test.ts:41 | the listing of a known directory; an unknown directory has none |
| NoteStore.ExportSource.ReadText | packages/core/__tests__/importer.test.ts:31-35 | the text when present, otherwise the error "Missing text: path" |
| NoteStore.ExportSource.ReadBinary | packages/core/__tests__/importer.test.ts:36-40 | the bytes when present, otherwise the error "Missing binary: path" |
| NoteStore.MarkdownPaths | packages/core/__tests__/importer.test.ts:51-54 | exactly the paths ending in `.md`, and no more of them than there are paths |
| NoteStore.MarkdownPathsAppend | packages/core/__tests__/importer.test.ts:51-54 | listing a concatenation lists each part in turn, so the Markdown paths keep their order |
| NoteStore.MarkdownPathsSingle | packages/core/__tests__/importer.test.ts:51-54 | one path is listed exactly when it ends in `.md` |
| NoteStore.TextAt | packages/core/__tests__/importer.test.ts:55-59 | the text of a text file; a missing or binary file is "Missing text: path" |
| NoteStore.ImportTarget.constructor | packages/core/__tests__/importer.test.ts:46-48 | an empty vault |
| NoteStore.ImportTarget.ListMarkdownFiles | packages/core/__tests__/importer.test.ts:51-54 | exactly the stored paths ending in `.md` |
| NoteStore.ImportTarget.ReadText | packages/core/__tests__/importer.test.ts:55-59 | reading a note is `TextAt` on the stored files |
| NoteStore.ImportTarget.Write | packages/core/__tests__/importer.test.ts:60-65 | the file is stored; a new path goes last in the order and a rewritten one keeps its place |
| NoteStore.ImportTarget.CreateFolder | packages/core/__tests__/importer.test.ts:66-68 | the folder is added; files and order are unchanged |
| VaultPath.CollapseSlashes | packages/core/__tests__/importer.test.ts:12 | no double slash remains; the first and last characters keep their kind; a path without `/` is unchanged; `CollapseSlashesOfRun` and `CollapseSlashesFixpoint` fix its value on every path |
| VaultPath.CollapseSlashesOfRun | packages/core/__tests__/importer.test.ts:12 | two slashes collapse like one wherever they stand, so every run of slashes becomes exactly one slash |
| VaultPath.CollapseSlashesKeepsNonSlashes | packages/core/__tests__/importer.test.ts:12 | collapsing removes slashes only: every other character is kept, in order |
| VaultPath.CollapseSlashesFixpoint | packages/core/__tests__/importer.test.ts:12 | a path without double slashes is unchanged, so collapsing is idempotent |
| VaultPath.Normalize | packages/core/__tests__/importer.test.ts:18 | no double slash and no trailing slash; a path without `/` is unchanged; `NormalizeOfRun` and `NormalizeIdempotent` fix its value on every path |
| VaultPath.NormalizeOfRun | packages/core/__tests__/importer.test.ts:18 | a double slash normalises like a single one wherever it stands |
| VaultPath.NormalizeKeepsNonSlashes | packages/core/__tests__/importer.test.ts:18 | normalising removes slashes only: every other character is kept, in order |
| VaultPath.NormalizeIdempotent | packages/core/__tests__/importer.test.ts:18 | normalising twice is normalising once |
| VaultPath.Join | packages/core/__tests__/importer.test.ts:12 | empty parts are dropped, the rest joined with `/`, and slash runs collapsed |
| VaultPath.Dirname | packages/core/__tests__/importer.test.ts:13-17 | the collapsed path before its last slash, or "" when that slash is missing or first |
| VaultPath.DirnameOfJoin | packages/core/__tests__/importer.test.ts:12-17 | joining a folder and a file name and taking the folder back gives the folder |
| ParserCommon.Title | packages/chatgpt/src/parser.ts:148-149 | the trimmed title, or "Untitled conversation" when it is missing or blank; never empty |
| ParserCommon.SelectedStep | packages/chatgpt/src/parser.ts:119-154 | a dropped input leaves the output as it is; a kept one appends its record and its position |
| ChatGptParser.ExtractMessageText | packages/chatgpt/src/parser.ts:26-48 | no content gives ""; a known content type gives text with no whitespace at either end; any other type is its JSON rendering |
| ChatGptParser.ExtractMessageTextByType | packages/chatgpt/src/parser.ts:26-44 | no content gives "". Text types read the string parts joined by a blank line, code and output read `text`, a reasoning recap reads `content`; the member is trimmed, and its absence gives "" |
| ChatGptParser.TextPartsJoined | packages/chatgpt/src/parser.ts:33-37 | any number of string parts give their join with a blank line between every two, trimmed |
| Strings.JoinAppend | packages/chatgpt/src/parser.ts:36 | `join` puts the separator between every two parts: one more part appends the separator and that part |
| Strings.TrimIsTrimmed | packages/chatgpt/src/parser.ts:37 | `trim` gives the slice of the string with only whitespace before and after it and none at its own ends |
| Strings.TrimUnique | packages/chatgpt/src/parser.ts:37 | that slice is unique, so it defines `trim` |
| ChatGptParser.NonStringPartsIgnored | packages/chatgpt/src/parser.ts:33-37 | parts that are not strings never change the text |
| ChatGptParser.TwoPartsJoined | packages/chatgpt/src/parser.ts:33-37 | two string parts are joined by a blank line and trimmed |
| ChatGptParser.MapAttachment | packages/chatgpt/src/parser.ts:52-64 | id, name, MIME type and size are carried over; the source path is exactly the resolver's answer; no vault path or link yet |
| ChatGptParser.MapAttachments | packages/chatgpt/src/parser.ts:98-100 | only attachments with a non-empty id are kept |
| ChatGptParser.MapAttachmentsKeepsIdentified | packages/chatgpt/src/parser.ts:98-100 | every attachment entry with an id is carried over |
| ChatGptParser.MapAttachmentsAppend | packages/chatgpt/src/parser.ts:98-100 | mapping a concatenation maps each part in turn: the attachments keep the order of their entries |
| ChatGptParser.MapAttachmentsSingle | packages/chatgpt/src/parser.ts:98-100 | one entry gives its mapped attachment when it has an id, and nothing otherwise |
| ChatGptParser.MapMessage | packages/chatgpt/src/parser.ts:84-110 | a node is dropped exactly when its message is missing, has no id, is a system message without the option, is `user_editable_context`, or is hidden without the option. A kept message carries the node's id, role, date, text, content type and mapped attachments |
| ChatGptParser.BranchMessages | packages/chatgpt/src/parser.ts:130-140 | every kept message passes the filters and has text or attachments |
| ChatGptParser.BranchMessagesKeeps | packages/chatgpt/src/parser.ts:130-140 | every mapped message with text or attachments is kept |
| ChatGptParser.BranchMessagesAppend | packages/chatgpt/src/parser.ts:130-140 | the messages of a concatenation of nodes are those of each part in turn: a branch keeps its order |
| ChatGptParser.BranchMessagesSingle | packages/chatgpt/src/parser.ts:130-140 | one node gives its mapped message when that has text or attachments, and nothing otherwise |
| ChatGptParser.Reverse | packages/chatgpt/src/parser.ts:81 | the elements in reverse order, element by element |
| ChatGptParser.SelectPathNodes | packages/chatgpt/src/parser.ts:66-82 | the loop selects exactly the active path |
| ChatGptParser.AncestryIsChain | packages/chatgpt/src/parser.ts:75-80 | the ids walked are a chain of parent links from the current node, ending where the parent is missing |
| ChatGptParser.ActivePathIsBranch | packages/chatgpt/src/parser.ts:73-81 | with a usable current node, the selection is the branch from a root down to the current node, each node the parent of the next |
| ChatGptParser.ActivePathFallbackCoversMapping | packages/chatgpt/src/parser.ts:67-71 | without a usable current node, every mapping entry is selected |
| ChatGptParser.KeyOfInjective | packages/chatgpt/src/parser.ts:126 | distinct ids give distinct import keys |
| ChatGptParser.RecordOf | packages/chatgpt/src/parser.ts:144-153 | the import key is `chatgpt:` + id; the title is never empty; every message passes the filters and has text or attachments |
| ChatGptParser.KeptKeysDistinct | packages/chatgpt/src/parser.ts:119-128 | two kept conversations never share an import key |
| ChatGptParser.ParseOne | packages/chatgpt/src/parser.ts:122-153 | a conversation is kept exactly when it has an id, its key is unseen and it has messages; its record is `RecordOf` |
| ChatGptParser.ParsedUpToStep | packages/chatgpt/src/parser.ts:122-154 | one iteration keeps the loop invariant |
| ChatGptParser.ParsedKeysDistinct | packages/chatgpt/src/parser.ts:119-128 | no two parsed records share an import key |
| ChatGptParser.ParseChatGptConversations | packages/chatgpt/src/parser.ts:112-157 | the records of exactly the kept conversations, in input order; keys pairwise distinct |
| ClaudeParser.NormalizeContentText | packages/claude/src/parser.ts:19-22 | a string is trimmed and is "" exactly when blank; anything else gives "" |
| ClaudeParser.KindOf | packages/claude/src/parser.ts:33-39 | `thinking` is thinking; a missing, empty or `text` type is text; anything else is other |
| ClaudeParser.Contribution | packages/claude/src/parser.ts:41-55 | a contributed chunk has its block's kind and non-blank text; with thinking excluded a thinking block contributes nothing |
| ClaudeParser.ContributionCases | packages/claude/src/parser.ts:41-55 | a thinking block contributes its trimmed `thinking` when that is not blank; other blocks contribute nothing exactly when `text` is blank |
| ClaudeParser.Chunks | packages/claude/src/parser.ts:32-61 | every chunk has non-blank text; with thinking excluded none is thinking |
| ClaudeParser.InterleaveKeepsChunks | packages/claude/src/parser.ts:44-61 | separators are only added: no chunk is dropped or reordered |
| ClaudeParser.SeparatorsBetweenSwitches | packages/claude/src/parser.ts:44-61 | a separator is never first or last, and always sits between a thinking chunk and a text chunk |
| ClaudeParser.ExcludeThinkingHasNoSeparator | packages/claude/src/parser.ts:41-42 | with thinking excluded there is never a separator |
| ClaudeParser.MessageText | packages/claude/src/parser.ts:24-72 | the message text is trimmed |
| ClaudeParser.MessageTextFallback | packages/claude/src/parser.ts:63-71 | with no parts, the trimmed `text` when it is not blank, otherwise "" |
| ClaudeParser.ContributingBlockGivesText | packages/claude/src/parser.ts:24-72 | a block that contributes a chunk always yields non-empty text |
| ClaudeParser.LastKind | packages/claude/src/parser.ts:30 | `lastKind` is never "other": an other block resets it |
| ClaudeParser.PartsSnoc | packages/claude/src/parser.ts:46-60 | appending a chunk appends a separator first exactly when the last kept kind switches |
| ClaudeParser.AppendBlock | packages/claude/src/parser.ts:32-61 | one pass of the loop appends the block's contribution, with the separator it needs |
| ClaudeParser.AppendThinking | packages/claude/src/parser.ts:41-52 | the pass for a thinking block |
| ClaudeParser.AppendText | packages/claude/src/parser.ts:54-60 | the pass for a text or other block |
| ClaudeParser.CollectParts | packages/claude/src/parser.ts:28-61 | the loop's parts are the chunks, interleaved with separators, rendered |
| ClaudeParser.ExtractMessageText | packages/claude/src/parser.ts:24-72 | the method computes `MessageText` |
| ClaudeParser.MapRole | packages/claude/src/parser.ts:74-85 | human→user, assistant→assistant, system→system, anything else (or nothing)→unknown |
| ClaudeParser.MapMessage | packages/claude/src/parser.ts:87-104 | dropped exactly without a uuid, or as a system message without the option; otherwise the uuid, role, text, and no attachments |
| ClaudeParser.WithText | packages/claude/src/parser.ts:124-125 | only present messages with text are kept |
| ClaudeParser.WithTextKeeps | packages/claude/src/parser.ts:124-125 | every present message with text is kept |
| ClaudeParser.KeptMessages | packages/claude/src/parser.ts:122-125 | every kept message has an id, text and no attachments, and passes the system filter |
| ClaudeParser.KeptMessagesKeeps | packages/claude/src/parser.ts:122-125 | every message that maps to non-empty text is kept |
| ClaudeParser.RecordOf | packages/claude/src/parser.ts:129-138 | the import key is `claude:` + uuid; the title is never empty; every message passes the filters |
| ClaudeParser.KeptKeysDistinct | packages/claude/src/parser.ts:115-120 | two kept conversations never share an import key |
| ClaudeParser.ParseOne | packages/claude/src/parser.ts:114-138 | a conversation is kept exactly when it has a uuid, its key is unseen and it has messages |
| ClaudeParser.ParsedUpToStep | packages/claude/src/parser.ts:114-139 | one iteration keeps the loop invariant |
| ClaudeParser.ParsedKeysDistinct | packages/claude/src/parser.ts:115-120 | no two parsed records share an import key |
| ClaudeParser.ParseClaudeConversations | packages/claude/src/parser.ts:106-142 | the records of exactly the kept conversations, in input order; keys pairwise distinct |
| ChatGptImport.WalkListing | packages/chatgpt/src/importer.ts:54-63 | the pass over one listing appends its indexed files and pushes its subdirectories, in listing order |
| ChatGptImport.PopBeyond | packages/chatgpt/src/importer.ts:51 | popping a directory deeper than the bound adds nothing and shrinks the remaining work |
| ChatGptImport.PopStep | packages/chatgpt/src/importer.ts:48-63 | popping and walking a directory keeps the invariant and shrinks the remaining work |
| ChatGptImport.BuildAttachmentIndex | packages/chatgpt/src/importer.ts:39-67 | the stack walk from the export directory at depth 0 indexes exactly the depth-bounded reference `Index` |
| ChatGptImport.IndexAdmissible | packages/chatgpt/src/importer.ts:55-62 | no indexed entry is named `node_modules` or ends in `:Zone.Identifier` |
| ChatGptImport.ZeroDepthIndexesRootOnly | packages/chatgpt/src/importer.ts:45-53 | with depth 0 only the export directory itself is indexed |
| ChatGptImport.FirstMatchIsFirst | packages/chatgpt/src/importer.ts:75-88 | no match exactly when no entry carries the id; otherwise the path of the first that does |
| ChatGptImport.MatchesIdBoundary | packages/chatgpt/src/importer.ts:76-80 | `file-aaa` matches `file-aaa-photo.jpg` and `file-aaa.png` but not `file-aaab.jpg` |
| ChatGptImport.AttachmentResolver.constructor | packages/chatgpt/src/importer.ts:69-70 | a resolver over the index with an empty memo |
| ChatGptImport.AttachmentResolver.Resolve | packages/chatgpt/src/importer.ts:71-89 | the answer is that of an uncached scan, whether memoised or not, and it is memoised |
| ChatGptImport.ResolveTwice | packages/chatgpt/src/importer.ts:72-73 | memoisation is transparent: two calls for the same id agree with the scan, whatever is resolved in between |
| ChatGptImport.ReadConversationsFile | packages/chatgpt/src/importer.ts:25-37 | a missing file, malformed JSON and a non-array are errors; otherwise the array |
| ChatGptImport.ScanDepth | packages/chatgpt/src/importer.ts:106 | the given scan depth, 6 when none is given |
| ChatGptImport.ImportChatGptExport | packages/chatgpt/src/importer.ts:92-121 | a blank export directory, or an unreadable or non-array `conversations.json`, is an error and writes nothing. Otherwise: the index is the bounded walk, the records are the parse with the resolver, and every record is counted once |
| CoreImporter.DropLeadingSlashes | packages/core/src/importer.ts:26 | the result is a suffix that does not start with `/`, and only slashes were dropped |
| CoreImporter.ChainOf | packages/core/src/importer.ts:37-40 | folder k of the chain is the first k+1 segments joined with `/` |
| CoreImporter.AfterChainAdds | packages/core/src/importer.ts:39-44 | visiting the chain adds exactly its folders that are not files |
| CoreImporter.CreateChain | packages/core/src/importer.ts:37-44 | afterwards every folder of the chain exists; exactly those that were not files are added; no file changes |
| CoreImporter.CreateFolderChain | packages/core/src/importer.ts:35-44 | the same for a normalised path, and nothing for "" |
| CoreImporter.EnsureVaultFolder | packages/core/src/importer.ts:29-45 | every `/`-prefix of the normalised path exists afterwards; only missing ones are created; no file changes |
| CoreImporter.Suffixed | packages/core/src/importer.ts:98 | a candidate starts with the base and `-` and ends with the extension |
| CoreImporter.SuffixedInjective | packages/core/src/importer.ts:98 | distinct numbers give distinct candidates |
| CoreImporter.FirstFreeSuffix | packages/core/src/importer.ts:96-101 | the candidate for the smallest `n >= 2` that does not exist; the loop ends because the store is finite |
| CoreImporter.StripMdExtension | packages/core/src/importer.ts:95 | a trailing `.md` is removed, anything else kept |
| CoreImporter.EnsureUniqueVaultPath | packages/core/src/importer.ts:89-102 | the initial path when it is free; otherwise `base-n.md` for the smallest free `n >= 2`; the result never exists |
| CoreImporter.SplitAtLastDot | packages/core/src/importer.ts:109-112 | the two parts rebuild the path; the second is "" exactly without a dot, else it starts at the last dot |
| CoreImporter.EnsureUniqueFilePath | packages/core/src/importer.ts:104-120 | the initial path when free; otherwise `-n` inserted at the last dot of the whole path for the smallest free `n >= 2`; the result never exists |
| CoreImporter.UniqueFilePathLeavesFolder | packages/core/src/importer.ts:109-116 | as written, the second candidate for "a.b/c" is "a-2.b/c", outside the folder "a.b" |
| CoreImporter.SplitFileExtension | packages/core/src/importer.ts:109-112 | the intended split: the parts rebuild the path, and the extension holds no `/` |
| CoreImporter.SuffixStaysInFolder | packages/core/src/importer.ts:109-116 | with the intended split every candidate stays in the initial path's folder |
| CoreImporter.EnsureUniqueFileInFolder | packages/core/src/importer.ts:104-120 | `ensureUniqueFilePath` with the intended split: as above, with the suffix placed before the file name's extension |
| CoreImporter.Preferred | packages/core/src/importer.ts:71-79 | exactly the listed notes inside the notes folder |
| CoreImporter.Fallback | packages/core/src/importer.ts:71-79 | exactly the listed notes outside the notes folder |
| CoreImporter.CandidatesArePermutation | packages/core/src/importer.ts:71-81 | every listed note is a candidate exactly once |
| CoreImporter.PreferredFirst | packages/core/src/importer.ts:81 | candidates inside the notes folder come before all others |
| CoreImporter.PartitionCandidates | packages/core/src/importer.ts:68-81 | the loop builds the preferred notes followed by the fallback ones |
| CoreImporter.FirstCarrying | packages/core/src/importer.ts:82-86 | a found note carries the id; none found means every candidate was readable without it; an error means some candidate was unreadable |
| CoreImporter.FirstCarryingIsFirst | packages/core/src/importer.ts:82-86 | every candidate before the found note is readable and does not carry the id |
| CoreImporter.SearchCandidates | packages/core/src/importer.ts:82-86 | the loop's answer is `FirstWithId` over the candidates |
| CoreImporter.FindExistingNoteByConversationId | packages/core/src/importer.ts:60-87 | the first note, in candidate order, whose front matter carries the id |
| CoreImporter.SearchById | packages/core/src/importer.ts:60-87 | a found note is a Markdown file carrying the id; an error is the failed read of a listed Markdown note |
| CoreImporter.UpsertNote | packages/core/src/importer.ts:205-245 | an existing requested path (a file, or a folder after the notes folder is made) is skipped when overwriting is off and rewritten when on. Otherwise the search by id decides: its error is the result; a found note is skipped or rewritten the same way; with none found the note is written at the requested path. A skip and an error write nothing; otherwise exactly the returned path is written |
| CoreImporter.LinkNamesVaultPath | packages/core/src/importer.ts:197-200 | the link is `![[p]]` for image MIME types and `[[p]]` otherwise, with `p` the recorded path |
| CoreImporter.CopyAttachment | packages/core/src/importer.ts:154-194 | the bytes go to the initial path when it is free or overwriting is on. Otherwise they go to the `ensureUniqueFilePath` candidate (suffix at the last dot of the whole path) for the smallest `n >= 2` that is free. Only a missing source fails, with "Missing binary: path", before any change |
| CoreImporter.CopyAndRecord | packages/core/src/importer.ts:154-194 | the copy is recorded under the attachment's id; without overwriting no existing file changes |
| CoreImporter.MergeMessageAttachments | packages/core/src/importer.ts:151-201 | attachments without a source are untouched; each id is copied at most once; each gets the recorded path and its link. A failure is the missing source file of one of the attachments, and with every source present there is none |
| CoreImporter.MergeMessages | packages/core/src/importer.ts:149-202 | the same over all messages, with one copy map per conversation; a failure names the missing source of some message's attachment |
| CoreImporter.MergeConversationAttachments | packages/core/src/importer.ts:135-203 | only the messages change. Every copy is in the vault. Without overwriting no existing file changes. It fails exactly by naming a missing source file, and never when every source is present |
| CoreImporter.LoadTemplate | packages/core/src/importer.ts:126-133 | the default template without a custom path; otherwise the text at the trimmed path, or "Missing text" |
| CoreImporter.ImportOne | packages/core/src/importer.ts:260-274 | a written note is the normalised rendering of the conversation with its attachments merged; without overwriting no existing file changes. A failure is a missing source file or an unreadable Markdown note; with every source present only the latter |
| CoreImporter.ImportAll | packages/core/src/importer.ts:255-282 | imported + skipped + errors equals the number of records; each error is `id: message`, in record order; without overwriting no existing file changes |
| CoreImporter.ImportConversationRecords | packages/core/src/importer.ts:247-283 | a template that cannot be read fails before any change; otherwise the loop's counts and guarantees hold |
| PluginImporter.ImportState.constructor | packages/plugin/src/importer.ts:15-17 | the state holds the given map |
| PluginImporter.NormalizePath | packages/plugin/src/importer.ts:74 | Obsidian's `normalizePath` on `/` paths: "/" or a path with no leading, trailing or double slash |
| PluginImporter.NormalizePathIdempotent | packages/plugin/src/importer.ts:92 | normalising twice is normalising once |
| PluginImporter.AttachmentsRoot | packages/plugin/src/importer.ts:74 | the attachments root is non-empty and has no double slash |
| PluginImporter.After | packages/plugin/src/importer.ts:92 | `slice(k)`: the suffix after the first k characters, "" past the end |
| PluginImporter.AsWrittenDropsFirstCharacter | packages/plugin/src/importer.ts:74-92 | as written, with no attachments folder, "img.png" copied to "/vault/img.png" is linked as "mg.png" |
| PluginImporter.VaultPathOfPlacedFile | packages/plugin/src/importer.ts:82-93 | corrected: a file placed under the root gets the vault path "attachments folder / file name" |
| PluginImporter.EnsureDirectory | packages/plugin/src/importer.ts:29-31 | the folder exists afterwards; a file at the path is EEXIST and changes nothing |
| PluginImporter.CopyFile | packages/plugin/src/importer.ts:90 | the source file is duplicated at the destination; a missing source is ENOENT and changes nothing |
| PluginImporter.ReadConversationsFile | packages/plugin/src/importer.ts:19-27 | a missing file, malformed JSON and a non-array are errors; otherwise the array |
| PluginImporter.LoadTemplate | packages/plugin/src/importer.ts:64-67 | the default template for a blank path; otherwise the text at the trimmed path, which must exist |
| PluginImporter.LinkNamesVaultPath | packages/plugin/src/importer.ts:96-99 | the link names the recorded vault path, `![[…]]` for images |
| PluginImporter.PlaceAttachment | packages/plugin/src/importer.ts:84-92 | an existing destination is never recopied; otherwise it is copied to, and fails exactly with EEXIST for a file where its folder goes or else ENOENT for a missing source. The vault path is the source's slice of the initial destination, never suffixed, and no existing file changes |
| PluginImporter.CopyToFreePath | packages/plugin/src/importer.ts:87-91 | on a free destination `ensureUniqueFilePath` keeps it, and the copy lands there |
| PluginImporter.MergeAttachment | packages/plugin/src/importer.ts:79-99 | one attachment is placed once per id and given its recorded vault path and link; only its destination is added; a failure is its placing error, and one that can be placed does not fail |
| PluginImporter.MergeMessageAttachments | packages/plugin/src/importer.ts:79-100 | the same over one message's attachments: a failure is the EEXIST or ENOENT of an attachment that cannot be placed, and when all can be placed it succeeds |
| PluginImporter.MergeMessages | packages/plugin/src/importer.ts:78-101 | the same over all messages, with one copy map |
| PluginImporter.NotPlaceableEarlier | packages/plugin/src/importer.ts:84-91 | copies only add files at destinations, so an attachment that cannot be placed later could not be placed at the start |
| PluginImporter.MergeConversationAttachments | packages/plugin/src/importer.ts:69-102 | the root is made first; only messages change; every recorded path is on disk; no existing file changes. It fails exactly with EEXIST for a file at the root or the error of an attachment that cannot be placed, and never when the root is free and all can be placed |
| PluginImporter.Recorded | packages/plugin/src/importer.ts:168-174 | the state entry keeps the conversation's import key and update time |
| PluginImporter.RecordedIsSkipped | packages/plugin/src/importer.ts:104-109 | a conversation just recorded is skipped next time; one with a different update time is imported again |
| PluginImporter.UnknownIsImported | packages/plugin/src/importer.ts:105-106 | a conversation without a state entry is never skipped |
| PluginImporter.UpsertNote | packages/plugin/src/importer.ts:111-131 | the recorded note is rewritten when it exists and overwriting is on; otherwise the note is created at the first free path among the requested one and its `-n` suffixes |
| PluginImporter.WriteAndRecord | packages/plugin/src/importer.ts:165-174 | the note is upserted and the state records the written path |
| PluginImporter.ImportConversation | packages/plugin/src/importer.ts:163-175 | it fails exactly when the merge does, with its error, leaving the vault and state as they were. Otherwise the note is the normalised rendering of the merged conversation, written only at its path, and recorded |
| PluginImporter.WriteRendered | packages/plugin/src/importer.ts:165-174 | the rendered note is written at the upserted path only, in normal form, and the state records it |
| PluginImporter.ImportOne | packages/plugin/src/importer.ts:157-180 | a skip happens exactly when the state says so and changes nothing. An import is recorded so that it is skipped next time. No file outside the vault changes on disk (the vault is modelled as a store of its own) |
| PluginImporter.ImportAll | packages/plugin/src/importer.ts:152-183 | imported + skipped + errors equals the number of conversations; errors are `id: message` in order; the state keeps old entries and gains only these keys |
| PluginImporter.ParserOptions | packages/plugin/src/importer.ts:146-150 | the settings' message filters and no resolver |
| PluginImporter.ParseAndImport | packages/plugin/src/importer.ts:146-183 | the records are the parse of the conversations and each is counted once |
| PluginImporter.ImportChatGptHistory | packages/plugin/src/importer.ts:133-184 | a blank export directory, an unreadable `conversations.json` and an unreadable custom template are errors that change nothing; otherwise every parsed conversation is counted once |

## Left out

- I/O, asynchrony and exceptions. The stores are in-memory maps. A thrown error is a `Failure` value carrying its message. The messages are modelled strings: the core's test double gives "Missing text: path" and "Missing binary: path". The plugin's `mkdirSync` and `copyFileSync` give the EEXIST and ENOENT texts of `PluginImporter.Eexist` and `Enoent`, which follow Node's form without its error codes and stack. A failed `readFileSync` in the plugin is "Missing text: path", like the core's.
- Paths are modelled as the test double's `join`, `dirname` and `normalize` from the core tests, since only the interface is fixed. The plugin's Obsidian `normalizePath` drops leading and trailing slashes and collapses runs. Backslashes, Unicode normalisation and `..` segments are not modelled.
- Node's `path.join` and `dirname`, as used by the plugin, are modelled the same way.
- Node's `extname` is modelled for POSIX paths only.
- Strings are sequences of UTF-16 code units as `char`. There is no surrogate handling or case folding.
- `Strings.IsSpace` enumerates the ECMAScript `\s` set (white space and line terminators) rather than leaving it abstract, because every predicate needs a body.
- nunjucks rendering is a given function `render`, not modelled. So are `JSON.parse` (`decode`), `JSON.stringify`, the date conversions (`toIsoDate`, `normalizeTimestamp`) and the clock (`now`). NaN and invalid dates are therefore not modelled.
- The default template is represented only by its front matter (`Template.DefaultFrontMatter`); the rest of its body is not modelled.
- The vault and the file system are two separate stores (`vault != disk`), although in the program the vault is the folder `vaultBasePath` of the same disk. So notes the plugin writes through the vault are not seen on disk, and attachments and folders it creates on disk with `node:fs` are not seen by the vault. In particular, `KeepsFiles` on the disk store says nothing about vault notes that `vault.modify` rewrites when `overwriteOnReimport` is on. Likewise, `vault.folders` staying the same ignores the attachments folder created inside the vault. This applies to `PluginImporter.ImportConversation`, `ImportOne`, `ImportAll` and `ImportChatGptHistory`.
- Attachments are not mutated in place. The merge returns a new record whose messages carry the enriched attachments. Aliasing between parser objects is therefore not captured.
- Object and `Map` ordering:
  - `Object.values(mapping)` is the mapping's key order, given as a sequence.
  - The plugin's state is a `map`. Prototype keys of plain objects are not modelled.
- `ChatGptParser.SelectPathNodes` requires the parent chain from the current node to end within as many steps as there are nodes (`PathTerminates`). On a cyclic chain the source loops forever.
- The ChatGPT parser's resolver is the pure function `FirstMatch` over the index. The class `ChatGptImport.AttachmentResolver` is proved to answer the same.
- The plugin parses without a resolver, so its attachments never get a source path from the parser. Its `exportDir` option is not a parser option and is ignored, as in the source.
- `ListDir` of a directory without a listing is empty, as in the test double.
- `mkdirSync` with `recursive` adds only the folder itself, not its ancestors. It fails only when a file occupies the path.
- Copying onto an existing folder, `vault.modify` of a folder, and `vault.create` under a missing parent are not modelled as failures.
- The `MutableState` wrapper of the plugin is the `ImportState` class itself.
- The UI, settings tab, plugin main file, build scripts and lint configuration are not part of this model.
- CoreImporter.NormalizeVaultPath: carries no contract of its own. What its callers need is stated by `VaultPath.Normalize` and `CoreImporter.DropLeadingSlashes`.
- CoreImporter.FolderChain: carries no contract of its own. `CoreImporter.CreateChain` and `ChainOf` state what it yields.
- PluginImporter.ShouldSkipByState: a predicate that is the source's condition. Its consequences are the lemmas `RecordedIsSkipped` and `UnknownIsImported` and the `ImportOne` contract.

## Findings

| source | as written | input that shows it | evidently intended | confidence | as-written member | corrected member |
|---|---|---|---|---|---|---|
| packages/core/src/importer.ts:109-116 | the suffix goes before the last `.` of the whole path, folder names included | an existing "a.b/c" gets the candidate "a-2.b/c", a file in another folder | the suffix goes before the extension of the file name, so the copy stays in its folder | medium, not executed | CoreImporter.UniqueFilePathLeavesFolder | CoreImporter.SuffixStaysInFolder |
| packages/plugin/src/importer.ts:74-92 | the vault path cuts `attachmentsRoot.length + 1` characters off the copied file's path | with no attachments folder, `normalizePath("")` is "/", the root is "/vault/", and "img.png" is linked as "mg.png" | the vault path is the attachments folder and the whole file name | high that the slice is off by one; not executed. The defect is latent in the plugin as shipped: it parses without a resolver (packages/plugin/src/importer.ts:146-150), so no attachment reaches the copy | PluginImporter.AsWrittenDropsFirstCharacter | PluginImporter.VaultPathOfPlacedFile |

The import paths run the code as written: `CoreImporter.CopyAttachment` calls `EnsureUniqueFilePath` and `PluginImporter.PlaceAttachment` links with `AsWrittenRelativeTarget`. The corrected members are defined beside them, with the intended property proved.
