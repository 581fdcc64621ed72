# Synapse: verified models

Synapse is a collaborative writing workspace: a rich-text editor (ProseMirror)
shared over web sockets, Word import and export, uploaded sources split into
passages and embedded, and a model that proposes text. This project models the
parts of it where several pieces of code must agree, and proves that they do.

- **Edits** (`Utf16`, `Tree`, `Inline`, `Text`, `Edits`, `EditLaws`,
  `EditTheorems`). The server edits a document as a JSON tree and sends peers a
  replace step with positions in UTF-16 code units. A document here is a tree
  that flattens to tokens, one for each position; a step replays on tokens. The
  stored document and the replayed one agree exactly when no surrogate pair is
  cut, and a document in normal form is determined by its tokens, so peers hold
  the very tree the server stored.
- **Plain text** (`PlainText`, `PlainLaws`, `PlainShape`, `Selection`,
  `Prompts`). The text a model is shown, block by block, the map from positions
  into it, and that the selection shown is what the edit replaces.
- **The document protocol** (`DocumentStore`, `Socket`, `View`, `Convergence`,
  `Divergence`). Versions under a row lock, an append-only log, and a client
  with one edit in flight, as one transition system over any number of clients.
  What an editor shows of a content it is given is any function; of the
  editor here it is known that a document without blocks is shown with an empty
  paragraph.
- **Lists in Word files** (`Gather`, `Arena`, `Gatherer`, `ListItems`,
  `WordLists`, `WordListLaws`). Nested lists to numbered paragraphs and back.
  `Gather` says on values what the importer builds in place out of shared
  nodes; `Arena` and `Gatherer` prove that the shared nodes do build it.
- **Tables in Word files** (`Tables`, `Tilings`, `TableReader`, `WordTables`,
  `TableRoundTrip`, `TablePadding`, `TableRepair`). The exporter's layout, the
  importer's vertical merges, and the padding that spares the editor a repair.
- **Passages** (`Chunking`, `Passages`) and **ingestion** (`Ingestion`,
  `IngestionLaws`, `IngestionJob`). Splitting, packing with overlap and
  halving, for any token counter; then a job that may die between commits and
  run again.
- **Generations** (`AiQueries`, `AiBudget`, `AiStream`, `AiStreamLaws`,
  `EventStream`, `EventStreamLaws`). What a day can cost over every
  interleaving, how a generation ends once, what a reader hears across
  reconnects, and the server-sent events it hears it by (section 9.2 of the
  WHATWG HTML Living Standard).
- **Finding a chunk** (`Match`, `CitedSpans`, `Marks`, `MarkedText`). Matching
  text that was extracted differently, following a cited chunk over pages, and
  marking it in HTML that reads as the text.

Code that works by changing things is a class or a method with a loop, proved
against a function on values or against a property; protocols are functions
from a state and an action to the next state, and what holds over every run is
an invariant proved to be kept by each action. Word list and table structure is
that of sections 17.9 and 17.4 of ECMA-376 Part 1.

`dafny verify dfyconfig.toml` checks the whole project.

## Where the code and its descriptions part

- `utf16_index` gives the end of a character for a position inside its surrogate
  pair, so an edit at such a position disagrees with its step
  (`RewriteAgreesExactly` says when, `HalfCharacterDisagrees` shows one).
- "Version 1 is logged too, so the log replays from nothing"
  (`api/services/documents.py:98`): a new document is stored with no blocks and
  shown with an empty paragraph, which no step says. The first letter typed into
  it is accepted, and the log no longer replays to the head
  (`FirstLetterBreaksLog`). An edit taken to a document shown as another keeps
  the log exactly when its steps make the same of both
  (`SeenEditKeepsLogExactly`), and with no such edit the log goes on replaying
  (`LogKeepsReplaying`). Clients go on agreeing with the head as they are shown
  it, unless the server puts paragraphs into such a document
  (`InsertionDiverges`, and exactly when in `ServerStepsAgreeExactly`).
- "True when every local edit has been acknowledged, so the editor shows exactly
  the server's document at `currentVersion()`"
  (`web/src/hooks/useDocumentSocket.ts:52-54`): a client whose connection drops
  with an edit in flight is settled too, and shows an edit its version does not
  have. `SilenceDiverges` is such a run; `DroppedAgreesExactly` and
  `ResyncedAgreesExactly` say when the two still agree. With no edit dropped
  since its init the promise holds of what the editor shows of that document
  (`SettledClientsAgree`), and of the document itself where whole documents are
  shown as they are (`PlainClientsAgree`).
- The client sends edits as soon as its socket opens, before `init` arrives, and
  `init` then drops what was sent (`FlushBeforeInitDiverges`). Client and server
  agree again exactly when the edit is refused for its base or changes nothing
  (`EarlyFlushAgreesExactly`).
- A whole document that arrives while local words wait, with nothing in flight,
  leaves them waiting: they go out at the new version with the document they
  were typed in. They may well apply to the new document, but to other content
  than is stored as the head (`ReplaceUnderPendingDiverges`, and exactly when in
  `ReplaceUnderPendingExactly`). `SettledClientsAgree` assumes that this and the
  case before do not happen, and nothing else about replacements.
- "A day's total can overshoot by one response's worth"
  (`api/services/ai_usage.py:108-109`): it can overshoot by as many responses as
  may run at once and one more, less the estimate of the last, since the tokens
  used and the generations running are read by two statements (`BudgetHolds`;
  `OneMoreThanTheCap` reaches that very sum). Where nothing ends between the two
  it is as many as may run at once, so the remark holds exactly when that is one
  (`OneResponseExactly`).
- "So the editor need not repair the table" (`api/services/docx_import.py:775-777`)
  holds exactly when no cell of the rows is laid over another or reaches past
  the last row (`PaddingRepairsExactly`). Columns skipped at the start of a Word
  row are forgotten, and that can lay one over another
  (`SkippedColumnsNeedRepair`).
- The client replaces `\r\n` piece by piece, so a stream cut inside one can hold
  an event back (`CutLineEndHoldsBack`). The server prints no `\r`.

## Model

| member | source | states |
|---|---|---|
| Utf16.Utf16Index | api/services/prosemirror.py:28-37 | The loop and the ASCII shortcut return one and the same index, for every text and count of units. |
| Utf16.IndexAtIsShortestPrefix | api/services/prosemirror.py:28-37 | The index is the length of the shortest prefix with at least that many UTF-16 units, or the whole text if none has. |
| Utf16.IndexAtRoundsUp | api/services/prosemirror.py:28-37 | A position between the halves of a surrogate pair gives the index after the character; any other is met exactly. |
| Utf16.IndexAtMonotone | api/services/prosemirror.py:28-37 | A later position never gives an earlier index. |
| Utf16.EncodeInjective | api/services/prosemirror.py:24-25 | Texts with the same UTF-16 units are the same text. |
| Tree.FlattenInjective | api/services/prosemirror.py:40-50 | Two normal-form contents followed by what closes them flatten to the same tokens only if they and what follows are the same. |
| Tree.TokensDetermineDocument | api/services/prosemirror.py:40-50 | A document in normal form is the only one with its tokens. |
| Inline.SliceInline | api/services/prosemirror.py:264-279 | The loop over children and positions returns the slice of the children defined child by child. |
| Inline.SliceTokens | api/services/prosemirror.py:264-279 | The slice's tokens are the tokens between its two positions, each moved past the surrogate pair it would split. |
| Inline.NormalizeInline | api/services/prosemirror.py:282-299 | The loop drops empty texts and joins neighbours with equal marks as the definition does. |
| Inline.NormalizedTokens | api/services/prosemirror.py:282-299 | Joining and dropping text nodes leaves the tokens as they were. |
| Inline.NormalizedIsNormal | api/services/prosemirror.py:282-299 | The result is in normal form: no empty text, and no two neighbours that could be one. |
| Inline.NormalizedIsTheNormalForm | api/services/prosemirror.py:282-299 | It is the one normal form with the same tokens. |
| Text.CollapseLeavesNoBlankLine | api/services/prosemirror.py:339 | Collapsed, a text has no blank line left in it and keeps every visible character. |
| Text.CollapseKeepsExactly | api/services/prosemirror.py:339 | Exactly the characters after a newline up to a later one, with only whitespace between the two, are dropped; all others stay, in order, and a text without a blank line as it is. |
| Text.BlocksExactly | api/services/prosemirror.py:208 | The blocks of an answer and the gaps between them, each two newlines with nothing but spaces and tabs between, make up the answer, and no block holds such a gap. |
| Edits.BlockSpans | api/services/prosemirror.py:216-222 | The loop returns the span of every top-level block. |
| Edits.FindTextblock | api/services/prosemirror.py:234-247 | The loop over children with its recursion finds the textblock that holds a position, as defined by structure. |
| Edits.FoundIsThere | api/services/prosemirror.py:234-253 | The path found is valid, leads to a textblock at the start given, and its content holds the position. |
| EditTheorems.FoundExactly | api/services/prosemirror.py:234-253 | A position is found in the outermost textblock whose content holds it, at its path and start, and in none exactly when there is none. |
| Edits.RewriteSelection | api/services/prosemirror.py:324-360 | The server's code for a rewrite returns the edit of the definitions, or none: for a range in one textblock it is given whole by `RewriteReads` and `RewriteTokens`, for any other by `AnswerPlace` and `ReplaceBlocksAgrees`. |
| Edits.InsertParagraphs | api/services/prosemirror.py:363-376 | The server's code for an insertion returns the edit that the definitions give. |
| EditLaws.InlineNodesLaws | api/services/prosemirror.py:193-202 | The nodes made for a text read back as that text and are in normal form: every line break is a hard break and every other character a character, or in code every character is one. |
| EditLaws.ParagraphsLaws | api/services/prosemirror.py:205-213 | The paragraphs made for a text are in normal form, none is blank, and together they keep every visible character in order. |
| EditLaws.ParagraphsExactly | api/services/prosemirror.py:205-213 | They are the blocks of the answer, its carriage returns gone, that are not blank, each a paragraph that reads as the block less the newlines around it. |
| EditLaws.PutTokens | api/services/prosemirror.py:256-261 | Replacing a node at a path changes the tokens of that node and no others. |
| EditLaws.RewriteTokens | api/services/prosemirror.py:324-346 | A rewrite inside a textblock at any depth replaces the tokens between its two (rounded) positions by those of its slice. |
| EditTheorems.RewriteAgreesExactly | api/services/prosemirror.py:324-346 | The document stored after a rewrite inside a textblock is what replaying its step gives if and only if neither end of the range splits a surrogate pair, or both do, at equal second halves, and there is nothing to put in: a blank answer to a selection with no space at its ends. |
| EditTheorems.HalfCharacterDisagrees | api/services/prosemirror.py:28-37 | A selection that ends between the halves of a character: whatever the answer, the stored document is not what the step replays to. |
| EditTheorems.ReplaceBlocksAgrees | api/services/prosemirror.py:348-360 | For a range over several blocks the stored document is always what the step replays to. |
| EditTheorems.InsertAgrees | api/services/prosemirror.py:363-376 | So is it for an insertion, wherever it is asked for. |
| EditTheorems.EditAgrees | api/services/prosemirror.py:324-360 | For any range that splits no surrogate pair, replaying the step on the old tokens gives the tokens of the stored document. |
| EditTheorems.EditKeepsNormalForm | api/services/prosemirror.py:282-299 | A rewrite of a document in normal form leaves it in normal form. |
| EditTheorems.InsertKeepsNormalForm | api/services/prosemirror.py:363-376 | So does an insertion. |
| EditTheorems.PeersConverge | api/services/prosemirror.py:177-190 | A peer whose document is in normal form and has the replayed tokens holds the very tree that the server stored for a rewrite. |
| EditTheorems.PeersConvergeOnInsert | api/services/prosemirror.py:177-190 | The same for an insertion. |
| EditTheorems.SnapContains | api/services/prosemirror.py:308-321 | Over non-empty blocks, snapping a range inside the document succeeds and contains the range. |
| EditTheorems.SnapIsStable | api/services/prosemirror.py:308-360 | Snapping twice changes nothing, and the edit of the snapped range is the edit of the range. |
| EditTheorems.SnapIsLeast | api/services/prosemirror.py:308-321 | A range crossing blocks grows to the least range of whole blocks around it. |
| EditTheorems.InsertPlace | api/services/prosemirror.py:363-373 | An insertion goes to the first block boundary at or after the position, or to the end of the document if there is no position or it is zero. |
| EditTheorems.RewordedKeepsSpace | api/services/prosemirror.py:335-340 | The space the user selected around the words stands around the new words. |
| EditTheorems.RewordedInk | api/services/prosemirror.py:335-340 | A rewrite keeps every visible character of the answer, in order. |
| EditTheorems.RewriteReads | api/services/prosemirror.py:335-341 | The slice of a rewrite reads as the answer, stripped and less its blank lines, between the whitespace the user selected around the words; in a code block the answer keeps its blank lines and is one run of text. |
| PlainText.Builder.AddInline | api/services/prosemirror.py:156-163 | Appending a textblock's content to the parts, runs and length adds what the definition adds. |
| PlainText.Builder.AddBlock | api/services/prosemirror.py:116-154 | The same for a block with its prefix and marker; `PlainTextReads` says what that comes to. |
| PlainText.Builder.AddItems | api/services/prosemirror.py:116-154 | The same for the children of a list or a quote. |
| PlainLaws.RunsAreSound | api/services/prosemirror.py:100-174 | Runs are in order and disjoint in the document and in the text, and each stands verbatim at its offset. |
| PlainShape.AllShownExactly | api/services/prosemirror.py:116-154 | The blocks shown are exactly the textblocks and rules that no other such block holds, each once, in the order of the document. |
| PlainShape.PlainTextReads | api/services/prosemirror.py:112-174 | The plain text is these blocks one after the other, each told by its path: an empty line unless nothing stands before it, "> " for each quote around it, two spaces for each list item whose first child it is not in, the mark of the item it opens (a dash, a box checked or not, or the number that its list has come to), a heading's hashes, and its words, in a fence if it is code. |
| PlainShape.ParagraphsRead | api/services/prosemirror.py:112-174 | Paragraphs of text read as their texts with an empty line between them. |
| PlainShape.DigitsRead | api/services/prosemirror.py:145 | The digits of a number read as the number and do not open with a zero. |
| PlainLaws.RunsSpellTokens | api/services/prosemirror.py:100-174 | The tokens a run covers spell the run's text. |
| PlainLaws.OffsetMonotone | api/services/prosemirror.py:81-97 | A later position never maps to an earlier offset, in either direction. |
| PlainLaws.OffsetInRun | api/services/prosemirror.py:81-97 | A position in a run is found in the run's own text, at the index of as many UTF-16 units. |
| PlainLaws.OffsetBetweenRuns | api/services/prosemirror.py:81-97 | A position between runs goes to the start of the next one, or the end of the text, and backward to the end of the one before, or the start. |
| PlainLaws.BackwardNeverExceedsForward | api/services/prosemirror.py:81-97 | The backward offset of a position is at most its forward offset. |
| Selection.SelectionReadsAsEdited | api/services/prosemirror.py:81-174 | Inside one textblock of text and hard breaks, at any depth, the text between the two offsets is the text of the slice that a rewrite replaces. |
| Prompts.AroundSelection | api/services/prompts.py:104-127 | The selection is never cut; nothing is cut if all fits; otherwise what is kept of the start, of the text before and of the text after fills the budget exactly, in the shares promised to each. |
| Prompts.RewriteContext | api/services/prompts.py:73-91 | Exactly when a rewrite has no context, for want of a selection or for its length; otherwise the selection shown is the text between its offsets, and around it stands what `AroundSelection` keeps. |
| DocumentStore.Document.ApplyChange | api/services/documents.py:158-219 | The locked row takes the new content, title and next version and its log one entry with the operation and base; from any other version nothing changes and the caller gets the current row. |
| DocumentStore.StaleCarriesHead | api/services/documents.py:191-194 | Whoever writes, a stale write changes nothing, is answered with the head, and was not based on it. |
| DocumentStore.Document.Update | api/services/documents.py:235-258 | A PATCH with nothing in it writes nothing; any other is one write of its operation. |
| DocumentStore.ChangeKeepsLog | api/services/documents.py:158-219 | A write whose operation does what its content says keeps the log numbered from 1 to the head, each entry based on the one before, and replaying to the row. |
| DocumentStore.OnlyHonestKeepsLog | api/services/documents.py:158-219 | No other write does. |
| DocumentStore.EveryRun | api/services/documents.py:81-219 | From creation on, over every interleaving of editors, PATCHes, AI reads and applies and deletion in which no editor's edit is taken to a document that it shows as another, the log replays to the head's content and title. |
| DocumentStore.SeenEditKeepsLogExactly | api/services/ai_queries.py:83-86 | An editor's edit keeps the log exactly when its steps make of the stored document what they make of the one shown; where those differ in length, as with an empty paragraph for no blocks, no typing, pasting or deleting does. |
| DocumentStore.AcceptedReadIsHead | api/services/ai_queries.py:299-321 | An AI edit computed from an unlocked read is accepted only if the row still is what was read. |
| DocumentStore.AiEditIsHonest | api/services/ai_queries.py:269-280 | The step of an AI edit whose range splits no surrogate pair, applied to the content read, gives the content it stores. |
| DocumentStore.AnswerPlace | api/services/ai_queries.py:269-280 | An answer over an empty range is refused; over any other inside the document it replaces the range itself in one textblock, and else the nearest block edges around it; an insertion goes to the first edge at or after its position, or to the end. |
| DocumentStore.OneWriterPerBase | api/services/documents.py:184-196 | Of all the writes ever based on one version, at most one is accepted. |
| Socket.DocumentSocket.Flush | web/src/hooks/useDocumentSocket.ts:115-131 | With words waiting, an open socket and nothing in flight, the whole batch goes out at the version shown and is in flight; otherwise nothing changes. |
| Socket.DocumentSocket.OnMessage | web/src/hooks/useDocumentSocket.ts:320-328 | Messages of an earlier connection change nothing. |
| Socket.DocumentSocket.Handle | web/src/hooks/useDocumentSocket.ts:208-275 | For each message, the whole new state: an init or a rejection leaves nothing local; an ack takes the version and sends what was typed meanwhile, all of it; a whole document is shown; steps are replayed if nothing local is outstanding and they apply, and otherwise the client lets go of all it has and reconnects. |
| Convergence.ActKeeps | web/src/hooks/useDocumentSocket.ts:201-275 | Every action of a client, the network or the server keeps the invariant that ties what each client shows, what it has sent and dropped, and its inbox to the log. |
| Convergence.ReplaceOk | web/src/hooks/useDocumentSocket.ts:244-247 | A whole document keeps it, with nothing outstanding or over an edit in flight, whose answer can then only be a rejection. |
| Convergence.SettledClientsAgree | web/src/hooks/useDocumentSocket.ts:52-275 | For any editor, in every reachable state a settled client that has dropped no edit since its init, connected or not, shows exactly the content and title of its version in the log as clients view it, through rejections, replacements, resyncs and orphaned edits; with nothing left to read, what the editor shows of the head. A connected client has dropped none. |
| Convergence.LogKeepsReplaying | api/services/documents.py:95-219 | The server's own log replays to its head over every run in which no edit is accepted on a document that clients are shown as another. |
| Convergence.PlainClientsAgree | web/src/pages/DocumentPage.tsx:147-177 | Created with, and replaced by, documents the editor shows as they are, a document's log replays to its head, and settled clients show the server's own document at their version. |
| Divergence.AckedWordsArrive | web/src/hooks/useDocumentSocket.ts:230-235 | From any state of the invariant, words that waited behind an accepted edit go out with its ack and, read at the head, are accepted: the client is settled, and what it showed is the head's content. |
| Divergence.WaitingWordsArrive | web/src/hooks/useDocumentSocket.ts:115-144 | So do words that wait with nothing in flight, when the timer fires. |
| Divergence.DroppedAgreesExactly | web/src/hooks/useDocumentSocket.ts:157-171 | Losing the socket, to silence or to the next connection, live or not, with nothing waiting leaves a client settled at its version, which it shows exactly when the steps it shows on top change nothing. |
| Divergence.ResyncedAgreesExactly | web/src/hooks/useDocumentSocket.ts:200-254 | A peer's steps under an outstanding edit leave it settled one version on, which it shows exactly when its own steps lead where the peer's do. |
| Divergence.SilenceDiverges | web/src/hooks/useDocumentSocket.ts:52-171 | A run, all of it as assumed, to a settled client that shows at version 1 a letter version 1 does not have. |
| Convergence.ServeEditOk | api/realtime/session.py:245-292 | Serving an edit, accepted or rejected, keeps the invariant for its author and for every peer. |
| Divergence.EarlyFlushAgreesExactly | web/src/hooks/useDocumentSocket.ts:115-235 | From any state of the invariant, a batch sent before init leaves the client settled at the head's version, in agreement with the head exactly when the batch is refused for its base or leads to the content the head had. |
| Divergence.FlushBeforeInitDiverges | web/src/hooks/useDocumentSocket.ts:115-144 | A letter typed just before the connection closes and sent on the next one before init: a settled, live client shows other content than the server at the same version. |
| Divergence.ReplaceUnderPendingExactly | web/src/hooks/useDocumentSocket.ts:237-247 | A whole document taken while words wait, over any document and steps: once they are sent and read, the log replays to the head exactly when they were not read at the head or, in the new document, lead to the old one with them; the settled client then shows the head exactly when the two documents are the same. |
| Divergence.ReplaceUnderPendingDiverges | web/src/hooks/useDocumentSocket.ts:237-247 | For any other document put over an empty paragraph while a letter waits in it, neither holds. |
| Divergence.FirstLetterBreaksLog | api/services/documents.py:95-109 | A run, all of it as assumed, in which the first letter typed into a new document is accepted and the log no longer replays to the head. |
| Divergence.ServerStepsAgreeExactly | web/src/pages/DocumentPage.tsx:161-175 | The server's own edit keeps the log; a settled client up to date that replays it shows the new head exactly when its steps lead from what the client was shown to what it would be shown. |
| Divergence.InsertionDiverges | api/services/prosemirror.py:363-376 | Any paragraphs the server inserts into a document without blocks leave a settled client with an empty paragraph after them that the head does not have. |
| Gather.PlacedKeeps | api/services/docx_import.py:834-861 | Placing a paragraph of any level and kind keeps the stack the right spine of the last list, strictly rising in level, and ends it with the paragraph's own. |
| Gather.OpenForExactly | api/services/docx_import.py:834-838 | The lists left open for a paragraph are as many as can be, the deepest of a lower level, or of its own level and kind. |
| Gather.NothingIsLost | api/services/docx_import.py:794-861 | Whatever levels and kinds paragraphs jump between, the gathered blocks hold the content of each exactly once and in order, with its kind and check, and each list the start and numbering of the paragraph that opened it. |
| Gatherer.CloseFor | api/services/docx_import.py:834-846 | The loop leaves open the lists the definition leaves open: the last is of a lower level, or of the item's own level and kind, and none of those closed is. |
| Gatherer.ListGatherer.Place | api/services/docx_import.py:834-861 | Appending to nodes shared by the result and the stack gives what placing gives on values. |
| Gatherer.ListGatherer.PlaceList | api/services/docx_import.py:850-861 | A new list joins the result or the last open item, and its item joins it through the stack's reference. |
| Gatherer.GatherItems | api/services/docx_import.py:794-831 | The loop over all items, with shared nodes, gathers what the definition gathers. |
| Arena.AppendDeep | api/services/docx_import.py:850-861 | Appending to a node on the right spine changes the tree there and nowhere else. |
| ListItems.GatherIsInverse | api/services/docx_import.py:794-861 | Gathering the paragraphs of a forest of lists gives the forest back if it has at most nine levels and no two lists of a kind side by side. |
| ListItems.RoundTripsExactly | api/services/docx_import.py:794-861 | It gives it back exactly then. |
| WordLists.Writer.Start | api/services/docx_export.py:100-107 | Every list gets a numbering instance of its own, with its format and start. |
| WordLists.Writer.List | api/services/docx_export.py:226-256 | The recursive writer appends the paragraphs and numberings that the definition appends. |
| WordLists.TrimLeadingSpaces | api/services/docx_import.py:383-423 | Spaces after the box are taken off the text, node by node. |
| WordLists.Reader.ListItem | api/services/docx_import.py:383-423 | Reading a paragraph gives the item the definition gives, adds one to the counter of its instance and level, clears those of the instance's deeper levels and leaves all others. |
| WordListLaws.CountersCount | api/services/docx_import.py:386-390 | After any paragraphs, the counter of an instance and a level is the number of paragraphs of both since the instance last had one of a lower level. |
| WordListLaws.ReadStarts | api/services/docx_import.py:383-423 | An ordered item starts at its instance's start and that number, with its instance's type. |
| WordListLaws.BoxesRead | api/services/docx_import.py:393-416 | A bulleted item is a task's exactly when its text opens with one of the five boxes, unchecked exactly for the empty one; the box and all the spaces after it, whatever their marks, are taken off and nothing else. |
| WordListLaws.TaskParagraph | api/services/docx_import.py:383-423 | A checklist item keeps its check, and its text exactly when that does not open with a space. |
| WordListLaws.BulletParagraph | api/services/docx_import.py:383-423 | A bullet comes back as a bullet exactly when its text does not open with a box glyph. |
| WordListLaws.OrderedNumbering | api/services/docx_export.py:232-240 | An ordered list keeps its type exactly when it is none, a, A, i or I, and its start exactly when that is at least 1. |
| WordListLaws.WordRoundTrip | api/services/docx_export.py:226-256 | A forest of lists with content in normal form, exported and read back, is the same, with kinds, starts, types, checks and texts, exactly when each paragraph keeps its own as the three rows above say, it has at most nine levels, and no two lists of a kind are side by side. |
| Tables.PlaceRow | api/services/docx_export.py:364-377 | The inner loop gives each cell of a row the first column from the end of the one before that no cell above covers. |
| Tables.Layout | api/services/docx_export.py:358-378 | So for every row, and the width is one past the last column covered in any row. |
| Tables.LayoutIsUnique | api/services/docx_export.py:358-378 | No other columns are a layout of the same rows. |
| Tilings.LayoutRecovers | api/services/docx_export.py:358-378 | From the cells alone, the layout finds the true column of every cell of a tiling, and its width, and no other. |
| TableReader.ReadTable | api/services/docx_import.py:493-535 | Incrementing rowspans through the open cells, and taking the increments back for a row with no cell of its own, gives each cell the number of kept rows that continue it, for any Word rows. |
| TableReader.OpenExactly | api/services/docx_import.py:507-529 | For any Word rows, the cell open at a column is the one that begins or goes on a merge there, joins none above, and is followed there only by cells that join. |
| TableRoundTrip.ExportExists | api/services/docx_export.py:258-282 | Every tiling has a table of Word rows, all of its full width, with spans, vertical merges, repeated headers and blank cells after a short row. |
| WordTables.JoinsExactly | api/services/docx_import.py:507-523 | Reading it, a Word cell joins the one open above exactly when it stands for a cell of an earlier row. |
| WordTables.ReadBack | api/services/docx_import.py:493-535 | Reading the Word table of any tiling gives the same cells, less the rows that start none, each spanning the rows left of those it spanned. |
| TableRoundTrip.TableRoundTrips | api/services/docx_export.py:258-282 | A table comes back as it went exactly when no row is short of the widest, every row starts a cell, of header cells only or of none, and every cell has content and plain spans. |
| TableRoundTrip.KeptTiles | api/services/docx_import.py:531-535 | What is read back tiles its rows as the table did. |
| TablePadding.Rectangular | api/services/docx_import.py:775-791 | Every row is padded to the width of the widest, counting what reaches into it from above, with plain cells of one column and row that hold an empty paragraph. |
| TableRepair.PaddingRepairsExactly | api/services/docx_import.py:775-791 | For any rows, the padded table tiles a rectangle exactly when the layout of the rows lays no cell over another and lets none reach past the last row. |
| TableRepair.ReadTableNeedsNoRepair | api/services/docx_import.py:493-537 | The Word table of a tiling, even with rows of different widths, reads and pads to a full rectangle. |
| TableRepair.SkippedColumnsNeedRepair | api/services/docx_import.py:501-502 | With columns skipped before a row, a Word table can read to rows in which one cell is laid over another. |
| Chunking.Trimmed | api/services/chunking.py:53-59 | What is left holds every non-blank character and begins and ends with one. |
| Chunking.Pieces | api/services/chunking.py:42-50 | The loop yields what lies between the matches, trimmed; the pieces hold a non-blank character exactly when no separator does. |
| Chunking.Prefix | api/services/chunking.py:95-101 | For any counter, the bisection settles on a prefix that fits, or one character, and that one character more would not fit. |
| Chunking.Cut | api/services/chunking.py:91-102 | A stretch is cut without gap or overlap into such prefixes. |
| Chunking.Fit | api/services/chunking.py:74-89 | A stretch that fits is one unit; any other is cut at the coarsest separators that help, and inside a word only when none is left. Units are in order with true counts, within the limit unless a single character, and keep every non-blank character but brackets and quotes that close a sentence. |
| Passages.Pack | api/services/chunking.py:117-142 | Each span takes as many units as fit the target, starts later than the one before with as much of it as fits the overlap, and the last reaches the end. |
| Passages.SpansAdvance | api/services/chunking.py:117-142 | Starts strictly increase, so packing ends, and ends never fall back. |
| Passages.SpanInsideSpan | api/services/chunking.py:117-142 | A span can lie wholly inside the one before it. |
| Passages.PageHolds | api/services/chunking.py:175 | A passage is on the last page that starts at or before it. |
| Passages.VerifiedLaw | api/services/chunking.py:158-176 | Halving a passage that is over the cap keeps what it covers, in order, and every part is an exact slice within the cap unless a single character. |
| Passages.ChunkText | api/services/chunking.py:105-155 | For any token counter: every draft is numbered in turn, an exact non-empty slice with its true count, over the cap only if one character; every non-blank character is in a draft unless it closes a sentence before a space. |
| IngestionLaws.DistinctLaw | api/services/ingestion.py:104-108 | Grouping by content leaves each content once, and none out. |
| IngestionLaws.DistinctInOrder | api/services/ingestion.py:104-108 | Contents come in the order in which they first stand. |
| IngestionLaws.MissesExactly | api/services/ingestion.py:174-217 | A draft is embedded again exactly when it is not already stored with the same place, page and model. |
| IngestionLaws.BatchCommits | api/services/ingestion.py:220-259 | Storing a batch never meets a taken index, sends each of its contents once, and stores every draft of each. |
| IngestionLaws.StepKeeps | api/services/ingestion.py:72-140 | Each commit of a run, its failure, a crash, a retry and a deletion keep the invariant. |
| IngestionLaws.ReadyHolds | api/services/ingestion.py:72-140 | Over every sequence of them, a source that is ready holds exactly the drafts of the run that finished it, each with its own embedding. |
| IngestionLaws.SendsOnce | api/services/ingestion.py:104-114 | At every moment of every sequence, a run has sent the contents it was missing, each once, in order, and nothing else; none is the content of a draft that was stored identically when it began. |
| IngestionLaws.TokensCounted | api/services/ingestion.py:72-140 | Over every sequence, every stored passage has the token count of its own text, if the drafts of every run have. |
| IngestionLaws.StoredStays | api/services/ingestion.py:72-217 | No step loses a stored passage, whatever failed, died or was retried, but the one that begins to embed, and then only if no draft is identical. |
| IngestionLaws.ErrorsTell | api/services/ingestion.py:72-140 | Over every sequence, a source says an error exactly when it has failed. |
| IngestionJob.GroupByContent | api/services/ingestion.py:104-107 | The dictionary groups the missing drafts by content in first-seen order. |
| IngestionJob.SourceRow.KeepReusable | api/services/ingestion.py:174-217 | The stored chunks that are identical to a draft stay, all others go, and the drafts without one are returned. |
| IngestionJob.SourceRow.StoreBatch | api/services/ingestion.py:220-259 | All the rows of a batch are stored, each with its draft's text, place, page and token count and its own embedding, or none if an index is taken. |
| IngestionJob.SourceRow.Process | api/services/ingestion.py:72-140 | A run that nothing breaks ends with the source ready and holding its drafts; broken by the provider, failed; what was sent is missing content, each once. |
| AiQueries.Workspace.Finish | api/services/ai_queries.py:245-266 | A row ends only if it is streaming, and the caller learns whether it did. |
| AiQueries.Workspace.ExpireAbandoned | api/services/ai_usage.py:77-94 | Exactly the streaming rows older than the timeout are failed. |
| AiQueries.Workspace.GetUsage | api/services/ai_usage.py:46-74 | The tokens of the rows ended since midnight, and the rows streaming. |
| AiBudget.EndCounts | api/services/ai_usage.py:46-74 | A generation that ends is no longer counted as running, and till midnight counts for the tokens of its prompt and its answer. |
| AiQueries.Workspace.CreateQuery | api/services/ai_queries.py:139-157 | Under the lock and after expiry, a query is refused exactly when a cap that is on is reached, or a limit that is on would be passed by its estimate; then nothing changes, and otherwise one streaming row is added. |
| AiBudget.BudgetHolds | api/services/ai_usage.py:46-133 | Over every interleaving, expiry and change of day, at most the cap are streaming and no day's total exceeds its limit, less the least that is ever asked for, and one generation more than the cap. |
| AiBudget.BudgetHoldsAtOnce | api/services/ai_usage.py:103-133 | Over every interleaving in which no generation ends between the two reads of an admission, no day's total exceeds its limit, less that least, and the generations of the cap. |
| AiBudget.OneMoreThanTheCap | api/services/ai_usage.py:50-66 | A run with estimates of at least one in which a generation ends between the two reads, and the first bound is met exactly. |
| AiBudget.TwoAtOnceOvershoot | api/services/ai_usage.py:103-133 | For any two slots or more and any limit, a run in which nothing ends between the reads and a day overshoots by more than one response; with two slots it meets the second bound exactly. |
| AiBudget.OneResponseExactly | api/services/ai_usage.py:108-109 | Over all runs in which nothing ends between the reads, no day overshoots by more than one response exactly when one generation may run at a time. |
| AiStream.Buffer.Read | api/services/ai_buffer.py:44-55 | The entries that follow the one last seen, without a gap: at most five hundred, and fewer only when none is left. |
| AiStream.GenerationRunner.Relay | api/services/ai_runner.py:98-138 | The loop is a run of the runner's steps in any state of the system, and ends at the first item it does not pass, in the way that item calls for, or as interrupted; the buffer gets every piece produced but one that failed to reach it, and an answer is all the pieces joined. |
| AiStream.GenerationRunner.Finish | api/services/ai_runner.py:153-184 | The row is ended first, by compare and set, with the usage reported or else an estimate, unless it failed with nothing produced. Then the end is published: recorded, stopped exactly if cancelled, an error exactly if failed, with its own code, and the answer exactly if completed; and an error if the row could not be written or had ended before. |
| AiStreamLaws.RowEndsOnce | api/services/ai_queries.py:245-266 | Once a row has left streaming no step of the runner, a reader or an expiry changes it. |
| AiStreamLaws.StepKeeps | api/services/ai_stream.py:69-110 | Every step of the runner, of the reader's loop and of the rest keeps the invariant. |
| AiStreamLaws.GapFree | api/services/ai_stream.py:69-110 | Over any reconnects and drops, a reader has got a prefix of the buffered tokens, each once and in order, and then at most one end. |
| AiStreamLaws.DoneMeansCompleted | api/services/ai_runner.py:168-184 | A reader told the answer finds the row completed with that very answer, now and after any further steps, and it is the buffered tokens joined. |
| AiStreamLaws.StoppedMeansCancelled | api/services/ai_runner.py:195-210 | A reader told that the generation was stopped finds its row cancelled, now and after any further steps. |
| AiStreamLaws.ErrorsAccounted | api/services/ai_runner.py:168-210 | One told of an error finds the row failed with that code, unless the row could not be written or had ended before. |
| AiStreamLaws.RowsEndExactly | api/services/ai_stream.py:33-52 | One told by the row's end hears exactly how the row ended: its answer, that it was stopped, or the code it failed with. |
| AiStreamLaws.EndIsHeard | api/services/ai_stream.py:54-110 | Once the runner is gone, in any reachable state, a reader that has not heard of the end does by reconnecting and reading on. |
| EventStream.ReadBlock | web/src/api/ai.ts:86-98 | At most one event, none exactly if no line names data; its kind is the one named, or "message". |
| EventStream.LastFieldCounts | web/src/api/ai.ts:86-96 | The last line that names a field gives its value. |
| EventStream.StreamQuery | web/src/api/ai.ts:73-99 | The loops over pieces and blocks emit what draining the buffer after each piece gives. |
| EventStreamLaws.DrainTwice | web/src/api/ai.ts:73-84 | Draining text as it arrives emits what draining all of it at once does. |
| EventStreamLaws.UnifyPieces | web/src/api/ai.ts:78 | Line ends are unified piece by piece exactly when no cut falls inside one. |
| EventStreamLaws.WholeEvent | api/routers/ai.py:104-110 | An event printed whole is read as its type, data and id, and a keepalive as nothing. |
| EventStreamLaws.ReadsWhatIsComplete | web/src/api/ai.ts:73-99 | For any events and keepalives, cut into any pieces and arrived as far as any place, the client has emitted exactly the events complete by then, in order. |
| EventStreamLaws.CutLineEndHoldsBack | web/src/api/ai.ts:78 | A cut inside a line end holds back an event that has fully arrived. |
| Match.SqueezeText | web/src/sourceViewer/match.ts:28-41 | The loops over code units build the squeezed text with the origin of each. |
| Match.SqueezeTraces | web/src/sourceViewer/match.ts:28-41 | Origins are in order, inside the text, and each character folds from its origin. |
| CitedSpans.PassedOverExactly | web/src/sourceViewer/match.ts:26-41 | A character makes no difference to a text exactly when it is white space, a soft hyphen, a zero-width space or a bar, each by its code; any other counts by its lower case. |
| Match.Haystack.FindAll | web/src/sourceViewer/match.ts:57-67 | What is found are occurrences, apart and in order, and every occurrence overlaps one of them. |
| Match.Haystack.Longest | web/src/sourceViewer/match.ts:77-86 | The bisection finds the longest start of the chunk that occurs, or that not even the minimum does. |
| Match.NearestOf | web/src/sourceViewer/match.ts:88-95 | The loop finds the occurrence nearest to a place, the earlier of two as near. |
| Match.Haystack.FindChunk | web/src/sourceViewer/match.ts:74-104 | Null exactly when the minimum is not there; otherwise the longest start, at the nearest occurrence, with its span, share and rest. |
| CitedSpans.RestExactly | web/src/sourceViewer/match.ts:96-101 | The rest squeezes to what is left of the needle exactly when the cut does not fall inside a character that folds to two. |
| CitedSpans.SpanHolds | web/src/sourceViewer/match.ts:51-54 | Where folding is one to one, the text under a span squeezes to what was matched. |
| CitedSpans.CitedSpans | web/src/components/sourceViewer/PdfView.tsx:48-58 | Where folding is one to one, each part marked is the first occurrence on its page of the longest start of what was left that occurs there, the parts over successive pages followed by the rest squeeze to the whole excerpt, and it stops at the end of the pages, at a blank rest, or where twelve characters of it are not found. |
| Marks.EscapesEachOnce | web/src/sourceViewer/match.ts:131-137 | The four replacements one after the other escape each character once. |
| Marks.SameOver | web/src/sourceViewer/match.ts:117-126 | Between two neighbouring cuts, the marks over the piece are those over each of its characters. |
| Marks.MarkedHtml | web/src/sourceViewer/match.ts:107-129 | The pieces cover the text without gap or overlap, and each character is marked with exactly the classes of the marks that cover it. |
| MarkedText.HtmlReads | web/src/sourceViewer/match.ts:107-137 | Read back tag by tag and entity by entity, the HTML gives the text itself, each character under exactly the classes of the marks that cover it, for class names without spaces or quotes. |

## Left out

- Databases, queues, Redis and web frameworks: a locked write, a compare-and-set update, a stream append and an advisory lock are single steps.
- Word files themselves: XML, styles, fonts, colours, links, zip, and the library that merges cells; only numbered paragraphs and rows with spans and merges are modelled, and what an item or a cell holds beside its first paragraph is carried as it is.
- Run formatting and paragraph attributes, which Word paragraphs here carry unchanged with their text.
- Headings and quotes inside list items, which export as paragraphs, and numbering types beyond those named in `OrderedNumbering`.
- Tables whose cells overlap or leave holes on export; the editor keeps tables that tile.
- An imported table left without rows, which the importer gives one empty cell.
- Regular expression engines: separators are given by what they match, in order, apart and not empty; closing quotes and brackets they swallow stand after the end of a sentence and before a space.
- JSON, of which only its having no line break is used, and key order.
- An empty list of marks and a missing one are the same here.
- Tokenizers, embeddings and providers: a counter is any function of a text, an embedding a name for a model and a text.
- SHA-256 beyond two contents having different digests.
- Roles, rate limits, presence, schema versions, heartbeats and back-off: connections open, close and are silent at any time.
- Out-of-order broadcasts.
- Convergence.SettledClientsAgree: assumes that no edit is sent before init, that no whole document is taken while words wait with nothing in flight, and that the server's own steps lead between documents the editor shows as they are; `Divergence` shows that each failing breaks it, and exactly when.
- What else the editor fills in of a document it is given, such as default attributes, which is within what any function may show; and what its plugins append to a transaction, whose steps are then not all sent.
- Divergence.ReplaceUnderPendingExactly: what the client shows is stated when nothing else is on its way to it; otherwise its words are refused.
- DocumentStore.AiEditIsHonest: for ranges that split a surrogate pair `RewriteAgreesExactly` says when it holds.
- The wall clock: keys expire, runners are taken for dead and generations time out at any step; only the budget's day and timeout read a clock.
- The buffer's expiry before a generation has ended: its lifetime is longer than a generation's time limit.
- Dates at which a transaction began: a row ends on the day of the step that ends it.
- The wording of prompts, fences and sources, and contexts for modes other than rewriting.
- Ranges of several blocks in `SelectionReadsAsEdited`: the text shown for them has prefixes and separators that the blocks do not.
- What a browser makes of marked HTML beyond tags and the four entities.
- AiBudget.BudgetHolds: a cap or a daily limit of zero or less is off, and then there is no bound to state.
- Passages.ChunkText: order between drafts is stated for the spans they come from, since a halved passage can start after the next span does.
- AiStreamLaws.GapFree: a prefix and not all of the tokens, since a reader may hear of the end from the row after one read of at most five hundred entries.
- TableRepair.ReadTableNeedsNoRepair: Word rows that skip columns at their start are not covered, as they can need repair.
