# Online code editor: execution terminal, comment toggle and project file store

This project models two parts of a small web code editor.

1. The browser editor's logic, from `editor/static/editor/js/main.js`:
   - The interactive execution terminal. The Run/Stop button opens a WebSocket and sends a
     `run` frame when it opens. Streamed `output` chunks are shown verbatim. A chunk that does
     not end in a newline means the process waits for input. Keystrokes are then buffered and
     echoed, and Enter sends the line as an `input` frame. A `finished` event appends a status
     line once and closes the socket.
   - The Ctrl-/ comment toggle. It uses a comment marker per editor mode (`#`, `//`) or a
     wrapping pair (`/* */`, `<!-- -->`).
   - The language selector, which sets the mode, the displayed file name and the starting text.
   - The Download button. For the web mode it builds a single HTML page; otherwise it saves
     the editor's text under a file name.
2. The server's per-session project file store, from `editor/views.py`. It is a dict from
   file name to `{name, content, language}` that the views seed, list, create in, rename in,
   delete from, read and save into.

The terminal is written in two layers:
- A value `Terminal.Session` with one step function per event handler.
- A class `Terminal.TerminalSession` holding that state in fields: the page's globals, the
  language and code the current socket's callbacks captured, and logs of the frames sent and
  of the `close()` calls. Each of its methods is proved to perform exactly its step and to
  keep the invariant `Terminal.Inv`: the page is executing exactly while the socket is live,
  and waits for input only while executing.

Module `TerminalProperties` proves what the handlers guarantee about those steps. The comment
toggle changes the document, an array of lines, in place. Its methods are proved against
`Comments.ToggleSelections`. The file store is the class `ProjectFiles.ProjectSession`. It keeps
the dict and its keys in insertion order, because that order is the order `list_files` shows.

String operations follow JavaScript and Python: `startsWith`/`endswith`, `includes`, `indexOf`,
`replace` with a string pattern (first occurrence only), `slice(0, -1)` and `trim()` with the
ECMAScript whitespace set. They are in module `Strings`.

One would expect the close callback to clear the input buffer, but the code does not clear
`currentInputBuffer` there, so the model keeps the buffer on close.
`TerminalProperties.StaleInputPrefixesNextLine` shows the consequence: characters typed but not
sent before a run ends are sent in front of the next line typed in a later run.

## Model

| member | source | states |
|---|---|---|
| Strings.Trim | editor/static/editor/js/main.js:102 | `trim()`: the text between the leading and the trailing ECMAScript whitespace; described by TrimSplits, TrimOfPadded and TrimEmptyIffAllSpace |
| Strings.IndexOf | editor/static/editor/js/main.js:105 | the index found is an occurrence with none before it; there is none exactly when the text does not contain the pattern |
| Strings.ReplaceFirst | editor/static/editor/js/main.js:112 | without an occurrence the string is unchanged; with one, the length changes by the difference of pattern and replacement |
| Strings.RemoveAt | editor/static/editor/js/main.js:112 | replacing the first occurrence with nothing joins the text before and after it |
| Strings.RemovePrefix | editor/static/editor/js/main.js:105 | removing a pattern the string starts with leaves the rest of the string |
| Strings.DropLast | editor/static/editor/js/main.js:299-300 | `slice(0, -1)` keeps the empty string and otherwise drops exactly the last character |
| Strings.TrimSplits | editor/static/editor/js/main.js:102 | a string is its leading spaces, its trimmed text and its trailing spaces; the trimmed text neither starts nor ends with a space |
| Strings.TrimOfPadded | editor/static/editor/js/main.js:102 | trimming spaces from around text that neither starts nor ends with a space gives that text |
| Strings.TrimIgnoresPadding | editor/static/editor/js/main.js:112 | spaces added around a string do not change its trimmed form |
| Strings.TrimAfterSpace | editor/static/editor/js/main.js:112 | one leading space does not change the trimmed form |
| Strings.TrimEmptyIffAllSpace | editor/static/editor/js/main.js:359 | `code.trim()` is empty exactly when the code is whitespace only |
| Comments.SyntaxForMode | editor/static/editor/js/main.js:88-95 | only `css` and `xml` wrap the line; every marker of the table, and the `//` default, is non-empty and neither starts nor ends with a space, and closing markers contain no space |
| Comments.IsCommented | editor/static/editor/js/main.js:102-111 | the tests on the trimmed line: it starts with the marker, or starts with the opening and ends with the closing marker; described by LeadingMarkerFound and WrappedLineIsCommented |
| Comments.ToggleLine | editor/static/editor/js/main.js:101-116 | with a well-formed syntax, a line that was not commented comes out commented; UncommentStripsMarker, LineCommentRoundTrip and BlockCommentRoundTrip state what uncommenting gives |
| Comments.NoMarkerInLead | editor/static/editor/js/main.js:111-112 | a marker starting with a non-space character does not occur among a line's leading spaces |
| Comments.LeadingMarkerFound | editor/static/editor/js/main.js:111-112 | when the trimmed line starts with the marker, `indexOf` finds the marker right after the leading spaces |
| Comments.RemoveLeadingMarker | editor/static/editor/js/main.js:112 | `replace` removes that leading marker, leaving the leading spaces, the rest of the text and the trailing spaces |
| Comments.UncommentStripsMarker | editor/static/editor/js/main.js:111-113 | uncommenting a line gives the trimmed text after its leading marker |
| Comments.CommentedLineStartsWithMarker | editor/static/editor/js/main.js:111-115 | a line commented with `symbol + " "` is seen as commented on the next toggle |
| Comments.RemoveFrontMarker | editor/static/editor/js/main.js:105 | removing the first occurrence of a marker put in front of some text gives back the text |
| Comments.UncommentCommentedLine | editor/static/editor/js/main.js:111-115 | toggling a commented line gives back the original line, trimmed |
| Comments.LineCommentRoundTrip | editor/static/editor/js/main.js:110-117 | toggling an uncommented line twice gives back the line, trimmed |
| Comments.CloseMarkerOnlyAtEnd | editor/static/editor/js/main.js:105 | in a wrapped line whose text has no closing marker, the first closing marker is the one at the end |
| Comments.SolidEndsUntrimmed | editor/static/editor/js/main.js:102-104 | text that starts and ends with a solid marker is its own trimmed form |
| Comments.WrappedLineIsCommented | editor/static/editor/js/main.js:103-109 | a line wrapped in the block markers is seen as commented, and its opening marker is found at index 0 |
| Comments.DropClose | editor/static/editor/js/main.js:105 | removing the closing marker from `" " + line + " " + close` leaves `" " + line + " "` |
| Comments.UnwrapWrapped | editor/static/editor/js/main.js:105 | the two `replace` calls remove exactly the wrapping markers |
| Comments.BlockCommentRoundTrip | editor/static/editor/js/main.js:103-109 | wrapping and toggling again gives the line with one space on each side, when the line does not contain the closing marker |
| Comments.ToggleRange | editor/static/editor/js/main.js:100-118 | toggling one selection keeps the number of lines |
| Comments.ToggleSelections | editor/static/editor/js/main.js:97-119 | toggling the selections in order keeps the number of lines |
| Comments.UncoveredLinesKept | editor/static/editor/js/main.js:97-119 | a line no selection covers is unchanged |
| Comments.CoveredOnceToggledOnce | editor/static/editor/js/main.js:97-119 | a line exactly one selection covers is toggled exactly once |
| Comments.ToggleLines | editor/static/editor/js/main.js:100-118 | the loop over a selection's lines replaces exactly those lines, in place, by their toggled text |
| Comments.ToggleComment | editor/static/editor/js/main.js:86-120 | Ctrl-/ leaves the document equal to toggling every selection in order with the syntax of the editor's mode |
| Terminal.Initial | editor/static/editor/js/main.js:25-28 | on page load there is no socket, nothing is sent, the buffer is empty and the invariant holds |
| Terminal.KeyDownStep | editor/static/editor/js/main.js:289-305 | the key step; described by KeyIgnoredUnlessWaiting, PrintableKeyEchoed, BackspaceRemovesOne, EnterSendsBuffer and NamedKeysIgnored |
| Terminal.CloseStep | editor/static/editor/js/main.js:364 | `socket.close()`: an open or connecting socket starts closing, and the call is counted |
| Terminal.ClickRunStep | editor/static/editor/js/main.js:346-366 | the click step; described by ClickStops, StopOnlyWhileExecuting, ClickWithoutRun and ClickStartsRun |
| Terminal.StartRunStep | editor/static/editor/js/main.js:370-378 | the start of a run; described by ClickStartsRun |
| Terminal.OpenStep | editor/static/editor/js/main.js:380-383 | the open callback; described by RunThenOpen |
| Terminal.ChunkStep | editor/static/editor/js/main.js:387-394 | an output chunk; described by ChunkAppendedAndWaiting |
| Terminal.FinishStep | editor/static/editor/js/main.js:395-401 | the `finished` event; described by FinishedShowsStatus and FinishedStatusOnce |
| Terminal.MessageStep | editor/static/editor/js/main.js:385-401 | the message callback, chunk first and then the event; described by EmptyFrameIgnored and NothingSentAfterFinished |
| Terminal.CloseEventStep | editor/static/editor/js/main.js:404-411 | the close callback; described by CloseEndsRun |
| Terminal.ErrorStep | editor/static/editor/js/main.js:413-417 | the error callback; described by ErrorOnlyReports |
| Terminal.ClearStep | editor/static/editor/js/main.js:228 | the Clear button empties the output; HandlersKeepInv shows it keeps the invariant |
| Terminal.TerminalSession.constructor | editor/static/editor/js/main.js:25-28 | the page's globals start in the initial state |
| Terminal.TerminalSession.KeyDown | editor/static/editor/js/main.js:288-307 | the terminal's keydown handler performs the key step and keeps the invariant |
| Terminal.TerminalSession.CloseSocket | editor/static/editor/js/main.js:363-365 | `socket.close()` makes an open or connecting socket closing and keeps the invariant |
| Terminal.TerminalSession.RunWithWebSocket | editor/static/editor/js/main.js:370-378 | starting a run shows the connecting line, marks the page executing and creates a connecting socket for the language and code |
| Terminal.TerminalSession.ClickRun | editor/static/editor/js/main.js:346-367 | the Run/Stop handler performs the click step and keeps the invariant |
| Terminal.TerminalSession.OnOpen | editor/static/editor/js/main.js:380-383 | the open callback sends the `run` frame and shows the executing line |
| Terminal.TerminalSession.OnMessage | editor/static/editor/js/main.js:385-402 | the message callback performs the message step and keeps the invariant |
| Terminal.TerminalSession.OnClose | editor/static/editor/js/main.js:404-411 | the close callback ends execution and the wait for input |
| Terminal.TerminalSession.OnError | editor/static/editor/js/main.js:413-417 | the error callback appends the error line |
| Terminal.TerminalSession.ClearOutput | editor/static/editor/js/main.js:228 | the Clear button empties the output and nothing else |
| TerminalProperties.KeyIgnoredUnlessWaiting | editor/static/editor/js/main.js:289 | a key changes nothing unless the socket is open and the terminal waits for input |
| TerminalProperties.PrintableKeyEchoed | editor/static/editor/js/main.js:302-305 | a one-character key is added to the buffer and echoed; nothing else changes |
| TerminalProperties.BackspaceRemovesOne | editor/static/editor/js/main.js:297-301 | Backspace on an empty buffer changes nothing; otherwise it removes the last buffered and the last shown character only |
| TerminalProperties.BackspaceUndoesKey | editor/static/editor/js/main.js:297-305 | Backspace after a printable key restores the state before the key |
| TerminalProperties.EnterSendsBuffer | editor/static/editor/js/main.js:292-296 | Enter sends one `input` frame with the buffer and a newline, empties the buffer, stops waiting and echoes the newline |
| TerminalProperties.NamedKeysIgnored | editor/static/editor/js/main.js:302 | named keys other than Enter and Backspace change nothing |
| TerminalProperties.TypedTextEchoed | editor/static/editor/js/main.js:302-305 | typed text lands in order in both the buffer and the output, and nothing is sent |
| TerminalProperties.TypedLineSent | editor/static/editor/js/main.js:292-305 | a line typed at an empty prompt and confirmed is sent as exactly that line plus a newline |
| TerminalProperties.KeysSendOnlyInput | editor/static/editor/js/main.js:288-307 | the keyboard sends nothing, or one `input` frame while the terminal accepts keys |
| TerminalProperties.CrLfEndsWithLf | editor/static/editor/js/main.js:390 | a chunk ending in CR LF also ends in LF, so the second test never decides |
| TerminalProperties.ChunkAppendedAndWaiting | editor/static/editor/js/main.js:387-394 | a non-empty chunk is appended verbatim; afterwards the page waits exactly when it already did or the chunk lacks a final newline |
| TerminalProperties.EmptyFrameIgnored | editor/static/editor/js/main.js:385-402 | an empty or missing chunk with no `finished` event changes nothing |
| TerminalProperties.StatusLineShowsMarker | editor/static/editor/js/main.js:396-397 | after the status line is appended the output contains the status marker |
| TerminalProperties.FinishedShowsStatus | editor/static/editor/js/main.js:395-401 | after `finished` the output shows the marker, the line was added only if absent, and `close()` was called once |
| TerminalProperties.FinishedStatusOnce | editor/static/editor/js/main.js:395-398 | a second `finished` adds nothing to the output |
| TerminalProperties.NothingSentAfterFinished | editor/static/editor/js/main.js:395-401 | after `finished` closes an open socket, no key and no click sends a frame |
| TerminalProperties.ClickStops | editor/static/editor/js/main.js:347-351 | while executing on an open socket the button sends exactly one `stop` frame |
| TerminalProperties.StopOnlyWhileExecuting | editor/static/editor/js/main.js:346-351 | the button sends a frame only while executing on an open socket |
| TerminalProperties.ClickWithoutRun | editor/static/editor/js/main.js:352-362 | otherwise, the web language or whitespace-only code changes nothing |
| TerminalProperties.ClickStartsRun | editor/static/editor/js/main.js:363-378 | otherwise a live socket is closed first and a new connecting run starts, keeping the input buffer and wait flag |
| TerminalProperties.RunThenOpen | editor/static/editor/js/main.js:366-383 | a run that connects sends exactly one `run` frame with the click's language and code |
| TerminalProperties.CloseEndsRun | editor/static/editor/js/main.js:404-411 | the close event ends execution and the wait for input, and leaves buffer, output and frames as they were |
| TerminalProperties.ErrorOnlyReports | editor/static/editor/js/main.js:413-417 | the error event only appends the error line |
| TerminalProperties.HandlersKeepInv | editor/static/editor/js/main.js:288-418 | every handler keeps the invariant when the socket delivers its events in an order it may |
| TerminalProperties.StaleInputPrefixesNextLine | editor/static/editor/js/main.js:404-411 | characters typed but not sent before a close are sent in front of the next line of a later run |
| EditorTables.WebPage | editor/static/editor/js/main.js:158 | the downloaded page; described by WebPageOrder |
| EditorTables.StartingText | editor/static/editor/js/main.js:325 | a non-empty demo snippet for the language is shown, otherwise a `# <lang>` placeholder |
| EditorTables.ViewFor | editor/static/editor/js/main.js:310-330 | `web` shows the web editors; any language not among the four is shown as Python in `script.py` |
| EditorTables.DownloadExtension | editor/static/editor/js/main.js:163-164 | the four languages use their own extension (`py` for Python); any other language uses `txt` |
| EditorTables.Download | editor/static/editor/js/main.js:152-167 | the web mode saves `index.html` with the page; otherwise the text is saved under the shown name, or `code.<ext>` when it is empty |
| EditorTables.WebPageOrder | editor/static/editor/js/main.js:158 | the page holds the CSS, then the HTML, then the JavaScript, each verbatim and in that order |
| EditorTables.DisplayedNameHasDownloadExtension | editor/static/editor/js/main.js:320-323 | each of the four displayed names ends in the Download extension of its language and is used as the download name |
| EditorTables.DownloadNameNonEmpty | editor/static/editor/js/main.js:164 | a download always has a non-empty file name |
| ProjectFiles.LanguageFrom | editor/views.py:86-90 | the language of the first table entry at or after the start whose extension ends the name, or Python when none does |
| ProjectFiles.LanguageOf | editor/views.py:76-90 | the language of the first extension in table order that ends the name, or Python when none does |
| ProjectFiles.SkipUnmatched | editor/views.py:87-90 | entries that did not match can be skipped |
| ProjectFiles.DetectLanguage | editor/views.py:86-90 | the loop with its early `break` computes the language of the first matching extension |
| ProjectFiles.ExtensionShape | editor/views.py:76-84 | every extension is a dot followed by non-dot characters |
| ProjectFiles.ExtensionsDistinct | editor/views.py:76-84 | the table has no repeated extension |
| ProjectFiles.OnlyOneExtension | editor/views.py:76-90 | a name ending in one extension of the table ends in no other |
| ProjectFiles.ExtensionsUnambiguous | editor/views.py:76-90 | a name matches at most one table entry |
| ProjectFiles.LanguageByExtension | editor/views.py:76-90 | the order of the table does not matter: a name ending in an extension gets that extension's language |
| ProjectFiles.NewFile | editor/views.py:93-97 | the record `create_file` stores; its language is LanguageOf the name, described by LanguageByExtension |
| ProjectFiles.Without | editor/views.py:185 | deleting a key keeps exactly the other keys and no duplicates; a present key of a duplicate-free list removes one entry |
| ProjectFiles.WithoutKeepsOrder | editor/views.py:185 | deleting a key that occurs once cuts out exactly its position, so the other keys keep their order |
| ProjectFiles.Renamed | editor/views.py:142-145 | the dict after a rename; described by RenamedKeepsOthers and RenameRoundTrip |
| ProjectFiles.RenamedKeepsOthers | editor/views.py:142-145 | a rename to a fresh name keeps the number of files and every other record, and moves the record with its new name |
| ProjectFiles.RenameRoundTrip | editor/views.py:142-145 | renaming back restores the dict |
| ProjectFiles.WithoutAppend | editor/views.py:144-145 | adding the new key and then deleting the old one is deleting and then adding |
| ProjectFiles.RemoveKeepsConsistent | editor/views.py:185 | deleting a present file removes exactly one entry and keeps keys, order and record names in agreement |
| ProjectFiles.RenameKeepsConsistent | editor/views.py:142-145 | a rename keeps keys, order and record names in agreement |
| ProjectFiles.Saved | editor/views.py:239-247 | the dict after `save_file`; described by SaveLastWins |
| ProjectFiles.SaveLastWins | editor/views.py:239-247 | saving twice is the same as saving the second content once |
| ProjectFiles.ProjectSession.constructor | editor/views.py:13 | a new session holds no project |
| ProjectFiles.ProjectSession.GetFile | editor/views.py:199-225 | a missing or empty name is 400 "Filename required", no project is 404 "No files found", an unknown name is 404 "File not found", and otherwise the stored record is returned |
| ProjectFiles.ProjectSession.Index | editor/views.py:13-20 | only a session without a project is seeded, with exactly `main.py` |
| ProjectFiles.ProjectSession.ListFiles | editor/views.py:44-55 | one entry per stored file, in insertion order, with its language; an empty project is created when there is none |
| ProjectFiles.ProjectSession.CreateFile | editor/views.py:59-112 | an existing name is refused with 400 and nothing changes; otherwise one record, with its language from the extension, is added at the end and can be read back |
| ProjectFiles.ProjectSession.RenameFile | editor/views.py:116-156 | each error and its status, with the project unchanged; a rename of a present name to a fresh one moves the record and keeps the file count |
| ProjectFiles.ProjectSession.DeleteFile | editor/views.py:160-196 | each error and its status, with the project unchanged; a deletion removes exactly one file and never the last one |
| ProjectFiles.ProjectSession.SaveFile | editor/views.py:229-259 | only the content of an existing record changes, or a new Python record is added at the end; the saved content can be read back |

## Left out

- `editor/consumers.py` (the server side of the execution socket), `editor/models.py`, `editor/urls.py` and the `save_snippet` view are not part of this model.
- The DOM, toasts, icons, the button's label, focus and scrolling, the live web preview, themes, font sizes, local storage and auto-save are left out: they change nothing the handlers decide.
- JSON parsing is left out: inbound frames arrive already parsed, and request bodies are given as parsed fields. A body that fails to parse is not modelled; in `views.py` it ends in the generic 400 reply carrying the exception text.
- Request fields read with `.get()` and no default are `None` both when missing and when `null`. The model gives these views names of type `string` only, so it leaves out what `None` does:
  - `create_file` with a `null` name raises at `filename.endswith` and replies 400 with the exception text (a missing name is modelled: it is `untitled.py`).
  - `rename_file` with no `oldName` replies 404 "File not found". With no `newName` and a present `oldName` it succeeds, storing the record under the key `None` with the name `None`.
  - `delete_file` with no `filename` replies 404 "File not found".
  - `save_file` with no `filename` succeeds and adds a record under the key `None`.
  - `save_file` with a `null` content stores `None` as the content (a missing content is modelled: it is the empty string).
- The socket's own behaviour is represented by each callback's precondition. `OnOpen` runs only on a connecting socket, `OnMessage` only on an open one, and `OnClose` and `OnError` only on a live one.
- Terminal.TerminalSession.OnClose: callbacks of a socket that a new run has replaced are not modelled. In the code, such a late close callback also resets the new run's flags, but the model gives each callback the current socket.
- Strings are sequences of Unicode characters, not JavaScript's UTF-16 code units. `key.length === 1` and `slice(0, -1)` therefore differ from the code for characters outside the Basic Multilingual Plane.
- Comments.SyntaxForMode takes CodeMirror's mode name (`cm.getMode().name`). CodeMirror's mapping from a MIME type such as `text/x-csrc` to a mode name such as `clike` is not modelled.
- Comments.ToggleComment requires every selection to lie within the document. CodeMirror guarantees this, and the model does not represent positions outside the document.
- ProjectFiles.ProjectSession.ListFiles: the `'python'` default for a stored record without a language is left out, because every record the views store has a language.
- ProjectFiles.ProjectSession.DeleteFile does not restate, as `GetFile`, that the deleted name is no longer readable. This follows from its `files` postcondition.
- `request.session.modified` and session persistence across requests are left out; each method changes the session's project in place.
