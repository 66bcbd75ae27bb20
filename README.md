# Terminal line editor and command dispatcher

This project models the logic inside the in-browser terminal widget of
`src/components/Terminal.tsx`: the `onKey` handler that edits the input
line and walks the command history, and `handleCommand`, which classifies
a submitted line and writes the canned response for `help`, `clear`,
`echo` and `date`. The terminal display is an append-only log of abstract
events (`Display.Effect`): `Write`, `WriteLine`, `NewLine`, `EraseChar`,
`EraseLine`, `Prompt`, `ClearDisplay` and `WriteDate`.

Files and modules:

- `JsText.dfy` (module `JsText`): the ECMAScript string operations the
  dispatcher uses: `trim` (with the full WhiteSpace and LineTerminator set),
  `toLowerCase` (ASCII letters only), `startsWith` and `slice(n)`, with the
  lemmas that characterise `trim`.
- `Commands.dfy` (modules `Display` and `Commands`): the display events,
  `clearCurrentLine`, and `handleCommand` as the pure functions `Dispatch`
  (which branch a line takes) and `HandleCommand` (what it writes).
- `LineEditor.dfy` (module `LineEditing`): the editor state
  (`currentLine`, `history`, `historyIndex`), the specification `Step` of
  one key event and `Run` of a sequence of them, and the class `LineEditor`,
  whose fields are the handler's closure variables and whose `OnKey` method
  is proved to agree with `Step`.
- `EditorProperties.dfy` (module `EditorProperties`): what sequences of key
  events do — typing, history walking, submission.

Behaviour the code has and the model keeps:

- Enter records the line even when it is blank or all white space;
  handleCommand then writes only the prompt (`BlankLineRecorded`).
- The `echo` payload is `command.slice(5)` of the line as typed, while the
  prefix test is on the trimmed, lower-cased line. Leading white space
  therefore shifts the payload: `  echo hi` echoes `o hi`
  (`IndentedEchoShiftsPayload`). And `echo` followed only by white space is
  trimmed to `echo`, which matches nothing and is reported as not found
  (`BareEchoIsNotFound`).
- Enter, Backspace, Up and Down act whatever modifier is held; every other
  key is appended to the line with its `key` text (which can be several
  characters, for instance the escape sequence of an arrow key) unless alt,
  ctrl or meta is held.
- When the history is not empty, Up from the live line replaces what was
  typed; with an empty history Up does nothing (`UpAtOldestIsNoOp`). Down on
  the live line or on the newest entry leaves an empty line, so text typed on
  the live line is lost (`DownReachesLive`, `BrowseAndReturn`).

## Model

| member | source | states |
|---|---|---|
| Display.ClearCurrentLine | src/components/Terminal.tsx:118-121 | clearCurrentLine: erase the displayed line and redraw the prompt; its use is stated by `HistoryPrevious` and `HistoryNext` |
| JsText.Trim | src/components/Terminal.tsx:96 | `trim`; its result is characterised by `TrimCore` and `TrimSplit` |
| JsText.Lower | src/components/Terminal.tsx:96 | `toLowerCase` on ASCII letters; characterised by `LowerSpec` |
| JsText.LowerSpec | src/components/Terminal.tsx:96 | lower-casing keeps the length, maps each capital A-Z to its own lower-case letter, changes nothing else, fixes exactly the text without capitals, and is idempotent |
| JsText.LowerIsCaseInsensitive | src/components/Terminal.tsx:96 | a line lower-cases to a lower-case keyword exactly when it has the keyword's length and each character is the keyword's or, for a letter, its capital |
| JsText.StartsWith | src/components/Terminal.tsx:106 | `startsWith`; used by `DispatchEchoBranch`, `EchoLineNormalizes` and `NotFoundIffUnmatched` |
| JsText.Slice | src/components/Terminal.tsx:107 | `slice(5)`; `EchoPayloadIsSuffix` shows the echo branch never takes its empty fallback |
| JsText.TrimCore | src/components/Terminal.tsx:96 | `trim` returns the part of the line between its leading and trailing white space: no longer than the line, white space at neither end, empty exactly when the line is all white space |
| JsText.TrimSplit | src/components/Terminal.tsx:96 | reference characterisation of `trim`: for any line split as white space, a core with no white space at its ends, white space, `trim` returns the core |
| JsText.TrimStartSuffix | src/components/Terminal.tsx:96 | the leading half of `trim` removes exactly a run of white space from the front and stops at the first other character |
| JsText.TrimEndPrefix | src/components/Terminal.tsx:96 | the trailing half of `trim` removes exactly a run of white space from the back and stops at the last other character |
| JsText.TrimIgnoresIndent | src/components/Terminal.tsx:96 | white space put in front of a line does not change its trimmed form |
| Commands.Normalize | src/components/Terminal.tsx:96 | `command.trim().toLowerCase()`, the form every branch is matched against; characterised by `NormalizeEmpty` and `NormalizeSplit` |
| Commands.Dispatch | src/components/Terminal.tsx:96-112 | which branch handleCommand takes; its branches are characterised by `SilentIffBlank`, `ClearOnlyForClear`, `KeywordIgnoresCaseAndSpace`, `DispatchEchoBranch`, `EchoPayloadIsSuffix` and `NotFoundIffUnmatched` |
| Commands.Output | src/components/Terminal.tsx:99-111 | the lines each branch writes, the help text literally |
| Commands.HandleCommand | src/components/Terminal.tsx:95-115 | handleCommand's whole output; `OnePromptLast` and `ClearOnlyForClear` state its properties and `SubmitLine` its use |
| Commands.SilentIffBlank | src/components/Terminal.tsx:96-112 | a line takes the no-output branch exactly when it is empty or all white space |
| Commands.EchoPayloadIsSuffix | src/components/Terminal.tsx:106-107 | whenever the echo branch is taken the untrimmed line has at least five characters and the payload is the line from its sixth character on |
| Commands.NotFoundQuotesLine | src/components/Terminal.tsx:110-111 | the not-found message is `Command not found: ` followed by the line exactly as typed, and such a line is never blank |
| Commands.OnePromptLast | src/components/Terminal.tsx:95-114 | whatever the branch, including the empty one, handleCommand's output ends with a prompt and holds no other prompt |
| Commands.ClearOnlyForClear | src/components/Terminal.tsx:104-105 | the display is cleared exactly when the trimmed, lower-cased line is `clear` |
| Commands.KeywordIgnoresCaseAndSpace | src/components/Terminal.tsx:96-109 | `help`, `clear` and `date` in any letter case and with any surrounding white space select their branch |
| Commands.DispatchEchoBranch | src/components/Terminal.tsx:106-107 | a line whose normalised form starts with `echo ` echoes `slice(5)` of the line as typed |
| Commands.NotFoundIffUnmatched | src/components/Terminal.tsx:96-111 | a line is reported as not found exactly when it is not blank, is not `help`, `clear` or `date` once normalised, and does not start with `echo ` |
| Commands.NormalizeSplit | src/components/Terminal.tsx:96 | the normalised form of white space, a core and white space is the lower-cased core |
| Commands.EchoLineNormalizes | src/components/Terminal.tsx:96-106 | `echo ` in any case followed by a payload with some non-white-space character passes the prefix test |
| Commands.EchoKeepsPayload | src/components/Terminal.tsx:106-107 | `echo ` in any case followed by a non-blank payload echoes that payload unchanged, trailing white space and case included |
| Commands.IndentedEchoShiftsPayload | src/components/Terminal.tsx:96-107 | with up to five characters of indentation before `echo `, the echoed text starts that many characters early |
| Commands.IndentedEchoExample | src/components/Terminal.tsx:106-107 | `  echo hi` echoes `o hi` |
| Commands.IndentedEchoLiteral | src/components/Terminal.tsx:106-107 | the line `  echo hi`, written as one literal, echoes `o hi` |
| Commands.BareEchoIsNotFound | src/components/Terminal.tsx:96-111 | `echo` followed only by white space is trimmed to `echo`, matches no branch and is reported as not found with the line as typed |
| LineEditing.Step | src/components/Terminal.tsx:49-85 | every key event keeps the cursor within `0..|history|`, and the history changes only on Enter, by the pre-submission line appended at its end |
| LineEditing.Submit | src/components/Terminal.tsx:53-58 | the Enter branch as a function of the state; `SubmitLine` is proved to match it |
| LineEditing.Erase | src/components/Terminal.tsx:59-63 | the Backspace branch; `EraseLast` is proved to match it |
| LineEditing.Previous | src/components/Terminal.tsx:64-70 | the Up branch; `HistoryPrevious` is proved to match it |
| LineEditing.Next | src/components/Terminal.tsx:71-80 | the Down branch; `HistoryNext` is proved to match it |
| LineEditing.Typed | src/components/Terminal.tsx:81-84 | the printable-key branch; `Type` is proved to match it |
| LineEditing.Run | src/components/Terminal.tsx:49-85 | over any sequence of key events the cursor stays within bounds and the old history remains a prefix of the new one |
| LineEditing.LineEditor.constructor | src/components/Terminal.tsx:45-47 | a fresh mount starts with an empty line, empty history and cursor 0, the display holding the first prompt |
| LineEditing.LineEditor.Emit | src/components/Terminal.tsx:54 | term.write and term.writeln: the display log grows by exactly what is written and nothing else changes |
| LineEditing.LineEditor.OnKey | src/components/Terminal.tsx:49-85 | the handler, run on its fields, produces exactly the state and display output that `Step` specifies, and keeps the cursor invariant |
| LineEditing.LineEditor.SubmitLine | src/components/Terminal.tsx:53-58 | Enter writes a line break and handleCommand's output, appends the line verbatim to the history, moves the cursor to the end and clears the line |
| LineEditing.LineEditor.EraseLast | src/components/Terminal.tsx:59-63 | Backspace on a non-empty line removes exactly its last character and erases it on screen; on an empty line it changes and writes nothing |
| LineEditing.LineEditor.HistoryPrevious | src/components/Terminal.tsx:64-70 | Up with the cursor above 0 moves it back one and loads that entry after clearing the displayed line; at 0 nothing at all changes |
| LineEditing.LineEditor.HistoryNext | src/components/Terminal.tsx:71-80 | Down clears the displayed line, then loads the next entry if one is left, and otherwise puts the cursor past the end with an empty line |
| LineEditing.LineEditor.Type | src/components/Terminal.tsx:81-84 | an unmodified key appends its text to the line and echoes it, leaving history and cursor alone |
| EditorProperties.HistoryGrowsByEnter | src/components/Terminal.tsx:56 | over any event sequence the history grows by exactly one entry per Enter and its earlier entries are unchanged |
| EditorProperties.TypingAppends | src/components/Terminal.tsx:81-84 | typing keys without modifiers makes the line the old line followed by the concatenation of the keys, each echoed once in order |
| EditorProperties.ModifiedKeysIgnored | src/components/Terminal.tsx:81 | keys typed with alt, ctrl or meta held change no state and write nothing |
| EditorProperties.TypeThenErase | src/components/Terminal.tsx:59-84 | typing one character and pressing Backspace restores the state exactly |
| EditorProperties.UpAtOldestIsNoOp | src/components/Terminal.tsx:64-70 | any number of Up presses at the oldest entry, or with an empty history, change nothing and write nothing |
| EditorProperties.UpWalksBack | src/components/Terminal.tsx:64-70 | `k` presses of Up move the cursor back `k` entries, clamped at the oldest, and load the entry under it |
| EditorProperties.DownWalksForward | src/components/Terminal.tsx:71-76 | `k` presses of Down move the cursor forward `k` entries while entries remain and load the entry under it |
| EditorProperties.DownReachesLive | src/components/Terminal.tsx:71-80 | enough presses of Down always end with the cursor exactly one past the newest entry and an empty line, never beyond |
| EditorProperties.BrowseAndReturn | src/components/Terminal.tsx:64-80 | `k` Ups then `k` Downs from the live line return the cursor to the end with an empty line, the typed text not restored |
| EditorProperties.SessionRecordsLines | src/components/Terminal.tsx:53-58 | after submitting any lines one by one from a fresh mount, the history is exactly those lines, verbatim and in order, blank ones included |
| EditorProperties.BlankLineRecorded | src/components/Terminal.tsx:53-58 | Enter on a blank line still records it and moves the cursor past it, writing only a line break and the prompt |

## Left out

- Construction of the xterm terminal, its theme, addons, `open` and `fit` (lines 14-35): foreign library calls; the display is an abstract event log.
- The welcome banner and the contents of the ANSI escape sequences (lines 38-39, 114, 119-120): cosmetic; the prompt is `Prompt`, the line erase is `EraseLine`, the CR-LF written on Enter is `NewLine` and the backspace-space-backspace sequence is `EraseChar`. The help text is kept literally.
- `new Date().toLocaleString()` (line 109): depends on the wall clock and the locale; the date branch writes the opaque event `WriteDate`.
- The window resize listener and the unmount cleanup (lines 88-92, 127-130): UI lifecycle plumbing.
- React refs, hooks and JSX (lines 6-11, 133-140) and `src/pages/Index.tsx`, which is static markup.
- Decoding of DOM key codes (lines 50-53): the input is the `KeyEvent` datatype, with Enter, Backspace, Up and Down already recognised.
- Strings are sequences of Unicode scalar values, not UTF-16 code units: Backspace on a line ending in a character outside the Basic Multilingual Plane removes the whole character where the source would remove half of its surrogate pair. `slice(5)` is unaffected: it is only applied to a line that starts with white space and ASCII `echo `, all of it single code units.
- JsText.Lower: lower-cases ASCII letters only, not the full Unicode case mapping of `toLowerCase`. No non-ASCII character lower-cases to a letter of `help`, `clear`, `echo` or `date`, so which branch a line takes is unaffected; what differs is only the lower-cased text, which the source never writes out.
