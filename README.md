# web-task-manager — a Dafny model of the task submission path

web-task-manager is a small Node.js server plus one browser page. People fill in a task
form (title, description, priority, deadline, expected result, notes). The server checks
and escapes the fields, renders them as a Markdown record, and splices the record into the
inbox document under the `## 待处理任务` ("pending tasks") heading. It then announces the new
task to every connected WebSocket viewer. The page keeps a newest-first list of the last ten
tasks it submitted and shows whatever the server pushes.

This project models that path and proves what it promises:

- `js.dfy` (module `Js`) holds the JavaScript semantics the code relies on:
  - the `\s` character class, which is also what `trim` strips;
  - truthiness and `||`;
  - `String(v)`;
  - `.length` in UTF-16 code units.
- `tasks.dfy` (module `Tasks`) covers `validateTaskData`, `sanitizeInput`, the clean-up of the
  request body and `formatTaskForMarkdown`. The task id is a parameter.
- `inbox.dfy` (module `Inbox`) covers the regular expression `/(## 待处理任务\s*)(\*目前没有新任务\*)?/`
  and the `String.prototype.replace` call that splices in the record.
  - The match is the leftmost one, with a greedy `\s*` and an optional placeholder.
  - The replacement string's `$` patterns are expanded as ECMAScript's GetSubstitution
    defines them (`$$`, `$&`, `` $` ``, `$'`, `$1`, `$2`, two-digit references and literal
    fall-backs).
- `server.dfy` (module `Server`) has the class `Hub`. It holds the inbox text and the
  `clients` set, and has these methods:
  - the connection handler and its `close`/`error` handlers;
  - `broadcast`, which walks a snapshot and deletes an open client whose send throws;
  - the POST `/api/tasks` handler.
- `page.dfy` (module `Page`) covers public/script.js:
  - trimming and the required check on submit;
  - the handling of the server's answer;
  - `addTaskToHistory`, with the list capped at 10 and newest first;
  - `renderTaskHistory` and its priority-class map;
  - `handleWebSocketMessage`.
- `wrappers.dfy` holds `Option`.

Parameters stand in for what the code gets from outside:
- the task id (`Date.now()`) and the history timestamp;
- whether a WebSocket is open, and whether a send to it throws;
- `JSON.stringify` of a pushed event;
- the outbox text;
- the server's `success` answer.

The inbox file is the text of the `inbox` field. A missing file reads as the empty text, as
`readFile` creates it empty.

One behaviour of the code is modelled as written: the formatted record is passed as the
*replacement string* of `String.replace`. `sanitizeInput` does not escape `$`, so a `$`
pattern in a title, description, priority or any other field is expanded when the record is
spliced in. `Inbox.DoubledDollarCollapses` shows that `$$` in a record is stored as `$`.
`Server.SubmissionInsertedVerbatim` shows that a submission without `$` is stored exactly
as formatted.

## Model

| member | source | states |
|---|---|---|
| Js.IsWhitespace | server.js:244 | the characters `\s` matches and `trim` removes (public/script.js:33-38): tab, line feed, vertical tab, form feed, carriage return, space, no-break space, the Unicode space separators, the line and paragraph separators and the byte-order mark |
| Js.Utf16Length | server.js:86-90 | `.length` lies between the number of characters and twice that number |
| Js.BmpLength | server.js:86-90 | on text from the Basic Multilingual Plane, `.length` is the number of characters |
| Js.WhitespaceEnd | server.js:244 | the greedy `\s*` consumes whitespace up to the first non-whitespace character or the end |
| Js.WhitespaceStart | public/script.js:33-38 | the whitespace run ending at a position reaches back to a non-whitespace character or the start |
| Js.Truthy | server.js:82 | `undefined`, `null`, `false`, `0`, `NaN` and `''` are falsy, every other value truthy |
| Js.Or | server.js:231-234 | `v || alt` is `v` when it is truthy and `alt` otherwise, so it is truthy exactly when one of them is |
| Js.ToText | server.js:62-78 | `String(v)` as a template literal interpolates it: the text of a string or number, `undefined`, `null`, `true` or `false` |
| Js.LengthExceeds | server.js:86-90 | `v.length > limit` holds only for a string longer than the limit in UTF-16 units; for other truthy values `.length` is `undefined` and the comparison is false; `undefined` and `null` never get here, because the truthiness check on server.js:82 stops them first |
| Js.Trim | public/script.js:33-38 | `trim` is `trimStart` then `trimEnd`, and never lengthens the text |
| Js.TrimStart | public/script.js:33-38 | `trimStart` returns a suffix; only whitespace was cut; the result does not start with whitespace |
| Js.TrimEnd | public/script.js:33-38 | `trimEnd` returns a prefix; only whitespace was cut; the result does not end with whitespace |
| Js.TrimSlice | public/script.js:33-38 | `trim` yields a slice of the input with only whitespace cut at either end, and no whitespace at its ends |
| Js.TrimEmptyIff | public/script.js:33-42 | trimming gives the empty text exactly when the input is all whitespace |
| Tasks.Validate | server.js:81-95 | valid iff title and description are truthy and within 200 / 2000 UTF-16 units; a missing field is reported first, then the title length, then the description length |
| Tasks.LengthLimits | server.js:86-94 | for non-empty BMP strings, exactly 200 title characters and 2000 description characters pass and one more is rejected; an over-long title gets the title message |
| Tasks.EscapeChar | server.js:100-106 | each of `<`, `>`, `"`, `'`, `&` becomes an entity running from `&` to `;`; any other character is kept; no markup character comes out |
| Tasks.Escape | server.js:97-109 | the escaped text holds no `<`, `>`, `"` or `'` and is never shorter than the input |
| Tasks.EscapeLength | server.js:99-108 | each `<`, `>` adds 3 characters, `"` adds 5, `'` and `&` add 4 |
| Tasks.EscapePlain | server.js:99-108 | text without any of the five special characters is left unchanged |
| Tasks.EscapeAppend | server.js:99-108 | escaping is one pass, character by character: escaping a concatenation is concatenating the escapes |
| Tasks.UnescapeEntity | server.js:100-106 | decoding an entity produced for one character gives back that character, whatever follows |
| Tasks.UnescapeEscape | server.js:99-108 | decoding the escaped text gives back the input: every other character is unchanged and inserted `&` is not escaped again |
| Tasks.EscapeKeepsDollar | server.js:99-108 | escaping neither adds nor removes `$` |
| Tasks.Sanitize | server.js:97-109 | a non-string gives the empty text; a string is escaped so that no markup character is left and decoding gives it back |
| Tasks.Clean | server.js:228-235 | the clean-up block: sanitised title and description, `priority || '中'`, `deadline || ''`, and sanitised `expected || ''` and `notes || ''`; its guarantees are those of `Tasks.CleanSpec` |
| Tasks.CleanSpec | server.js:228-235 | title, description, expected and notes are escaped and hold no markup character (a non-string gives the empty text); priority defaults to `中` and deadline to the empty text, both unescaped |
| Tasks.ConcatWithout | server.js:62-78 | a character absent from every chunk is absent from the record |
| Tasks.FieldParts | server.js:64-75 | the record between the title line and the closing rule, in chunks: the priority, deadline and status lines, then the description, expected-result and notes blocks, each heading followed by its rendered value |
| Tasks.FormatTask | server.js:56-79 | the record starts with a newline and the title line `### 任务 <id> - <title>` and ends with `---` and a newline |
| Tasks.FormatLayout | server.js:56-79 | the whole record, line by line: a blank line, `### 任务 <id> - <title>`, `**优先级**: <priority>`, `**截止时间**: <deadline or 未设定>`, `**状态**: 待处理`, a blank line, `**任务描述**:` and the description, a blank line, `**预期结果**:` and the expected result or `无特殊要求`, a blank line, `**备注**:` and the notes or `无`, a blank line, `---` and a final line break |
| Tasks.FormatDefaults | server.js:58-60 | a falsy deadline, expected or notes renders as `未设定`, `无特殊要求` or `无` |
| Tasks.FieldPartsDollarFree | server.js:62-78 | the fixed labels of the record hold no `$`, so only the rendered values can bring one in |
| Tasks.FormatDollarFree | server.js:56-79 | a record built from fields without `$` holds no `$` |
| Inbox.FindFrom | server.js:244-245 | the leftmost occurrence of the heading at or after a position, or none |
| Inbox.MatchPending | server.js:244-245 | a match lies within the text and starts where the heading occurs |
| Inbox.MatchPendingFinds | server.js:244-245 | no match exactly when the heading occurs nowhere; otherwise the leftmost match, with greedy whitespace and the optional placeholder |
| Inbox.FirstMatchUnique | server.js:244-245 | the leftmost match is unique |
| Inbox.Capture | server.js:249 | `match[1]` is the heading with the whitespace after it; `match[2]` is the `*目前没有新任务*` placeholder, or the empty text when it is absent |
| Inbox.Substitute | server.js:250 | GetSubstitution on the replacement string: `$$` gives `$`, `$&` the match, `` $` `` and `$'` the text before and after it, `$1`/`$2` (and two-digit forms up to 2) the captures, anything else is literal; its laws are `SubstituteLiteral`, `SubstituteLiteralPrefix` and `SubstituteDoubledDollar` |
| Inbox.Replace | server.js:250 | `replace` with a non-global regex: the text before and after the match is kept and the match is replaced by the expanded replacement string |
| Inbox.InsertTask | server.js:244-254 | without a heading the record is appended; with one, the matched span is replaced by the heading part plus the record, `$` patterns expanded |
| Inbox.SubstituteLiteral | server.js:250 | a replacement string without `$` is used literally |
| Inbox.SubstituteLiteralPrefix | server.js:250 | a `$`-free prefix of the replacement string is copied unchanged |
| Inbox.HeadingHasNoDollar | server.js:244-249 | the captured heading and whitespace hold no `$` |
| Inbox.ReplaceAfterCapture | server.js:249-250 | replacing the match by its `$`-free first capture plus the record keeps the capture and expands only the record |
| Inbox.InsertExpands | server.js:244-250 | with the heading present, the record with its `$` patterns expanded lands right after the heading and its whitespace, and the text after the matched span follows |
| Inbox.InsertUnderHeading | server.js:247-250 | a `$`-free record goes right after the heading and its whitespace; the placeholder, if matched, is dropped |
| Inbox.InsertKeepsSurroundings | server.js:244-250 | text before the heading and after the matched span is unchanged; the heading and whitespace are kept; the record follows them; the placeholder is gone |
| Inbox.OccursWithinPrefix | server.js:244-245 | whether the heading occurs at a position depends only on the text around that position |
| Inbox.SpliceFirstMatch | server.js:244-250 | after splicing a record that opens with a newline and `#`, the first match is the same heading, its whitespace taking in that newline, with no placeholder |
| Inbox.MatchAfterInsert | server.js:244-250 | after an insertion, the heading is found again at the same place and its whitespace now ends at the record's first newline |
| Inbox.InsertAfterInsert | server.js:244-250 | a second insertion lands right after the newline that opens the first record |
| Inbox.NewestFirst | server.js:244-250 | of two records inserted one after the other, the later one comes first, right under the heading |
| Inbox.SpliceAfterFirst | server.js:244-250 | text placed after the newline that opens a record ends up between that newline and the rest of the record |
| Inbox.SubstituteDoubledDollar | server.js:250 | between `$`-free text, `$$` in the replacement string expands to one `$` |
| Inbox.DoubledDollarCollapses | server.js:249-250 | a record holding `$$` is stored with a single `$` |
| Server.Without | server.js:162-170 | after `delete`, the connection is absent and a connection that was not there leaves the set unchanged |
| Server.WithoutAppend | server.js:182 | deleting from a concatenation deletes from each part |
| Server.WithoutSubset | server.js:162-170 | after `delete`, exactly the other registered connections remain |
| Server.WithoutKeepsDistinct | server.js:162-170 | deleting keeps the set free of duplicates |
| Server.Kept | server.js:177-182 | `broadcast` keeps every connection except an open one whose `send` threw |
| Server.Survivors | server.js:174-186 | every connection left after `broadcast` was registered and was not an open one whose send threw, and there are no more of them than before |
| Server.Sends | server.js:176-179 | every send goes to a registered open connection and carries the payload serialised once |
| Server.SurvivorsMembership | server.js:176-185 | a connection survives exactly when it was registered and is not open-and-throwing; a connection that is not open is never removed |
| Server.SurvivorsDistinct | server.js:176-185 | the surviving connections are still free of duplicates |
| Server.SendCountAppend | server.js:176-179 | sends to a connection over two stretches add up |
| Server.SendsOncePerOpenClient | server.js:175-185 | each open registered connection receives exactly one send and every other one none |
| Server.SecondOfThreeFails | server.js:174-186 | three open viewers whose second send throws: all three are sent the message and the first and third stay |
| Server.SendsThree | server.js:176-180 | over three connections the sends are those to the first, then the second and the third when open |
| Server.SurvivorsThree | server.js:176-185 | over three connections the survivors are those of the first, then the second and the third when kept |
| Server.DistinctNotBefore | server.js:44 | a connection of a duplicate-free set does not occur before its own position |
| Server.DistinctNotAfter | server.js:44 | a connection of a duplicate-free set does not occur after its own position |
| Server.SendsStep | server.js:176-180 | one step of the walk sends the payload to that connection exactly when it is open |
| Server.SendsSnoc | server.js:176-180 | a connection visited last is sent the payload exactly when it is open |
| Server.SurvivorsSnoc | server.js:176-185 | a connection visited last survives exactly when it is kept |
| Server.KeptStep | server.js:176-184 | a step of the walk over a connection that is not open, or whose send succeeds, leaves the set as it is |
| Server.KeptSplice | server.js:176-184 | a kept connection stays where it was in the set |
| Server.DroppedStep | server.js:176-184 | a step of the walk over an open connection whose send throws deletes exactly that connection |
| Server.DroppedSplice | server.js:182 | deleting a dropped connection, which occurs once, leaves the survivors so far followed by the connections not yet visited |
| Server.WithoutOnly | server.js:182 | deleting a connection that occurs once removes just that occurrence |
| Server.SubmissionInsertedVerbatim | server.js:228-254 | a valid submission whose fields hold no `$` is stored exactly as formatted: under the heading, dropping the placeholder, or appended |
| Server.Hub.constructor | server.js:44 | the server starts with no connections |
| Server.Hub.Connect | server.js:147-160 | the connection is added if new, and it is sent the outbox text as a `status-update` |
| Server.Hub.Disconnect | server.js:162-170 | the connection is deleted, nothing else changes, and the set stays duplicate-free |
| Server.Hub.Broadcast | server.js:174-186 | the sends and the connections left are those of `Sends` and `Survivors` on the set as it was when the walk began |
| Server.Hub.PostTask | server.js:212-279 | an invalid body gets 400 with its message and nothing changes; a valid one is cleaned, formatted and spliced into the inbox, broadcast as `task-added`, and answered with success |
| Page.ReadForm | public/script.js:31-39 | priority and deadline are taken as they are; the four free-text fields are trimmed and never longer than the input |
| Page.DecideSubmit | public/script.js:41-45 | the form is refused with the error toast exactly when the title or description is all whitespace; otherwise the trimmed task is posted, with a non-empty title and description |
| Page.AsBody | public/script.js:59-64 | the posted JSON body: every field of the task object arrives as a string |
| Page.NonEmptyBody | server.js:81-94 | a body of non-empty strings is never refused as missing a field; on BMP text it is accepted exactly when within 200 / 2000 characters |
| Page.PostedPassesRequiredCheck | public/script.js:41-48 | a posted task is never rejected by the server for missing fields; on BMP text it is accepted exactly when within the 200 / 2000 limits |
| Page.Take | public/script.js:183-185 | `slice(0, n)` is a prefix of length at most `n` |
| Page.PushCapped | public/script.js:180-185 | the new entry is at index 0, then the previous entries in order, and the length is the old length plus one, at most 10 |
| Page.Reversed | public/script.js:173-185 | the reference order for repeated `unshift`, used by `PushAllNewestFirst`: the entries newest first; reversing keeps the length |
| Page.PushAll | public/script.js:173-185 | adding no entries leaves the list as it is; adding some leaves the old length plus their number, at most 10 |
| Page.TakeAppend | public/script.js:183-185 | capping before or after prepending gives the same capped list |
| Page.PushAllNewestFirst | public/script.js:173-185 | adding tasks one by one leaves the newest ten first, most recent at the front, then the earlier list |
| Page.PriorityClass | public/script.js:198 | `high` exactly for `高`, `medium` exactly for `中`, `low` for anything else |
| Page.RenderEntry | public/script.js:197-206 | an item shows the task's title, description, priority, timestamp and priority class, and a deadline span exactly when the deadline is non-empty |
| Page.RenderItems | public/script.js:197-207 | one item per entry, in list order |
| Page.RenderHistory | public/script.js:191-210 | the placeholder exactly for an empty list, otherwise one item per entry in order |
| Page.Dispatch | public/script.js:122-128 | `status-update` shows its content, `task-added` shows the queued notice, and any other type does nothing |
| Page.TaskPage.constructor | public/script.js:2-3 | the page starts with an empty history and an empty status panel |
| Page.TaskPage.AddTaskToHistory | public/script.js:173-188 | the history becomes `PushCapped` of the old one and the rendered view follows it |
| Page.TaskPage.Submit | public/script.js:27-45 | a blank title or description shows the error toast and sends nothing; otherwise the trimmed task is sent |
| Page.TaskPage.SubmitResponded | public/script.js:47-80 | only a truthy `success` shows the success toast and adds the task to the history; any other answer or a failed request shows the failure toast and leaves the history alone |
| Page.TaskPage.HandleWebSocketMessage | public/script.js:122-145 | the state changes as `Dispatch` says, and nothing else changes |

## Left out

- File I/O. `readFile`, `writeFile` and `appendToFile` are left out; the inbox is a string field, and `appendToFile` is never called. Read and write failures, and the 500 answer they lead to, are not modelled.
- The read-then-write race between concurrent POST requests.
- `watchOutboxFile`: it polls the file system and retries on a timer.
- `generateTaskId`, `Date.now()` and `toLocaleString`: the id and the timestamp are parameters. Nothing is claimed about their uniqueness.
- HTTP plumbing: Express, CORS, security headers, the 404 and 500 handlers, `/health`, `/api/status`, and GET `/api/tasks`, which always answers with an empty list.
- WebSocket transport. `readyState`, `send` and `JSON.stringify`/`JSON.parse` are parameters or opaque strings.
- Server.Hub.Connect: the case where reading the outbox throws is not modelled. There the greeting is not sent, and the connection still stays.
- Page.Dispatch: the content of a `status-update` is taken to be a string, so other JSON values are not modelled. A message that fails to parse is only logged.
- Arrays and objects as request field values. `JsValue` has no such case, so their `.length` and `String()` are not modelled.
- The page's DOM work is left out:
  - `escapeHtml`: the rendered history is a list of item records, not HTML text;
  - the toast timer;
  - the reconnect timer and connection-status display;
  - `taskForm.reset()`;
  - `setupDateDefault`.
- `loadInitialData`: it can replace the history with the server's list, which is always empty.
- Page.TaskPage.constructor: the status panel is taken to start empty and the history view to start as the empty-list placeholder. Their first contents come from the HTML page, which is not part of this model.
- Strings holding a lone surrogate (for example the JSON text `"\ud800"`) are not modelled, because a Dafny string cannot hold one. `Utf16Length` counts only whole code points.
- The thrown error's text on a failed submission is left out. It is only logged; the toast always shows the fixed failure message.
