# PopupChatKit core, modelled in Dafny

PopupChatKit is a chat assistant with two parts. One is a Python backend that stores conversations in SQLite and streams a language model's answer as newline-delimited JSON frames. The other is an embeddable JavaScript widget that sends the page's text and the user's question, then shows the streamed answer. This project models the logic of both parts and proves properties of it:

- **`Store`** (`database.dfy`) models the `Database` class of `backend/database.py` as a Dafny `class`. Its fields are the six tables:
  - sessions
  - the raw message journal
  - the formatted chat log
  - user config
  - draw history
  - the web cache

  Each `async` method is one method of the class. That method's `ensures` gives the new state of the tables it writes, or the rows a query returns. A ghost `log` records every statement that reached `commit` (`_execute` with `commit=True`), in order. The single-worker executor only serves to put these statements in a total order, and calling the methods one after another gives the same order. The clock `now` is a field, and `Tick` advances it. The store keeps these invariants:
  - session ids are unique;
  - every journal and chat row belongs to an existing session, because the foreign keys are switched on;
  - row ids increase;
  - time stamps never run ahead of the clock.
- **`Ordering`** (`ordering.dfy`) models `ORDER BY … DESC LIMIT ?`.
- **`Agents`** (`agents.dfy`) models `to_chat_message` and `get_agent` over a closed datatype of agent-protocol messages.
- **`JsonFrames`** (`frames.dfy`) models the frames the handlers write: `json.dumps` with `ensure_ascii`, then a line feed.
- **`Server`** (`server.dfy`) models the handlers of `backend/main.py`. The language model is a function parameter, and time stamps are parameters too. The handlers covered are:
  - the streaming chat turn (`chat_stream.stream_messages`);
  - the non-streaming turn (`post_chat_message`);
  - `extract_web_content`;
  - the two streaming web tasks (`summarize_web`, `web_to_json`);
  - what `generate_image` stores once it has an image.
- **`JsText`** (`jstext.dfy`) models JavaScript strings as sequences of UTF-16 code units, with `split('\n')`, `join`, `trim`, `toLowerCase` and `includes`.
- **`FrameParse`** (`frameparse.dfy`) is the widget's reading of one frame line. It is proved to invert the server's encoding of a `content` frame.
- **`Popup`** (`popup.dfy`) models the widget of `frontend/embedded/popup.js`. It has the page-text cleaning, the keyword tests and their priority, and the widget state as a `class` (`isOpen`, `selectedText`, `currentSessionId`, the pending session creation). It also has `sendMessage` up to the request it sends, and the loop that rebuilds lines from network chunks.
- **`Transport`** (`transport.dfy`) connects the two sides. It proves that whatever chunks the network cuts the stream into, the widget ends up showing the last snapshot. That snapshot is also the text the chat turn stores for the assistant.

Four behaviours of the code that are easy to miss, all followed by the model:

- A completed turn is committed as four separate statements, each with its own commit; nothing is rolled back when a later one fails (`Server.CommitTurn`, `Server.RecordDrawing`).
- `to_chat_message` produces the roles `user`, `assistant` and `unknown`.
- `shouldExplainSelection` returns the selection string, not a boolean. The model uses its truthiness, which is what the caller tests.
- `save_web_cache` with a negative `ttl` builds the modifier `+-n seconds`, which SQLite rejects, so `expires_at` is NULL and the entry never expires (`Store.Expiry`, `Store.Database.SaveWebCache`).

The schema file `init_db.sql` is not part of this model. The model assumes the schema it implies:
- unique session ids;
- foreign keys from the journal and the chat log to sessions, with `ON DELETE CASCADE`;
- `INTEGER PRIMARY KEY` row ids;
- `created_at`/`updated_at` defaulting to the current time;
- unique keys for config and the web cache.

## Model

| member | source | states |
|---|---|---|
| Agents.GetAgent | backend/agents.py:57-67 | whatever model name is asked for, the agent is the one Zhipu agent (`glm-4-flashx`) |
| Agents.ToChatMessage | backend/agents.py:74-120 | no parts gives role `unknown` with empty content; role is `user` iff the message is a request whose first part is a user prompt with string content, and then content and time stamp are that part's; role is `assistant` iff it is a response whose first part is text, with that text; every other shape is `unknown` with the printed message; the role is always one of the three |
| Agents.OnlyFirstPartDecides | backend/agents.py:94-113 | appending parts never changes the role, nor, for `user` and `assistant`, the whole record |
| Ordering.Top | backend/database.py:149-166 | `ORDER BY key DESC LIMIT n`: keys non-increasing, rows drawn from the table (sub-multiset), exactly `min(n, size)` rows (all of them for a negative limit), and no row left out has a larger key than a row returned |
| Store.WithoutMembers | backend/database.py:203-210 | the rows a `DELETE … WHERE session_id = ?` leaves are exactly the rows of other sessions |
| Store.ReplayAppend | backend/database.py:74-94 | appending a journal row adds its batch at the end of its own session's replay and changes no other session's replay |
| Store.ReplayNone | backend/database.py:91-94 | a session without journal rows replays to the empty list |
| Store.ReplayWithout | backend/database.py:203-210 | after the cascade the deleted session replays to nothing and every other session's replay is unchanged |
| Store.EntriesFrom | backend/database.py:116-134 | every chat entry returned comes from a row of that session |
| Store.EntriesAppend | backend/database.py:100-134 | appending a chat row adds its entry last to its own session's log, with the role, content, content type and image url given, and to no other |
| Store.EntriesWithout | backend/database.py:203-210 | after the cascade the deleted session has no chat entries and the others keep theirs |
| Store.Cascade | backend/database.py:203-210 | both cascades at once: the deleted session's replay and chat log are empty, every other session's replay and chat log are unchanged (`OthersKept`) |
| Store.EntriesIncreasing | backend/database.py:116-134 | chat entries come out in id order |
| Store.Find | backend/database.py:168-184 | a session is found iff its id is in the table, and the one found has that id |
| Store.IdsWithout | backend/database.py:203-210 | deleting a session removes exactly its id |
| Store.DeleteConsistent | backend/database.py:203-210 | the delete with its cascade keeps the store's invariant (unique ids, foreign keys, clock bound), and deleting an unknown id changes no table |
| Store.TouchAllKeeps | backend/database.py:186-201 | the `UPDATE` keeps the ids, their uniqueness and the clock bound, and changes nothing for an unknown id |
| Store.FindTouchAll | backend/database.py:186-201 | after the `UPDATE` the session has `updated_at` = now and the new title when the title is truthy, its old title for `None` or `""` |
| Store.Database.constructor | backend/database.py:39-59 | a fresh database: every table empty, the invariant holds |
| Store.Database.AddMessages | backend/database.py:74-81 | one journal row with the next id for an existing session; `FOREIGN KEY constraint failed` and no change otherwise; every session's replay afterwards is its old replay plus, for this session on success, the batch |
| Store.Database.GetMessages | backend/database.py:83-94 | the loop's result is the replay of the session's batches in id order, flattened |
| Store.Database.AddChatMessage | backend/database.py:100-114 | one chat row carrying role, content, content type (default `text`) and image url (default null) as given, for an existing session; the foreign-key failure and no change otherwise |
| Store.Database.ChatMessages | backend/database.py:116-134 | the session's entries, in increasing id order |
| Store.Database.CreateSession | backend/database.py:140-147 | a new session (mode default `standalone`) with both times set to the clock; the unique-constraint failure and no change for an existing id |
| Store.Database.Sessions | backend/database.py:149-166 | at most `limit` (default 50) sessions, sorted by `updated_at` descending, from the table, none left out more recent than one returned |
| Store.Database.GetSession | backend/database.py:168-184 | the session iff its id exists, else none |
| Store.Database.UpdateSession | backend/database.py:186-201 | bumps `updated_at`; sets the title only when it is truthy; an unknown id changes nothing; ids are kept |
| Store.Database.DeleteSession | backend/database.py:203-210 | removes the session's row and, by cascade, its journal and chat rows, and logs the delete; the store stays consistent, the deleted session's replay and chat log are empty, every other session's are unchanged (`OthersKept`); an unknown id leaves the tables as they were |
| Store.Database.SaveConfig | backend/database.py:216-223 | upsert: `GetConfig(key)` is the new value and `AllConfigs` is the old map with the key replaced (one entry per key) |
| Store.Database.GetConfig | backend/database.py:225-233 | the stored value, none iff the key is missing |
| Store.Database.AllConfigs | backend/database.py:235-242 | exactly the stored keys, each with the value `GetConfig` gives |
| Store.Database.SaveDrawHistory | backend/database.py:248-263 | appends one draw row with the model (default `cogView-4-250304`) and `{"size": size}` (default size `1024x1024`) as parameters |
| Store.Database.AddDrawHistory | backend/database.py:265-278 | appends one draw row with model and parameters as given, possibly null |
| Store.Database.DrawHistory | backend/database.py:280-298 | at most `limit` (default 20) rows, newest first, from the table, none left out newer than one returned |
| Store.Database.SaveWebCache | backend/database.py:304-321 | upsert with `expires_at` from `Store.Expiry` and the default ttl of 86400: the entry reads back at once iff ttl is not 0, and with a negative ttl it stays fresh at every later time |
| Store.Expiry | backend/database.py:316-318 | the `datetime('now', …)` expiry: NULL when ttl is negative, otherwise ttl seconds after now (within SQLite's date range, see Left out) |
| Store.Database.GetWebCache | backend/database.py:323-342 | the entry iff the url is cached and unexpired (`expires_at` null or after now), with its stored fields |
| JsonFrames.Escape | backend/main.py:146-149 | `json.dumps` escaping yields printable ASCII only |
| JsonFrames.EncodeFramePrintable | backend/main.py:126-129 | every frame's JSON text is printable ASCII, so it holds no line feed |
| JsonFrames.EscapePlain | backend/main.py:126-129 | plain keys and kinds are written unchanged |
| FrameParse.EscapeRoundTrip | frontend/embedded/popup.js:812 | unescaping the escaped text gives the text back, as UTF-16 |
| FrameParse.ContentRoundTrip | frontend/embedded/popup.js:812-814 | the client reads from a `content` frame line exactly the frame's text |
| FrameParse.OtherFrameIgnored | frontend/embedded/popup.js:812-816 | a `start`, `end` or `error` frame line is not read as content |
| JsText.JoinSplit | frontend/embedded/popup.js:455-459 | `split('\n')` then `join('\n')` gives the string back |
| JsText.SplitJoin | frontend/embedded/popup.js:455-459 | joining line-feed-free pieces then splitting gives the pieces back |
| JsText.SplitAppend | frontend/embedded/popup.js:805-807 | splitting `x + y` gives the complete lines of `x`, then the split of `x`'s unfinished piece followed by `y` |
| JsText.CompleteLinesAppend | frontend/embedded/popup.js:805-807 | the complete lines of a growing buffer are those already complete plus those of the kept piece with the new chunk |
| JsText.Trim | frontend/embedded/popup.js:457 | `trim()`: `TrimmedFrom` — the slice of the input that starts after its leading white space (`LeadingSpaces`, all white space) and is followed only by white space — with no white space at either end of the result, and empty iff the input is all white space |
| JsText.TrimIdempotent | frontend/embedded/popup.js:457 | trimming twice is trimming once |
| JsText.Lower | frontend/embedded/popup.js:479 | same length, no upper-case ASCII letter left; each A–Z unit becomes its lower-case letter and every other unit is unchanged |
| JsText.LowerIdempotent | frontend/embedded/popup.js:479 | lowering twice is lowering once |
| JsText.Includes | frontend/embedded/popup.js:480 | true iff the keyword occurs at some position |
| JsText.IncludesAny | frontend/embedded/popup.js:480 | true iff some keyword of the list occurs |
| Server.OrElse | backend/main.py:334 | `s or default`: the string when it is truthy, else the default |
| Server.Prefix | backend/main.py:333 | `s[:n]`: a prefix of length `min(n, len(s))` |
| Server.FinalText | backend/main.py:143-145 | the text stored for the assistant is the last snapshot, `""` when there was none |
| Server.ContentFrames | backend/main.py:144-149 | one `content` frame per snapshot, in order |
| Server.StreamFramesWellFormed | backend/main.py:123-184 | the frames are one `start`, one `content` per snapshot in order, then one closing `end` or `error` |
| Server.ChatOutcome | backend/main.py:174-184 | the turn ends with `end` iff the agent finished and the session exists; otherwise with one `error` carrying the agent's failure or the foreign-key failure |
| Server.Relay | backend/main.py:143-149 | the loop emits the opening frame then one content frame per snapshot, and `full_response` ends as the last snapshot |
| Server.AddExchange | backend/main.py:158-169 | appends the user row with the prompt verbatim, then the assistant row, both to the session's chat log in that order |
| Server.CommitTurn | backend/main.py:151-172 | for an existing session: journal append, user entry, assistant entry, session touch, in that order; for a missing one: the foreign-key failure and nothing written |
| Server.TurnOrder | backend/main.py:151-172 | a committed turn adds four writes, all about its session: the journal row before both chat rows, the user's row before the assistant's, the touch last |
| Server.StreamChat | backend/main.py:123-184 | frames are `start`, the snapshots, then `end` after the full commit, or one `error`; an agent failure leaves every table unchanged; the journal gains the agent's batch and the chat log the exchange only on success |
| Server.PostChatMessage | backend/main.py:213-232 | the turn writes only the journal append and the session touch, never the chat log; an agent failure or a missing session gives the error with 500 and no journal change |
| Server.ExtractWebContent | backend/main.py:326-342 | with content: at most its first 5000 characters, url or `N/A`; with only a url: the placeholder; with neither: the error, iff neither is given |
| Server.WebTaskPrompt | backend/main.py:354-366 | the prompt carries the web task kind, the url or `N/A`, and the first 3000 characters of the content or `""` (all of it when shorter): a prefix of length min(3000, length) |
| Server.StreamWebTask | backend/main.py:352-391 | frames are `start` with the url, one `content` per snapshot, then `end` or one `error` |
| Server.RecordDrawing | backend/main.py:603-620 | user entry `🎨 prompt`, assistant `image` entry carrying the image url, then the session touch; the foreign-key failure and nothing written for a missing session |
| Server.PersistDrawing | backend/main.py:594-620 | draw history is written iff an image url came back; the chat pair and touch only if a session id was also given; draws never change otherwise |
| Server.ErrorTupleIsSuccess | backend/main.py:342 | the error tuple as written is sent with status 200 and an array body, not the error object |
| Server.Render | backend/main.py:342 | the intended response: the error object with the error's status code |
| Server.ExtractRefusal | backend/main.py:326-342 | a request with neither content nor url is refused with 400 and the error object, where the code as written answers 200 |
| Popup.NonBlank | frontend/embedded/popup.js:457-458 | every line kept is trimmed and non-empty |
| Popup.NonBlankFixed | frontend/embedded/popup.js:457-458 | lines already trimmed and non-empty pass unchanged |
| Popup.CleanLines | frontend/embedded/popup.js:455-459 | the lines of the cleaned text are exactly the page's non-blank lines, trimmed |
| Popup.CleanIdempotent | frontend/embedded/popup.js:455-459 | cleaning a cleaned text changes nothing |
| Popup.Truncate | frontend/embedded/popup.js:462-465 | up to 3000 units the text is unchanged; beyond, its first 3000 units and `...`; never more than 3003 |
| Popup.ExtractPageContent | frontend/embedded/popup.js:447-472 | title and url as given, content the cleaned text, truncated, at most 3003 units |
| Popup.Mentions | frontend/embedded/popup.js:477-508 | true iff the lower-cased message includes one of the keywords |
| Popup.MentionsIgnoresCase | frontend/embedded/popup.js:479 | a message and its lower-case form pass the same tests |
| Popup.MentionedAnywhere | frontend/embedded/popup.js:480 | a message holding a keyword passes, whatever surrounds it |
| Popup.Classify | frontend/embedded/popup.js:683-766 | copy-HTML first, then explain (which needs a selection), then search, then summarise, else plain; each iff the earlier tests fail |
| Popup.NoSelectionNoExplain | frontend/embedded/popup.js:495-499 | with an empty selection a message is never explained |
| Popup.PromptFor | frontend/embedded/popup.js:693-766 | each intent gets its own prompt kind (iff for explain, search, summary and plain), all carrying the question; the plain intent sends the message unchanged; explaining carries the selection, the page title and the first min(500, length) units of the page content; search and summary carry the extracted page |
| Popup.Selected | frontend/embedded/popup.js:546-559 | a trimmed selection of 1 to 499 units is stored, an empty one clears, a longer one keeps the previous value |
| Popup.SelectedOk | frontend/embedded/popup.js:546-559 | the stored selection is always trimmed and shorter than 500 |
| Popup.Widget.constructor | frontend/embedded/popup.js:22-53 | closed, nothing selected, no session id, the creation pending |
| Popup.Widget.Open | frontend/embedded/popup.js:354-358 | `isOpen` becomes true |
| Popup.Widget.Close | frontend/embedded/popup.js:363-366 | `isOpen` becomes false |
| Popup.Widget.Toggle | frontend/embedded/popup.js:343-349 | `isOpen` flips |
| Popup.Widget.OnMouseUp | frontend/embedded/popup.js:546-559 | the selection becomes `Selected(previous, selection)`, keeping the widget's invariant |
| Popup.Widget.EnsureSession | frontend/embedded/popup.js:397-405 | an id already set is kept, else the pending creation's id is taken (`Resolved`); succeeds iff an id is then set, returning it; otherwise fails with the rejected creation's message or the fixed no-session message (`RejectionMessage`) |
| Popup.Widget.SendMessage | frontend/embedded/popup.js:664-766 | a blank message does nothing and changes nothing; otherwise the session id becomes the earlier id or the pending creation's (`Resolved`), it fails iff no id results, with `ensureSession`'s message; copy-HTML is served without a request; otherwise it sends the prompt of the classified intent under that id, and only explaining clears the selection |
| Popup.DisplayedLast | frontend/embedded/popup.js:809-821 | the message shows the text of the last content line; content frames replace, not append |
| Popup.DisplayedNone | frontend/embedded/popup.js:809-821 | blank and non-content lines leave the message as it was |
| Popup.DisplayedAppend | frontend/embedded/popup.js:801-821 | processing lines in two batches is processing them at once |
| Popup.ShowLines | frontend/embedded/popup.js:809-821 | the inner loop leaves the message showing what the lines give: blank lines skipped, each content frame replacing the text |
| Popup.DisplayedStep | frontend/embedded/popup.js:805-821 | one more chunk: the lines it completes are those of the kept piece followed by the chunk, acted on after the earlier lines, and the new kept piece is the unfinished end |
| Popup.Feed | frontend/embedded/popup.js:804-821 | one read: the new buffer is the unfinished piece of buffer plus chunk, and the message shows what its complete lines give, in turn |
| Popup.ReadStream | frontend/embedded/popup.js:799-822 | after all chunks, the message shows what the complete lines of the whole received text give, whatever the chunking; the unfinished last piece is never read |
| Transport.WireLines | backend/main.py:146-149 | the complete lines of the written stream are the frames' JSON texts, one per frame, with nothing left over |
| Transport.ContentLine | frontend/embedded/popup.js:810-814 | a `content` frame line is non-blank and shows the frame's text |
| Transport.OtherLine | frontend/embedded/popup.js:813 | a non-content frame line leaves the message as it was |
| Transport.ShowsLast | frontend/embedded/popup.js:809-821 | lines between a non-content opening and closing line show the last content line before the closing one, or nothing |
| Transport.StreamShowsFinalText | frontend/embedded/popup.js:799-822 | for any chunking of a stream `start`, snapshots, `end`/`error`, the widget ends up showing the last snapshot, which a successful turn stores as the assistant's text |

## Left out
- Store.Expiry: SQLite's dates end at year 9999, so a ttl that large (above about 2.5e11 seconds) also gives a NULL `expires_at` and an entry that never expires; the model gives now + ttl for every non-negative ttl.
- Thread pool, event loop, `_asyncify`: the calls are sequential. That gives the single-worker order the executor exists for.
- SQLite itself: PRAGMAs, WAL, connections and cursors. The tables are sequences and maps. The schema in `init_db.sql` is not part of this model; the schema the model assumes is described above.
- Wall-clock time: `CURRENT_TIMESTAMP` and `datetime('now')` read the integer field `now`. The ISO time stamps the handlers write are parameters.
- The language-model runtime is a function parameter. It returns the snapshots, an optional failure, and the batch of new messages. The JSON serialisation of that batch and its parsing back (`new_messages_json`, `ModelMessagesTypeAdapter`) are taken as exact inverses.
- The `debounce_by` timing of `stream_text`: the snapshots are whatever the runtime yields.
- HTTP calls to Zhipu and Gaode, `analyze_image`, and the API-key and upstream-status branches of `generate_image`. Only what `generate_image` stores once it has an image url is modelled.
- FastAPI routing, CORS, pydantic request models and uvicorn. Absent optional fields are `None`.
- Server.WebTaskPrompt: the wording of the instruction text around the url and the excerpt is not modelled.
- Popup.PromptFor: the wording of the prompt templates is not modelled. Neither is the `match(/[a-zA-Z]/)` hint line of the explain prompt, which only adds an instruction.
- DOM work, CSS, the clipboard, `escapeHtml`, `showLoading`, the selection hint bubble, `explainSelectedText` (a timer-delayed shortcut that fills the input and calls `sendMessage`), and the error message shown when a request fails.
- `fetch` and `TextDecoder`: chunks arrive already decoded as UTF-16 strings. The server's stream is pure ASCII, so no character is split across chunks there.
- JsText.Lower: only ASCII letters are lowered. No non-ASCII character lowers to a letter of the keyword lists, so the keyword tests agree with full Unicode `toLowerCase`.
- FrameParse.ContentOf: recognises only the layout the server writes for a `content` frame. General `JSON.parse` is not modelled, and a line it would reject is a non-content line, as the widget's `catch` makes it.
- Popup.ReadStream: ends when the chunks run out. A network error in mid-stream is not modelled.
- The `error` frame shows nothing in the widget. The widget ignores it, and so does the model.
- A storage failure, or a delete of the session by another request, between the journal write and the chat writes of a turn. In the sequential model the first write is the only one that can fail (the foreign-key check), so the state where the journal is ahead of the chat log is never reached.
- `backend/test_tool.py`, `backend/test_weather_tool.py` and `backend/test_gaode_api.py` only call live services.

## Findings

| source | as written | input that shows it | evidently intended | confidence | as-written member | corrected member |
|---|---|---|---|---|---|---|
| backend/main.py:342 | `return {'error': …}, 400` from a FastAPI handler without a response class; FastAPI serialises the tuple as a JSON array with status 200 (the same holds for the `, 500` returns at main.py:232, 569 and 633, and for the `, response.status_code` return at main.py:589) | `POST /api/web/extract` with neither `content` nor `url` | status 400 with body `{"error": "No content or URL provided"}` | medium, not executed | Server.ErrorTupleIsSuccess | Server.ExtractRefusal |
