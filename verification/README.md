# Telegram long-poll bot core, in Dafny

This project models the core of two nearly identical Python 2 Telegram bot
libraries. They are `asynctelebot` (asynctelebot/telebot.py with
asynctelebot/entity.py) and `pytelegram_async` (pytelegram_async/bot.py).
A `Library` tag selects the library wherever the two differ. The model
proves properties about the core.

The model covers three parts:

- **Handlers and dispatch** (`handlers.dfy`, `dispatch.dfy`).
  - The `pre_process` guard of `MessageHandler` and `PatternMessageHandler`. A guard checks for the required field, then checks authorization against the admin list read at call time, then applies a pattern match anchored at the start of the text. That admin list belongs to the bot the handler owner was last assigned to by `add_handler`, which need not be the bot dispatching the message.
  - Positional argument binding in `wrapped`.
  - The `commands` property of `BotRequestHandler`. It holds the handler attributes in `dir()` (ascending name) order and is cached after the first access. In pytelegram_async it also picks up the built-in `get_version`.
  - `add_handler`, which assigns the owner to the bot and appends it.
  - `exec_command`, the first-truthy scan over owners and their commands. It is given both as a function and as the source's nested loops.
- **The update pump and poll loop** (`updates.dfy`).
  - `process_updates`: callback queries are acknowledged and normalized into messages, only messages with a `from` are dispatched, handler exceptions are swallowed, and the offset becomes `update_id + 1` after every update.
  - `_on_updates_ready` and `loop_start` as one step function. It takes a response and gives a new cursor, events and the next schedule: at once, after 15 seconds, or halted. A run of steps over a sequence of responses models the poll loop.
  - `request_loop` as a separate function: the `getUpdates` request built from the cursor.
  - The two libraries' different exception filters.
- **Outgoing requests** (`sender.dfy`, `multipart.dfy`, `entity.dfy`).
  - `send_message` and `edit_message` / `edit_message_text` of both libraries: method choice, 4096-character guards, entity field partition, `reply_markup`, and `extra` merged last.
  - The `send_request` choice between JSON and multipart.
  - The `multipart_producer` coroutine as the list of chunks it writes. A lemma proves that these chunks, joined together, give the multipart body of section 5.1.1 of RFC 2046, with the form-data part headers of section 4.2 of RFC 7578.
  - Entities: slot filtering in `Entity.__init__` and `to_dict`, and the `File` triple.

`scenarios.dfy` replays the handler tests of tests/test_handler.py on the
model. It also replays a concrete photo upload and the 4096/4097-character
text boundary.

Python values are the JSON-shaped `Values.Value`. Exceptions are
`Values.Exc`, and a call that may raise returns `Values.Outcome`. Four things
are parameters rather than code in the model:

- `json.dumps` and `str()` are the fields of `Values.Codec`.
- Regular-expression matching is a `matchesAtStart` function in `Handlers.Pattern`.
- Handler bodies are a function in `Handlers.Handler`. `exec_command` only tests the truth of what a body returns (`if cmd_handler.__call__(message)`), so a body's result is modelled as that truth value, an `Outcome<bool>`: a body returning None, 0 or `""` declines, just as one returning False does, and one returning 1 or a non-empty string accepts, just as one returning True does.
- The network response is the `Updates.Response` input of one poll step.

## Model

| member | source | states |
|---|---|---|
| Names.Sorted | asynctelebot/telebot.py:75 | `dir()` lists each attribute name exactly once, in strictly ascending string order |
| Names.SortedUnique | asynctelebot/telebot.py:75 | any strictly ascending list holding exactly the names of a set is that set's `dir()` listing, so the listing is determined by the names |
| Entities.SlotFilter | asynctelebot/entity.py:5-15 | the slot loop of the constructor and of `to_dict` keeps exactly the entries whose name is a slot, values unchanged |
| Entities.Construct | asynctelebot/entity.py:5-8 | a constructed entity only has attributes that are slots of its class |
| Entities.RoundTrip | asynctelebot/entity.py:5-15 | `to_dict(Kind(**kw))` is `kw` restricted to the class's slots; other keywords are silently dropped |
| Entities.ToDictKeys | asynctelebot/entity.py:10-15 | `to_dict` keys are a subset of the slots and are exactly the attributes set |
| Entities.EmptyEntity | asynctelebot/entity.py:5-15 | an entity built with no arguments has an empty `to_dict` |
| Entities.NoReservedSlot | asynctelebot/entity.py:21-56 | no entity class declares `chat_id` or `reply_markup`, so entity fields never clash with the parameters the sender adds |
| Handlers.PreProcess | asynctelebot/telebot.py:19-28 | a message without the required field is rejected; an accepted message has it, and for an authorized handler it has a dict `from` whose `id` is in the admin list |
| Handlers.Bind | asynctelebot/telebot.py:34-44 | there is one argument per declared parameter name, in order, each bound by the name rules |
| Handlers.Invoke | asynctelebot/telebot.py:31-47 | a message lacking the required field gives False; True comes only from the body, and only for a message that holds the field, was sent by an admin of the owner's own bot (the one it was last assigned to, not the one dispatching) when the handler is authorized, and has matching text when it is a pattern handler; an exception is the guard's KeyError, AttributeError or TypeError, or the body's own; a sender with a dict `from` who is not an admin gets False from an authorized handler, and a string text the pattern does not match gets False from a pattern handler whose base check passes, in both cases without raising |
| Handlers.GuardBeforeBody | asynctelebot/telebot.py:31-47 | the guard decides first: an accepted message gets exactly the body's outcome, and any other guard outcome (False, or the guard's KeyError, AttributeError or TypeError) is returned as is, without running the body |
| Handlers.HandlersAmongFacts | asynctelebot/telebot.py:75-78 | every collected command is a handler attribute found under one of the listed names; a name is collected iff it is listed and bound to a handler; a sorted listing gives sorted commands |
| Handlers.DiscoverFacts | asynctelebot/telebot.py:74-79 | the discovered commands are exactly the handler attributes, each once, in strictly ascending name order |
| Handlers.Commands | asynctelebot/telebot.py:70-79 | a cached list is returned unchanged; otherwise the discovered list is returned and becomes the cache; nothing else of the owner changes |
| Handlers.MissingFieldRejects | asynctelebot/telebot.py:19-21 | a message lacking the handler's field is rejected whether or not the handler is authorized, and the body is not run |
| Handlers.OpenHandlerAccepts | asynctelebot/telebot.py:22-23 | a non-authorized plain handler accepts every message holding its field |
| Handlers.AuthorizedIffAdmin | asynctelebot/telebot.py:24-28 | an authorized plain handler accepts a message holding its field iff the sender's id is in the admin list; when `from` is present and a dict it does not raise (a missing `from` raises KeyError, and a `from` that is not a dict raises AttributeError) |
| Handlers.AdminsReadAtCallTime | asynctelebot/telebot.py:24-33 | the outcome depends on the admin list only through the sender's membership in it; dropping the sender from the list revokes acceptance |
| Handlers.NoBotRejects | asynctelebot/telebot.py:32-47 | an authorized handler whose owner has no bot checks against `[]`: its outcome is the guard's, so it never runs its body; it returns False or raises only the guard's KeyError or AttributeError |
| Handlers.PatternAnchored | asynctelebot/telebot.py:57-62 | a pattern handler accepts iff the base check passes, `text` is a string and the pattern matches at the start of it |
| Handlers.BindingRules | asynctelebot/telebot.py:34-45 | binding never fails: `self` gives the owner, `message` the whole message, a present key its value, any other name None |
| Handlers.BindReadsOnlyNames | asynctelebot/telebot.py:34-44 | two messages that agree on the declared names bind identically, unless `message` is declared |
| Handlers.CommandsComputedOnce | asynctelebot/telebot.py:71-73 | after the first access `commands` returns the same list, even when attributes are added to the owner later |
| Handlers.GetVersionContract | pytelegram_async/bot.py:82-88 | unless it raises, `get_version` returns False (so dispatch goes on) when the owner has no `version`; it returns True only for an admin's text starting with `/version` on an owner that has a `version` |
| Dispatch.CandidatesCover | asynctelebot/telebot.py:120-126 | the calls `exec_command` may try are exactly the commands of the registered owners, each bound to its own owner; no command is skipped and nothing else is tried |
| Dispatch.AddHandler | asynctelebot/telebot.py:103-106 | a None handler leaves the owner list as it was; any other is appended last, with the owners before it unchanged, and is assigned to this bot, so its guards now read this bot's admins |
| Dispatch.AddHandlerTriedLast | asynctelebot/telebot.py:103-126 | an owner added to a bot is tried only after every owner added before it: `exec_command` gives the earlier owners' outcome unless all of them decline, and only then scans the new owner's commands, each checking the admins of the bot it was added to |
| Dispatch.ScanDeclines | asynctelebot/telebot.py:122-126 | the scan returns False iff every call returns False |
| Dispatch.ScanFirstDecides | asynctelebot/telebot.py:122-126 | the scan's outcome is that of the first call that does not return False |
| Dispatch.FirstDecisiveExists | asynctelebot/telebot.py:122-126 | when the scan does not return False, some call is the first one that does not return False |
| Dispatch.ScanAccepts | asynctelebot/telebot.py:122-126 | the scan returns True iff the first call not returning False returns True |
| Dispatch.DeclineContinues | asynctelebot/telebot.py:124-125 | a call that returns False passes the message on to the rest |
| Dispatch.ExecCommandDeclines | asynctelebot/telebot.py:120-126 | `exec_command` returns False iff every command of every owner returns False |
| Dispatch.ExecCommandAccepts | asynctelebot/telebot.py:120-126 | `exec_command` returns True iff, in owner-then-command order, the first command not returning False returns True |
| Dispatch.ExecCommandRaises | asynctelebot/telebot.py:120-126 | the first command not returning False decides `exec_command`'s outcome, including an exception it raises |
| Dispatch.ExecCommandLoop | asynctelebot/telebot.py:120-126 | the nested loops over owners and their commands compute the first-truthy scan |
| Dispatch.TryCommands | asynctelebot/telebot.py:123-125 | the inner loop over one owner's commands continues the scan of the calls before it |
| Updates.NormalizeCallback | pytelegram_async/bot.py:131-139 | a callback becomes its message with `from` and `text` taken from the callback (and `is_callback` set in pytelegram_async), other fields kept; a missing key raises KeyError, a non-dict message TypeError |
| Updates.PrepareWellFormed | asynctelebot/telebot.py:130-137 | a well-formed update passes the callback step without raising, keeps its `update_id`, and only acknowledges |
| Updates.DeliverSends | asynctelebot/telebot.py:139-162 | for a dict message whose `from`, if any, is a dict, the dispatch step does not raise and hands the message to `exec_command` exactly when it has a `from` |
| Updates.DeliverNonDict | asynctelebot/telebot.py:139-142 | a `message` that is not a dict is never dispatched: a list or string without `from` is skipped, one containing it raises TypeError, as does any other type |
| Updates.DeliverRunsExecCommand | asynctelebot/telebot.py:159-162 | the recorded outcome of a dispatched message is `exec_command`'s first-truthy scan over the bot's owners |
| Updates.PumpOneWellFormed | asynctelebot/telebot.py:129-163 | a well-formed update moves the offset to `update_id + 1` and dispatches its (normalized) message iff it has a `from` |
| Updates.DispatchedHaveSender | asynctelebot/telebot.py:139-162 | every message handed to `exec_command` carries `from` |
| Updates.OffsetAfterBatch | asynctelebot/telebot.py:128-164 | a batch of well-formed updates raises nothing and leaves the offset one past the last update's id; an empty batch leaves it unchanged |
| Updates.OffsetPastHighest | asynctelebot/telebot.py:163 | with increasing ids the offset ends above every id in the batch and equals one of them plus one, i.e. the highest plus one |
| Updates.OffsetIgnoresHandlers | asynctelebot/telebot.py:159-163 | what the handlers return or raise does not change the offset reached or the error raised |
| Updates.PumpErrors | asynctelebot/telebot.py:128-164 | the pump itself only raises KeyError, TypeError or AttributeError |
| Updates.RequestLoop | asynctelebot/telebot.py:109-116 | the long-poll body holds exactly `offset`, `timeout` and `limit`, with the cursor's offset, and the client timeout is 5 seconds past the server-side wait |
| Updates.NextPollResumes | asynctelebot/telebot.py:109-163 | after an `ok` batch the next `getUpdates` request carries the offset the pump reached, with the same wait and limit; an empty batch repeats the previous request, and after a batch of well-formed updates the offset is one past the last update's id, so those updates are not fetched again |
| Updates.FailureBacksOff | pytelegram_async/bot.py:174-192 | a failed fetch or an undecodable body keeps the cursor and dispatches nothing; it retries after 15 seconds in asynctelebot, and in pytelegram_async after HTTPError or ValueError, while any other transport exception halts pytelegram_async |
| Updates.EnvelopeReschedulesAtOnce | asynctelebot/telebot.py:181-191 | a not-`ok` envelope, and an `ok` one whose updates are well formed, both poll again at once; a not-`ok` one leaves the cursor unchanged |
| Updates.Iterate | asynctelebot/telebot.py:129 | `for update in updates` raises TypeError iff the value has no length; otherwise it yields as many items as `len` counts: a list its items, a string or dict only strings |
| Updates.NonListResult | asynctelebot/telebot.py:181-191 | a `result` that is not a list dispatches nothing and keeps the cursor; asynctelebot polls again at once, and pytelegram_async polls again at once iff the value is an empty string or dict, and halts otherwise |
| Updates.ScheduleByLibrary | pytelegram_async/bot.py:174-192 | asynctelebot never halts; pytelegram_async waits 15 seconds iff the fetch failed with HTTPError or the body was undecodable, since the pump never raises those two; every wait is 15 seconds |
| Updates.FailuresKeepCursor | asynctelebot/telebot.py:192-206 | any run of transport failures keeps the offset; when the callback catches each of them, every retry waits 15 seconds and the loop never halts |
| Updates.UncaughtTransportHalts | pytelegram_async/bot.py:174-192 | in pytelegram_async a transport exception other than HTTPError stops the poll loop for good, with the offset unchanged |
| Multipart.Encode | asynctelebot/telebot.py:212 | Python 2 `.encode()` succeeds iff the text is ASCII, and then maps every character to its code |
| Multipart.EncodeDecode | asynctelebot/telebot.py:212 | decoding an encoded text gives it back |
| Multipart.DecodeEncode | asynctelebot/telebot.py:212 | reading bytes as text and encoding it back succeeds iff every byte is below 128, and then gives the same bytes |
| Multipart.ChunkData | asynctelebot/telebot.py:237-241 | the reads of a file join to its data; every read holds 1 to 16384 bytes and all but the last are full |
| Multipart.ChunkCount | asynctelebot/telebot.py:237-241 | a file of n bytes is read in ceil(n / 16384) chunks |
| Multipart.FileDataReassembles | asynctelebot/telebot.py:237-242 | a file's data chunks put back together are the file, and a file of at most 16384 bytes is one read, or none when empty |
| Multipart.FieldChunks | asynctelebot/telebot.py:214-220 | the field loop writes one chunk per field, each opening with `--B\r\n`, and completes iff every key and value is ASCII; otherwise it raises UnicodeError |
| Multipart.FieldFailureStops | asynctelebot/telebot.py:214-220 | a field that cannot be encoded stops the producer; only the fields before it have been written |
| Multipart.FileChunks | asynctelebot/telebot.py:222-242 | the file loop completes iff every entry is an uploaded file whose key, file name and MIME type are ASCII; when all entries are uploads, the only failure is UnicodeError |
| Multipart.RawChunks | asynctelebot/telebot.py:222-238 | a files entry that is not an uploaded file never completes: a value without three items raises IndexError, TypeError or KeyError at once, and an ASCII string of three or more characters has its header written (name and type are its first and third characters) before `f.read` raises AttributeError |
| Multipart.FieldsOf | asynctelebot/telebot.py:214 | the `(key, str(value))` pairs hold every body entry once, in ascending key order |
| Multipart.FilesOf | asynctelebot/telebot.py:222 | the `(key, file)` pairs hold every file entry once, in ascending key order |
| Multipart.FieldBytes | asynctelebot/telebot.py:214-220 | the field chunks joined are, per field, delimiter, header line, blank line, value and CRLF |
| Multipart.FileBytes | asynctelebot/telebot.py:222-242 | the file chunks joined are, per file, delimiter, header lines, blank line, the file's data and CRLF |
| Multipart.CompleteIffEncodable | asynctelebot/telebot.py:211-244 | the producer completes iff every file entry is an upload and everything it encodes is ASCII; with uploads only, the failure is UnicodeError; a complete output opens with the field chunks and ends with the closing delimiter |
| Multipart.BodyFollowsRfc2046 | asynctelebot/telebot.py:211-244 | joined together, the chunks are the RFC 2046 multipart body of the fields followed by the files, with an empty preamble and a CRLF epilogue |
| Sender.SendRequest | asynctelebot/telebot.py:247-264 | the request is multipart with the boundary in its content type exactly when files are given, otherwise JSON of the params |
| Sender.MultipartBody | asynctelebot/telebot.py:254-263 | a multipart request's body producer writes the RFC 2046 body of its params and files when everything is ASCII |
| Sender.Merge | asynctelebot/telebot.py:314-316 | `extra` is applied last: its keys are added and override; other params are unchanged |
| Sender.TelebotMethodPriority | asynctelebot/telebot.py:286-307 | the method is chosen by priority photo > voice > audio > video > document > location > text |
| Sender.EntityPaths | asynctelebot/telebot.py:318-319 | each media method posts to `/send` followed by its name |
| Sender.TelebotMultipartIffFile | asynctelebot/telebot.py:283-321 | asynctelebot sends multipart iff a photo, voice, audio, video or document other than None is given, whatever its type; at most one file is sent, and a photo is sent as `photo` |
| Sender.TelebotRawPhotoFails | asynctelebot/telebot.py:222-264 | a photo that is not an uploaded file, such as a file id string, still goes out as multipart and its body never completes: with ASCII boundary and params, fewer than three characters give IndexError and three or more ASCII ones give AttributeError |
| Sender.TelebotParams | asynctelebot/telebot.py:283-316 | `chat_id` is always sent as `to` unless `extra` replaces it, every `extra` entry is sent as given, and the markup is sent as its JSON text |
| Sender.TelebotTextAlwaysSet | asynctelebot/telebot.py:305-307 | with no media and no location the text is sent, even when it is None |
| Sender.TelebotEditAnyLength | asynctelebot/telebot.py:266-277 | asynctelebot's edit accepts text of any length and posts JSON to `editMessageText`; the params are exactly `chat_id`, `message_id`, `text`, `reply_markup` when a markup is given, and the keys of `extra`; the markup is sent as its JSON text, and `extra` is merged last and overrides |
| Sender.EditParamsMerged | asynctelebot/telebot.py:266-272 | the params of an edit after setting the markup and merging `extra`: the key set, the JSON-text markup, `extra` winning every clash, and each other key holding the value passed for it |
| Sender.FieldsPartition | pytelegram_async/bot.py:280-284 | splitting an entity's fields into params and files loses nothing and duplicates nothing: the two key sets are disjoint and together are the entity's fields, and each field can be rebuilt from the side it went to |
| Sender.PytelegramSendMessage | pytelegram_async/bot.py:274-298 | the send succeeds iff the payload is an entity or a text of at most 4096 characters; otherwise it raises ValueError |
| Sender.PytelegramEditMessageText | pytelegram_async/bot.py:262-272 | the edit succeeds iff `len(text)` exists and is at most 4096; a text with no length raises TypeError, an over-long one ValueError |
| Sender.PytelegramTextLimit | pytelegram_async/bot.py:285-289 | a text is sent iff it has at most 4096 characters, and then as JSON to `sendMessage` with `text` and `chat_id` set |
| Sender.PytelegramRejectsOther | pytelegram_async/bot.py:290-291 | a payload that is neither a string nor an entity raises ValueError and no request is built |
| Sender.PytelegramPlainValue | pytelegram_async/bot.py:285-291 | of the plain values, exactly the strings of at most 4096 characters are sent, each as the request's `text`; every other value, a longer string included, raises ValueError |
| Sender.PytelegramEntityPartition | pytelegram_async/bot.py:278-284 | the method is the class name, `File` fields go to the files and all others to the params, none to both, and `chat_id` is `to` unless `extra` replaces it |
| Sender.PytelegramMarkup | pytelegram_async/bot.py:293-296 | `reply_markup` is one string param holding the markup's JSON text unless `extra` replaces it; without a markup it comes only from `extra` |
| Sender.PytelegramEditLimit | pytelegram_async/bot.py:262-272 | a string text is refused iff it is over 4096 characters; None, a bool or an int raises TypeError; a list or dict passes iff it has at most 4096 items; what passes is posted as JSON to `editMessageText` with the text as given; its params are exactly `chat_id`, `message_id`, `text`, `reply_markup` when a markup is given, and the keys of `extra`; the markup is sent as its JSON text, and `extra` is merged last and overrides |
| Sender.DeclaredFilesIgnored | asynctelebot/entity.py:29-31 | `__files__` is never read: a `Document` whose `document` is a plain file id is sent as a param, as JSON |
| Scenarios.DummyListing | tests/test_handler.py:5-22 | `dir()` of the test handler instance lists `__doc__`, `__init__`, `__module__`, `_commands`, `assign_to`, `bot`, `commands`, then the handlers `on_contact`, `parameters`, `private`, `public` |
| Scenarios.DummyCommands | tests/test_handler.py:5-22 | the test handler's commands are `on_contact`, `parameters`, `private`, `public`, in that order |
| Scenarios.CountCommands | tests/test_handler.py:38-40 | the test handler has four commands |
| Scenarios.DummyDispatch | tests/test_handler.py:25-36 | a bot holding such an instance tries its four commands in name order, and the first not returning False decides |
| Scenarios.PrivateCommand | tests/test_handler.py:42-48 | `/private` succeeds exactly for the bot's admins, so for id 2 and not for id 15 |
| Scenarios.SharedOwnerUsesLastBot | asynctelebot/telebot.py:31-32 | on a bot A, `/private` first succeeds exactly for A's admins; once the same instance is also added to a bot B, A's list still holds it, and on A `/private` succeeds exactly for B's admins, whatever A's are |
| Scenarios.PublicCommand | tests/test_handler.py:50-56 | `/public` succeeds for every sender, e.g. ids 87 and 999 |
| Scenarios.ParamsMapping | tests/test_handler.py:58-59 | `/params` reaches `parameters` with `text` bound to `"/params"` and succeeds |
| Scenarios.ContactMessage | tests/test_handler.py:61-62 | a contact message reaches `on_contact` with the contact, not None, and succeeds |
| Scenarios.OneFieldOneFile | asynctelebot/telebot.py:211-244 | one field and one file are written as the field chunk, the file chunks and the closing delimiter |
| Scenarios.PhotoUpload | asynctelebot/telebot.py:247-263 | `chat_id=42` plus a four-byte `photo` gives a multipart request whose producer completes with five chunks; the third is the file's bytes in one read and the last is the closing delimiter |
| Scenarios.FileIdPhoto | asynctelebot/telebot.py:222-238 | a photo given as the file id `"BQAD"` gets a header naming the file `B` with type `A`, then raises AttributeError |
| Scenarios.TextLimitBoundary | pytelegram_async/bot.py:285-289 | a 4097-character text raises ValueError and a 4096-character text is sent |

## Left out

- Network I/O is not modelled. That covers `AsyncHTTPClient.fetch`, `HTTPRequest` and the fire-and-forget `answerCallbackQuery` request. A callback acknowledgement is an `Acked` event; a poll's result is a `Response` input; a sent request is an `HttpRequest` value.
- `_on_message_cb` only logs the response of a sent message, so it is not modelled.
- The IOLoop is not modelled: `add_callback` and `add_timeout` become the `Schedule` value of one step. There is no concurrency. The coroutine's `yield write(...)` calls become the list of chunks it writes.
- `json.dumps`, `json.loads` and `str()` are parameters (`Codec`). A `json.loads` failure is the `Undecodable` response.
- A failed fetch is a `TransportFailure` carrying the exception `rethrow()` raises: HTTPError, or a raw transport error such as `socket.error`, written `SocketError`.
- Multipart.Media: a value of the files dict is an uploaded `(name, file, mime)` triple with string name and type, or a JSON-shaped value with no `read` method. A tuple holding a real file with a non-string name or type, or more than three items, is not modelled.
- Regular-expression semantics are a parameter. Only literal-prefix patterns, as in the tests, are built in (`Handlers.LiteralPattern`).
- Values.Value: JSON numbers with a fractional part (floats) are not modelled, so neither a float `update_id` nor a float sender id can be expressed. Telegram sends floats only for locations, which the core passes through untouched.
- The bot's `admins` is taken to be a list of ints. `admins or []` with any other value (a set, a tuple, a list holding other values) is not modelled.
- The `uuid4().hex` boundary is a parameter. The code does not check that the boundary is absent from the values, and the model does not claim it.
- Logging, including the `message_type` string built only for a log line, is left out. The logging module formats messages lazily, so a `%d` of None does not raise, and the model raises nothing there.
- `inspect.getargspec` is replaced by a declared list of parameter names.
- `dir()` and `getattr` are replaced by a map of attributes. Only handlers (callable and marked `is_handler`) are told apart from other attributes.
- Multipart.FieldsOf and Multipart.FilesOf iterate dicts in ascending key order. Python 2 iterates them in hash order, which the model does not reproduce. Every property stated for the producer holds for any order of the pairs.
- Multipart.ChunkData: every `f.read(16384)` returns a full 16384 bytes until the end of the data. Short reads from a stream are not modelled. A file's stream is the sequence of bytes it yields.
- Dispatch.ExecCommand: the commands cache is not threaded from one call to the next. Each call recomputes the same list. By Handlers.CommandsComputedOnce this list equals the cached one, because owners are immutable in the model.
- A `commands` attribute that is callable and marked `is_handler` but raises when called is covered only as a handler outcome. `getattr` side effects are not modelled.
- `len()` counts the elements of the modelled string. For a Python 2 `str` that is bytes; for `unicode` it is code points. The model does not tell these apart.
- An owner records the admin list of the bot it was last assigned to, as a value, rather than a reference to the bot. Changing a bot's `admins` after registration is modelled by building the owner with the new list.
- The `timeout` and `callback` arguments of `send_request` are left out: the source never uses the timeout, and the callback only receives the response.
- pytelegram_async's `send_message` turns a `File` into `list(value)`. The model keeps the triple, because the producer only indexes it by position.
- Updates.OffsetAfterBatch does not promise an offset of the highest id plus one. The code writes `update_id + 1` after every update, so a failure part-way keeps the advance made so far, and after a full batch the offset is one past the last id. That is the highest id plus one only when ids increase (Updates.OffsetPastHighest).
- Python 2 `.encode()` on text uses the ASCII codec, so non-ASCII keys, values, file names or MIME types make the producer raise UnicodeError. The model does so, and does not assume UTF-8.
