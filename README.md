# mcp_server_email: scheduling, request shaping and tool dispatch

This project models the core of the `mcp-email` server. The server exposes five tools: `send_email`, `mass_emailing`, `get_email`, `update_email` and `cancel_email`. Each tool turns its arguments into one call to the Resend email API. The model covers three parts of `server.py`:

- **Schedule normalisation** (`convert_time_to_format`). The caller's optional `scheduled_at` text is parsed with `strptime("%Y-%m-%dT%H:%M:%S.%f")`. It is raised to at least the clock reading plus ten seconds. It is then read as Asia/Shanghai wall-clock time, moved to UTC and written by `isoformat()` with `+00:00`. The model does this with explicit calendar arithmetic: seconds carry forward, hours borrow back across days, months and years, leap years and the month-length table. Python's string ordering is modelled as well, because line 69 compares `isoformat()` texts rather than `datetime` values. The lemmas show that this comparison is exactly the comparison of instants.
- **Request shaping** (the five helpers). Each helper stores the key in `resend.api_key` and refuses a missing key. Then it normalises the schedule where it uses one, builds the payload and makes one SDK call. If the provider raises, that becomes the helper's own error. Module `EmailTools` states these steps as functions that return the request. Module `Server` performs them as methods on a `Resend.Client`. The client holds the global `api_key` and logs every request, so "no call" and "exactly one batch call" can be stated.
- **Dispatch** (the `match` in `call_tool`). The tool name is looked up in a closed enumeration. Required arguments are checked with Python truthiness. Only then is the helper called.

Modules: `Wrappers` (Option/Result), `Calendar` (date-times, instants, carry and borrow), `TimeText` (digits, `str` ordering, `isoformat`, `strptime`, `fromisoformat`), `Json` (argument values, truthiness, iteration), `Resend` (payloads, calls, the client), `Schedule` (`convert_time_to_format`), `EmailTools` (payload builders and dispatch as values) and `Server` (the same operations as methods against the client).

The clock is an input. `nowText` stands for `datetime.now().isoformat()` (line 54), and the properties take it to be `IsoFormat(clock)` for a valid `clock`. The provider is the client's `respond` function, which either returns a response or raises with a message.

Where the code behaves differently from what its comments, docstrings, tool schemas or names suggest, the model follows the code:
- Required arguments are checked before the API key. A call with a missing argument therefore fails with `MissingParameter` even when no key is configured (lines 368-372).
- "Missing" means falsy in Python. `0`, `0.0`, `False` and `{}` fail as well as `None`, `""` and `[]`. A truthy value of the wrong type, such as `1.5`, is passed on unchanged.
- The comment at line 55 speaks of a 5-second delay; the code adds 10 seconds (line 56), and the model adds 10.
- The docstring at line 47 says an invalid time yields the current time; line 79 raises instead, and `Schedule.InvalidInputIsRefused` states that no default is ever used.
- `update_email`'s dispatch requires only `email_id`, although its tool schema lists `scheduled_at` as required (line 325). The `scheduled_at` may be absent, and the floor is then sent (line 176).
- A date-time overflow is its own error, `DateOverflow`. This happens when the floor passes year 9999, or when the chosen Shanghai reading falls on 0001-01-01 or 9999-12-31: there pytz's `localize` steps one day back and one day forward and one of the two leaves the range of `datetime`. It is an `OverflowError`, which the `except ValueError` of line 78 does not turn into "Invalid time format".
- `mass_emailing` does not check that `to_email_list` is a list. A string sends one message per character. A dict sends one message per key. A truthy number (`int` or `float`) or `true` fails only when the loop tries to iterate it.

## Model

| member | source | states |
|---|---|---|
| `Calendar.AddSeconds` | server.py:56 | `datetime + timedelta(seconds=n)` with the carry into minutes, hours, days, months and years; the result is well-formed and its instant is exactly `n` seconds later |
| `Calendar.NextDay` | server.py:56 | carrying into the next day gives a well-formed date whose day number is one more, with the time of day unchanged |
| `Calendar.SubtractHours` | server.py:74-76 | the shift from a +08:00 wall clock to UTC, borrowing across day, month and year; the result is well-formed and its instant is exactly `h` hours earlier |
| `Calendar.PreviousDay` | server.py:74-76 | borrowing from the previous day (month, year) gives a well-formed date whose day number is one less, with the time of day unchanged |
| `Calendar.InstantOrder` | server.py:68-70 | comparing instants is comparing date-times field by field from the year down, and equal instants mean equal date-times |
| `TimeText.TextLe` | server.py:69 | definition of Python's `<=` on `str` (code point by code point, a proper prefix first); its contract says a prefix (`a == b[..|a|]`) is never greater, and `TimeText.TextLeAntisymmetric` and `TimeText.IsoFormatComparesInstants` state what it means on `isoformat()` texts |
| `TimeText.TextLeAntisymmetric` | server.py:69 | two texts each `<=` the other are equal, so `timer <= now` in both directions means the same schedule |
| `TimeText.IsoFormat` | server.py:54-76 | definition of `datetime.isoformat()` for a naive date-time (4-digit year, fraction omitted at zero microseconds); its contract gives the two lengths, 19 and 26, and `TimeText.IsoFormatRoundTrip` and `TimeText.IsoFormatOrder` state what it means |
| `TimeText.IsoFormatOrder` | server.py:68-70 | Python's `<=` on two `isoformat()` texts (fraction omitted at zero microseconds) holds exactly when the first date-time equals or precedes the second field by field |
| `TimeText.IsoFormatComparesInstants` | server.py:68-70 | for 4-digit years, `isoformat(a) <= isoformat(b)` as strings exactly when instant `a` <= instant `b` |
| `TimeText.FractionOrder` | server.py:68-70 | the omitted fraction sorts before every `.ffffff`, and six-digit fractions compare as their microseconds |
| `TimeText.ParseStrptime` | server.py:63 | `strptime` with `%Y-%m-%dT%H:%M:%S.%f` (CPython's field syntax, `T` in either case, no trailing text) yields only valid `datetime`s; every other input is the `ValueError` |
| `TimeText.StrptimeReadsStrftime` | server.py:63 | every valid date-time written at full width in the pattern is parsed back to itself |
| `TimeText.ParseIsoFormat` | server.py:56 | `fromisoformat` on `isoformat()`'s two shapes yields only valid date-times |
| `TimeText.IsoFormatRoundTrip` | server.py:56 | `fromisoformat(isoformat(d)) == d` for every valid `d`, so the re-parses at lines 56 and 75 lose nothing |
| `Schedule.Normalize` | server.py:42-81 | definition of `convert_time_to_format` step by step, the clock text read back and the strings compared as at line 69; its contract gives the `+00:00` suffix of every result, and `Schedule.NormalizeSchedulesLaterInstant` states what it computes |
| `Schedule.FromClock` | server.py:56-79 | definition of lines 56-76 once the clock has been read back; its contract gives the `+00:00` suffix, and `Schedule.FromClockSchedulesLaterInstant` states what it computes |
| `Schedule.UtcText` | server.py:74-76 | definition of localising in Asia/Shanghai, converting to UTC and writing with `isoformat()`; its contract gives the `+00:00` suffix and `DateOverflow` as the only failure, and `Schedule.UtcTextShiftsEightHours` gives the exact 8-hour shift and the dates where `localize` overflows |
| `Schedule.ScheduledLocal` | server.py:63-70 | the independent reference for line 69: the later instant of the parsed input and the floor, or the floor when there is no input; its contract says the choice is valid and no earlier than either |
| `Schedule.NormalizeSchedulesLaterInstant` | server.py:54-79 | `convert_time_to_format` equals the instant-based reference: the later of the parsed input and `now + 10 s` (the floor when absent), sent through the UTC step; errors are the same |
| `Schedule.FromClockSchedulesLaterInstant` | server.py:56-79 | the same equality once the clock text has been read back |
| `Schedule.AbsentInputSchedulesFloor` | server.py:64-66 | without input the floor itself is converted |
| `Schedule.ParsedInputSchedulesLaterInstant` | server.py:63-76 | with a parsed input, the string comparison of line 69 keeps the input exactly when its instant is after the floor |
| `Schedule.LaterInputIsKept` | server.py:63-70 | an input strictly later than the floor is converted unchanged |
| `Schedule.EarlyInputIsRaisedToFloor` | server.py:68-70 | an input at or before the floor is replaced by the floor |
| `Schedule.AbsentInputIsFloor` | server.py:64-70 | an absent input yields the floor in UTC; it is `DateOverflow` exactly when the floor passes year 9999 or falls on 0001-01-01 or 9999-12-31 |
| `Schedule.InvalidInputIsRefused` | server.py:57-63 | the result is "Invalid time format" exactly when the input is present and is not a string `strptime` accepts; it never falls back to a default |
| `Schedule.UtcTextShiftsEightHours` | server.py:73-76 | the output ends in `+00:00`, reads back, and lies exactly 8 hours before the Shanghai wall-clock reading; it fails exactly when the reading falls on 0001-01-01 or 9999-12-31, where `localize` overflows |
| `Schedule.ScheduleNeverBeforeFloor` | server.py:54-76 | any schedule produced, read back and put at +08:00, is never earlier than `now + 10 s` and is exactly the reference choice |
| `Schedule.ScheduledLocalNotBeforeFloor` | server.py:68-70 | the reference choice is never before `now + 10 s` |
| `Json.Truthy` | server.py:369 | definition of Python's `bool()` as the `not …` tests at lines 369, 383, 393, 407 and 417 use it; its contract lists the falsy values: `None`, `False`, `0`, `0.0`, `""`, `[]`, `{}` |
| `Json.Iterate` | server.py:137 | `for` visits a list's items, a string's characters or a dict's keys (each key once), and raises for any other value, a number included |
| `Resend.Client.constructor` | server.py:3 | the `resend` module state that the helpers write at lines 89, 123, 154, 169 and 192: a client starts with the given key and provider and an empty call log |
| `Resend.Client.Perform` | server.py:116 | one SDK call appends exactly one request, made with the current key, to the log and returns the provider's reply |
| `EmailTools.Lookup` | server.py:26-38 | the `match name` finds a tool only under that tool's own enum value |
| `EmailTools.Admitted` | server.py:368-418 | definition: the name is a tool's and every argument that tool requires is truthy, the tests at lines 369, 383, 393, 407 and 417; `EmailTools.MissingParameterComesFirst` shows it is exactly what the dispatch checks |
| `EmailTools.LookupFindsEachTool` | server.py:353-423 | a name selects a tool exactly when it is that tool's name |
| `EmailTools.UnknownNameIsRefused` | server.py:422-423 | any other name ends in `UnknownTool`, whatever the arguments, key and schedule |
| `EmailTools.MissingParameterComesFirst` | server.py:368-419 | a known tool fails with `MissingParameter` exactly when a required argument is absent or falsy, whatever the key, including no key |
| `EmailTools.AdmittedCallReachesHelper` | server.py:354-421 | once its required arguments are truthy, a call is exactly its helper applied to the arguments `call_tool` read (`cc`/`bcc` as `[]` when not given) |
| `EmailTools.CredentialCheckRefusesOnlyNone` | server.py:89-93 | after admission, `MissingCredential` happens exactly when the key is `None`; an empty key passes, and the request carries the configured key and the tool's own call |
| `EmailTools.SendEmailRequest` | server.py:87-113 | key check first, then the schedule: it fails exactly for no key or a refused schedule; otherwise there is one payload to `[to_email]` from the domain, with `""` when there is no schedule, and `cc`/`bcc` defaulting to `[]` |
| `EmailTools.SendEmailMessage` | server.py:354-372 | a `send_email` tool call with a key builds one payload: the one recipient, the sender domain, subject and body as given, `scheduled_at` empty unless a schedule is given, `cc`/`bcc` as given or `[]` |
| `EmailTools.BatchFor` | server.py:135-144 | definition of the list the loop builds; its contract gives one payload per recipient, each to a single address with the shared subject and body, and `EmailTools.BatchMessages` and `EmailTools.BatchRecipients` give the contents |
| `EmailTools.MassSendingRequest` | server.py:121-144 | key check, then the schedule, then iteration of the list: the error cases, and one batch call built from the recipients iterated |
| `EmailTools.BatchReachesEachRecipient` | server.py:135-144 | the batch has one payload per recipient, in order, each to that recipient alone, with the same sender, subject, body and schedule |
| `EmailTools.BatchMessages` | server.py:137-144 | payload `i` of the batch is addressed to recipient `i` alone, with the shared sender, subject, body and schedule, and there are as many payloads as recipients |
| `EmailTools.BatchRecipients` | server.py:137-144 | reading the batch's `to` lists back in order gives exactly the recipient list, duplicates included |
| `EmailTools.MassEmailingMessages` | server.py:374-387 | an admitted `mass_emailing` call with a key succeeds exactly when the schedule converts and the list iterates; it then makes one batch whose recipients are the list's elements in order, with identical sender, subject, body and schedule |
| `EmailTools.RecipientListIsNotChecked` | server.py:375-387 | a string recipient list sends one message per character, and a truthy number or boolean fails at the loop |
| `EmailTools.EmptyScheduleIsRefused` | server.py:361-372 | `scheduled_at: ""` is not "send now" but an invalid time format |
| `EmailTools.Settle` | server.py:115-119 | definition of the helpers' `try`/`except` (also lines 146-150, 161-165, 184-188, 199-203); its contract says a response passes through unchanged and any exception becomes `ProviderCallFailed` for the tool that made the call |
| `EmailTools.ToolCallRequest` | server.py:353-423 | definition of the `match` in `call_tool` given the conversion's outcome; its contract says a request is made only for an admitted call with a key, under that key, and `EmailTools.UnknownNameIsRefused`, `EmailTools.MissingParameterComesFirst`, `EmailTools.AdmittedCallReachesHelper` and `EmailTools.CredentialCheckRefusesOnlyNone` state the rest |
| `EmailTools.ToolCall` | server.py:353-423 | `ToolCallRequest` with the conversion `Normalize` of the call's `scheduled_at`; its contract says a request is made only for an admitted call with a key |
| `EmailTools.GetEmailRequest` | server.py:152-162 | fails exactly when no key is set; otherwise it asks for the given id unchanged |
| `EmailTools.UpdateEmailRequest` | server.py:167-185 | key check, then the schedule is always converted: it fails exactly for no key or a refused schedule; otherwise it updates the id with the converted time |
| `EmailTools.UpdateWithoutScheduleUsesFloor` | server.py:399-411 | `update_email` without `scheduled_at` sends `now + 10 s` in UTC, not a "clear schedule" signal |
| `EmailTools.CancelEmailRequest` | server.py:190-200 | fails exactly when no key is set; otherwise it cancels the given id unchanged |
| `Server.SendEmail` | server.py:87-119 | stores the key, and either fails with no request logged or logs exactly the one request `SendEmailRequest` describes; a provider exception becomes `ProviderCallFailed(send_email, …)` |
| `Server.BuildBatch` | server.py:135-144 | the loop that appends one payload per recipient builds exactly the reference batch: same length, same recipients in order, one recipient per payload |
| `Server.MassSending` | server.py:121-150 | either no request, or exactly one batch request with the payloads `MassSendingRequest` describes, settled by the provider's reply |
| `Server.GetEmail` | server.py:152-165 | stores the key, then no request or exactly one `Emails.get`, settled by the provider |
| `Server.UpdateEmail` | server.py:167-188 | stores the key, then no request or exactly one `Emails.update` with the converted schedule |
| `Server.CancelEmail` | server.py:190-203 | stores the key, then no request or exactly one `Emails.cancel`, settled by the provider |
| `Server.CallTool` | server.py:353-430 | the request log and outcome are those of the dispatch function: unknown names and missing arguments log nothing, and the global key is set only once a helper is reached |

## Left out

- The MCP scaffolding is not modelled: `list_tools` and its JSON schemas (lines 209-345), the `call_tool` decorator, and the stdio transport (lines 432-434). These are protocol plumbing with no logic of their own.
- The rendering of a result with `json.dumps(result, indent=2)` (lines 425-427) is not modelled. A provider response is an opaque `Json.Value` that is passed through.
- Error message texts are not modelled. This covers the `McpError` and `ValueError` messages and the wrapping at line 430. Errors are the tags of `EmailTools.Error`.
- The log file and `write_log` (lines 17-23) are file I/O. `dict_to_str` (lines 84-85) is never called.
- `main.py` is argument parsing and `asyncio.run`. The key and domain it reads are the `Option<string>` parameters `apiKey` and `domain`.
- `datetime.now()` is a clock read. It is the parameter `nowText`.
- Schedule.UtcText: the pytz time-zone database is replaced by the fixed +08:00 offset of Asia/Shanghai for every date. pytz gives Asia/Shanghai its local mean time of +08:06 before 1901 and +09:00 during its daylight-saving periods (in 1919, 1940-1949 and 1986-1991), so a chosen reading in those ranges gets a different UTC text there. Such a reading is chosen only when the clock itself is set to those years, or when the input is later than the floor and lies in those years, which needs a clock set before 1992. The overflow on the first and last day is modelled.
- The Resend SDK and its network calls are the client's `respond` function. A reply depends only on the request and its key, so a provider whose answers change with its own state (say, `get` after `update`) is not captured.
- `TimeText.ParseStrptime` accepts ASCII digits only. CPython's `\d` also matches other Unicode decimal digits.
- `TimeText.ParseIsoFormat` reads only the two shapes that `isoformat()` writes for a naive date-time. `fromisoformat` is applied only to such texts here.
- Asynchronous execution is not modelled. Each call is a sequential method on the client.
