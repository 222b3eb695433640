# chatsharepy, modelled in Dafny

chatsharepy relays chat between Minecraft servers run on a Pelican panel and
a Discord channel. For each server, a websocket client does four things:

- It fetches a token from the panel's client API, retrying on failure.
- It opens the panel's console websocket and authenticates on it.
- It reads `console output` frames.
- It strips ANSI colour codes and prefixes the server's external id.

It then parses each line against the grammar table of the server's dialect
(`vanilla` or `atm10`). A chat line becomes a display line and a `tellraw`
command, which is broadcast through the global websocket. Joins, parts, bans
and pardons become display lines only.

A small event emitter connects the Discord client to the rest:

- A message posted in the watched channel is emitted as a `chat` event with
  source `discord`.
- A `chat` event from any other source is posted to the channel as
  `[source] <sender> message`.

The Dafny project has one module per source file, plus three shared ones:

- `Wrappers` holds `Option`.
- `Text` holds character classes, ASCII lower-casing and decimal digits.
- `Json` holds `json.dumps` of a string, with a decoder as its partner.

The per-file modules are `Regexes`, `Minecraft`, `Events`, `Broadcasting`,
`Websockets` and `Discord`. Objects whose fields change are classes:

- `EventEmitter`
- `Socket` (the frames sent on it, and whether it is closed)
- `Broadcaster` (the global websocket slot)
- the websocket `Client`
- `DiscordClient`

Everything else is a datatype or a function. The loops of the source are
methods proved against specification functions:

- the scan of a grammar table;
- the credential retry loop;
- the listener loop of `emit`.

## Model

| member | source | states |
|---|---|---|
| Text.Lower | src/minecraft.py:21 | on ASCII ids, `.lower()` keeps the length and lowers each character independently |
| Text.LowerIsLower | src/minecraft.py:21 | a lowered id is already lower-case |
| Text.LowerOfLower | src/minecraft.py:52 | lowering a lower-case string changes nothing, so the comparison of lowered tags is stable |
| Text.LowerAppend | src/minecraft.py:52 | lowering distributes over concatenation |
| Text.Pad2 | src/minecraft.py:100 | `%I`/`%M` print two decimal digits whose value is the field |
| Text.NatToString | src/websockets.py:64 | `str(max_retries)` is a non-empty run of decimal digits |
| Text.NatToStringRoundTrip | src/websockets.py:64 | the printed retry count reads back as the count |
| Json.EscapeChar | src/broadcast.py:17 | defines how `json.dumps` writes one character (two-character escapes, printable ASCII kept, `\uXXXX` for every other character and a surrogate pair above U+FFFF); `EscapeCharRoundTrip` gives its meaning |
| Json.Escape | src/broadcast.py:17 | defines the body of a `json.dumps` string, character by character; `EscapeRoundTrip` gives its meaning |
| Json.Quote | src/broadcast.py:17 | defines `json.dumps` of a str; `QuoteRoundTrip` proves `json.loads` reads it back |
| Json.Hex4 | src/broadcast.py:17 | a `\uXXXX` escape carries exactly four hex digits |
| Json.Hex4RoundTrip | src/broadcast.py:17 | four hex digits read back as the code unit they print |
| Json.TwoCharEscapeRoundTrip | src/broadcast.py:17 | each two-character escape of `json.dumps` decodes to its character |
| Json.BmpEscapeRoundTrip | src/broadcast.py:17 | a `\uXXXX` escape of a BMP character decodes to it |
| Json.AstralEscapeRoundTrip | src/broadcast.py:17 | the surrogate pair written for a character above U+FFFF decodes to that one character |
| Json.EscapeCharRoundTrip | src/broadcast.py:17 | every escaped character decodes back, whatever follows it |
| Json.EscapeRoundTrip | src/broadcast.py:17 | an escaped body followed by `"` decodes to the original text and the rest |
| Json.QuoteRoundTrip | src/broadcast.py:17 | `json.loads(json.dumps(s)) == s` for every str, with trailing text left over |
| Regexes.Match | src/regexes.py:3-27 | defines `re.match` of one pattern of the `vanilla` and `atm10` tables (the constants `Regexes.Vanilla` and `Regexes.Atm10`); `MatchRoundTrip`, `MatchShape` and `MatchWithHeader` give its meaning |
| Regexes.MatchAction | src/regexes.py:10-13 | defines the ban and pardon bodies after the verb, with an optional, required or absent reason; `ActionBodyRoundTrip` and `OptionalReasonNeverCaptured` give its meaning |
| Regexes.BannedWithReason | src/regexes.py:24 | defines the backtracking of `(?P<user>\S+): (?P<message>.+)`; `RequiredReasonRoundTrip` and `BannedWithReasonShape` give its meaning |
| Regexes.Literal | src/regexes.py:5 | a literal piece of a pattern matches exactly when it is a prefix, and leaves the remainder |
| Regexes.Span | src/regexes.py:5 | a greedy class run is the longest prefix of that class |
| Regexes.RunAppend | src/regexes.py:5 | a greedy `k+` run over a valid run followed by a stopping character takes exactly that run |
| Regexes.ThreadTagRoundTrip | src/regexes.py:18 | the ` [module/thread]` tag of the modded dialect is read past exactly |
| Regexes.MatchAfterHeader | src/regexes.py:3-27 | past the header, a pattern's groups are the header's tag and clock plus what the body reads |
| Regexes.MatchWithHeader | src/regexes.py:3-27 | a well-formed header followed by a body matches as that body does |
| Regexes.HeaderRoundTrip | src/regexes.py:5 | the header of every pattern reads back the server tag and clock it was written with |
| Regexes.StampRoundTrip | src/regexes.py:5 | the `[server] [hh:mm:ss] [Server thread/INFO]` stamp reads back its tag and clock |
| Regexes.ChatBodyRoundTrip | src/regexes.py:5 | the chat body `<user> message` reads back user and message |
| Regexes.AnnounceBodyRoundTrip | src/regexes.py:7-9 | a join or part body reads back its user and carries no message |
| Regexes.ReasonTailRoundTrip | src/regexes.py:24 | the `: reason` tail reads back the reason |
| Regexes.RequiredReasonRoundTrip | src/regexes.py:24 | the modded ban's backtracking finds the user just before the `: ` that ends it, and the reason after it |
| Regexes.ActionBodyRoundTrip | src/regexes.py:11-13 | a ban or pardon body reads back its user, and its reason where the pattern requires one |
| Regexes.MatchRoundTrip | src/regexes.py:3-27 | writing a line of any format and matching it gives back the fields it was written with; the optional ban/pardon reason of the plain dialect is never captured |
| Regexes.RunShape | src/regexes.py:5 | a greedy run is a non-empty run of its class and is cut where the class ends |
| Regexes.ReasonTailShape | src/regexes.py:24 | a captured reason is a non-empty run without newline |
| Regexes.BannedWithReasonShape | src/regexes.py:24 | whatever the backtracking ban reads is a non-space user and a non-empty reason |
| Regexes.HeaderShape | src/regexes.py:5 | what a header matches is a valid tag, a clock and the text after `: ` |
| Regexes.StampShape | src/regexes.py:5 | what the stamp matches is written with a valid tag and clock |
| Regexes.BodyShape | src/regexes.py:3-27 | what a body reads are runs of the classes its pattern gives user and message |
| Regexes.MatchShape | src/regexes.py:3-27 | every match starts with `[tag] [dd:dd:dd] [Server thread/INFO]` for a non-empty tag without `]`, and its user and message are runs of their classes |
| Regexes.OptionalReasonNeverCaptured | src/regexes.py:11-13 | in the plain dialect's ban and pardon the optional reason group never takes part in a match |
| Regexes.NoColonNoReason | src/regexes.py:24 | the modded ban cannot match when the user's non-space run does not end in `:` |
| Regexes.RequiredReasonNeedsReason | src/regexes.py:24 | `Banned <user>` without a reason is no ban line in the modded dialect |
| Regexes.RequiredReasonBodyNone | src/regexes.py:24 | the modded ban body refuses a user with no reason after it |
| Regexes.ThreadTagTransparent | src/regexes.py:16-27 | with the thread tag, a modded line reads the same groups as the plain line without it |
| Regexes.DialectsCompared | src/regexes.py:3-27 | both tables have the same five keys in order; chat, join and part differ only by the thread tag; the modded ban requires a reason and the modded pardon takes none |
| Regexes.TableKeys | src/regexes.py:3-27 | both tables list message, join, part, ban and pardon in that order, and neither has an advancement entry |
| Minecraft.TimeCvt | src/minecraft.py:94-102 | defines `time_cvt`; `TimeCvtReadBack`, `TimeCvtIdempotent` and `TimeCvtRejects` give its meaning |
| Minecraft.ChatCommand | src/minecraft.py:109-113 | defines the chat `tellraw` command; `BuildChatMessage` and `ChatLineRelayed` state where it goes |
| Minecraft.ChatDisplay | src/minecraft.py:116 | defines the chat display line; `ChatDisplayRoundTrip` reads it back |
| Minecraft.AdvancementCommand | src/minecraft.py:125-128 | defines the advancement `tellraw` command; `BuildEvent` states when it is broadcast |
| Minecraft.EventDisplay | src/minecraft.py:131-134 | defines the event display line; `EventDisplayIgnoresKind` and `AnnounceLineRelayed` state its use |
| Minecraft.ParseClock | src/minecraft.py:99 | `strptime("%H:%M:%S")` yields only hours below 24, minutes below 60 and seconds below 60 |
| Minecraft.Hour12 | src/minecraft.py:100 | the `%I` hour is between 1 and 12 |
| Minecraft.Format12ReadBack | src/minecraft.py:100 | the 12-hour clock reads back as the 24-hour hour and minute it was formatted from |
| Minecraft.TimeCvtReadBack | src/minecraft.py:94-102 | a converted clock reads back as the parsed hour and minute; seconds are dropped |
| Minecraft.Format12DoesNotParse | src/minecraft.py:99-102 | no 12-hour clock parses as a 24-hour one, so a converted clock is returned unchanged by a second conversion |
| Minecraft.TimeCvtIdempotent | src/minecraft.py:94-102 | converting twice is converting once |
| Minecraft.ClockConverts | src/minecraft.py:99-102 | on a `dd:dd:dd` clock, the conversion succeeds exactly when hour, minute and second are in range |
| Minecraft.TimeCvtAfternoon | src/minecraft.py:94-102 | `14:30:00` becomes `02:30PM` |
| Minecraft.TimeCvtEvening | src/minecraft.py:94-102 | `19:41:36` becomes `07:41PM` |
| Minecraft.TimeCvtMidnightNoon | src/minecraft.py:94-102 | hour 0 is 12 AM and hour 12 is 12 PM |
| Minecraft.TimeCvtRejects | src/minecraft.py:101-102 | a leap second, hour 24 and non-clock text are returned unchanged |
| Minecraft.BuildChatMessage | src/minecraft.py:105-116 | a chat line is displayed as `[server] [time] <user> message` and always broadcast from its origin with `except_origin` set, as the three-part red, blue and white `tellraw @a [` command |
| Minecraft.BuildEvent | src/minecraft.py:119-134 | only an advancement is broadcast, as the advancement `tellraw`; every other event kind is only displayed |
| Minecraft.EventDisplayIgnoresKind | src/minecraft.py:131-134 | the display line of an event does not depend on its kind: every kind uses the advancement wording |
| Minecraft.ChatDisplayRoundTrip | src/minecraft.py:116 | the chat display line reads back as the server, clock, user and message it was built from |
| Minecraft.GrammarFor | src/minecraft.py:42-45 | a grammar table is found exactly for `vanilla` and `atm10`: `vanilla` gives the plain table, `atm10` the modded one, every other name none; each table is shaped by its dialect's header |
| Minecraft.FirstMatch | src/minecraft.py:47-60 | defines the first table entry that accepts the line, with its groups; `FirstMatchAt`, `FirstMatchNone` and `FirstMatchIsLeast` give its meaning |
| Minecraft.ReadWith | src/minecraft.py:47-87 | defines reading a line with one table and dispatching the match; `ScanTable` is the loop proved against it |
| Minecraft.ParseSpec | src/minecraft.py:14-91 | defines `parse_output`; `ParseOutput` is the method proved against it and `ParseNone` says when it relays nothing |
| Minecraft.FirstFromSpec | src/minecraft.py:47-49 | the search from `k` finds the least satisfying index at or after `k`, and nothing exactly when none satisfies |
| Minecraft.FirstWhereSpec | src/minecraft.py:47-49 | the table search finds the least satisfying entry, and nothing exactly when none satisfies |
| Minecraft.FirstWhereAt | src/minecraft.py:47-49 | the search stops at the least index whose entry satisfies the test |
| Minecraft.Dispatch | src/minecraft.py:58-84 | only the `message` and `advancement` arms broadcast (what each arm displays is stated by `ChatLineRelayed`, `AnnounceLineRelayed` and `ActionLineRelayed`) |
| Minecraft.ParseOutput | src/minecraft.py:14-91 | `parse_output` returns what the specification function gives: nothing for an empty id or an unknown dialect, otherwise the relay of the first accepting entry |
| Minecraft.ScanTable | src/minecraft.py:47-87 | the loop over a table's entries dispatches the first entry that matches and carries the server's tag |
| Minecraft.FindFirst | src/minecraft.py:47-52 | the loop stops at the first entry satisfying the test, and that entry satisfies it |
| Minecraft.FirstMatchAt | src/minecraft.py:47-60 | a line whose earliest accepting entry is `t[i]` is read with that entry's key and groups |
| Minecraft.FirstMatchNone | src/minecraft.py:47-87 | a table reads no line exactly when none of its entries accepts it |
| Minecraft.FirstMatchIsLeast | src/minecraft.py:47-87 | what a table reads comes from its least accepting entry |
| Minecraft.ParseNone | src/minecraft.py:14-91 | nothing is relayed exactly when the id is empty, names no table, or no entry accepts the line |
| Minecraft.EmptyLineIgnored | src/minecraft.py:47-49 | an empty console line is never relayed |
| Minecraft.RelayedLineCarriesOwnTag | src/minecraft.py:52 | a relayed line's leading tag is this server's id, up to case |
| Minecraft.FirstMatchFromTable | src/minecraft.py:81-82 | a match comes from a table entry, so the `advancement` arm is never taken |
| Minecraft.OnlyChatBroadcasts | src/minecraft.py:58-84 | only chat lines are broadcast; every other relayed line is only displayed |
| Minecraft.ChatLineRead | src/minecraft.py:47-60 | a chat line of either dialect is read by the table's first entry, `message` |
| Minecraft.ChatLineRelayed | src/minecraft.py:14-116 | a chat line with the server's own tag is displayed as `[server] [12-hour clock] <user> message` and broadcast as a `tellraw` of the same user and message |
| Minecraft.JoinBodyRefusesPart | src/regexes.py:7-9 | the join pattern refuses a part line |
| Minecraft.AnnounceNotChat | src/minecraft.py:47-49 | the chat entry refuses a join or part line whose user does not start with `<` |
| Minecraft.PartNotJoin | src/minecraft.py:47-49 | the join entry refuses a part line |
| Minecraft.AnnounceAccepted | src/minecraft.py:47-49 | the join or part entry matches the line it renders |
| Minecraft.AnnounceLineRead | src/minecraft.py:47-70 | a join or part line whose user does not start with `<` is read by the `join` or `part` entry |
| Minecraft.AnnounceLineRelayed | src/minecraft.py:61-70 | a join or part line with the server's own tag is displayed with the advancement wording and not broadcast |
| Minecraft.PhraseRefusesOtherUser | src/regexes.py:7-9 | the join or part phrase cannot follow a ban or pardon verb unless the user is that phrase's first word |
| Minecraft.ActionBodyRefusesAnnounce | src/regexes.py:7-11 | the join and part patterns refuse a `Banned user` or `Unbanned user` body whose user is not `joined` or `left` |
| Minecraft.ActionBodyRefused | src/regexes.py:5-13 | the chat, join and part bodies, and for a pardon the ban body, all refuse a ban or pardon body |
| Minecraft.ActionNotEarlier | src/minecraft.py:47-49 | the entries tried before a ban or pardon entry, behind the same header, do not match its line |
| Minecraft.ActionLineRead | src/minecraft.py:47-60 | a ban or pardon line of either dialect is read by the `ban` or `pardon` entry, with the reason as `message` only where the pattern requires it |
| Minecraft.ActionLineRelayed | src/minecraft.py:71-80 | a ban line with the server's own tag is displayed as "was banned from the server.", a pardon line as "was unbanned from the server." (built as a `ban` event), and neither is broadcast |
| Minecraft.VanillaBanKeepsColon | src/regexes.py:10-11 | a vanilla `Banned user: reason` line with the server's own tag is displayed with `user:` as the user, colon kept and reason dropped, and is not broadcast |
| Minecraft.BannedColonText | src/regexes.py:10-11 | the line of that lemma is `[tag] [time] [Server thread/INFO]: Banned user: reason` |
| Events.Registered | src/events.py:16-26 | `on` appends the listener to its event's list, creating the list when absent, and leaves other events alone |
| Events.RemoveFirst | src/events.py:28-40 | `list.remove` drops one element when present and changes nothing otherwise |
| Events.Unregistered | src/events.py:28-40 | `off` removes the first occurrence of the listener from its event's list (nothing when absent, and no list is created), keeps every event key, and leaves the other events' lists alone |
| Events.RemoveFirstAt | src/events.py:35 | `remove` deletes exactly the first occurrence |
| Events.RemoveFirstMultiset | src/events.py:35 | `remove` takes exactly one copy of the listener out of the list |
| Events.RemoveFirstAfterAppend | src/events.py:16-40 | removing a newly appended listener gives back the old list |
| Events.OffUndoesOn | src/events.py:16-40 | `off` undoes `on` for a listener not yet registered |
| Events.Emitted | src/events.py:42-53 | defines the calls `emit` makes and whether it raises; `EmitCallsAll`, `EmitStopsAtRaise` and `EmitFailsIffRaise` give its meaning |
| Events.Calls | src/events.py:42-53 | every listener is called once, in order, with the same arguments |
| Events.EmitCallsAll | src/events.py:42-53 | when no listener raises, `emit` calls all of them in order and raises nothing |
| Events.EmitStopsAtRaise | src/events.py:42-53 | the first raising listener ends the emit: the listeners up to it are called, none after |
| Events.EmitFailsIffRaise | src/events.py:42-53 | `emit` raises exactly when some listener raises |
| Events.EmitOnFreshEmitter | src/events.py:10-14 | an event with no listeners calls nothing |
| Events.EventEmitter.constructor | src/events.py:10-14 | a new emitter has no events |
| Events.EventEmitter.On | src/events.py:16-26 | the new registry is the old one with the listener registered |
| Events.EventEmitter.Off | src/events.py:28-40 | the new registry is the old one with the listener unregistered |
| Events.EventEmitter.Emit | src/events.py:42-53 | the loop produces the calls and the raise the specification function gives |
| Broadcasting.Socket.Send | src/broadcast.py:17 | a send appends exactly that frame and leaves the socket open or closed as it was |
| Broadcasting.Socket.Close | src/websockets.py:91 | closing marks the socket closed and sends nothing |
| Broadcasting.Envelope | src/broadcast.py:17 | defines the `send command` frame; `EnvelopeRoundTrip` and `EnvelopeInjective` give its meaning |
| Broadcasting.EnvelopeRoundTrip | src/broadcast.py:17 | the `send command` frame reads back as the command it carries |
| Broadcasting.EnvelopeInjective | src/broadcast.py:17 | different commands give different frames |
| Broadcasting.Broadcaster.constructor | src/broadcast.py:4 | the global websocket starts unset |
| Broadcasting.Broadcaster.SetGlobalWebsocket | src/broadcast.py:7-10 | the global slot now holds the given socket |
| Broadcasting.Broadcaster.BroadcastToAll | src/broadcast.py:13-17 | with a socket set, exactly one frame wrapping the data is sent on it and it is not closed; with none, nothing is sent |
| Broadcasting.Broadcaster.Deliver | src/broadcast.py:13-17 | a relay's broadcast request, if any, is sent as one frame that reads back as its command |
| Broadcasting.Frames | src/broadcast.py:17 | a request yields one frame that opens to its data, and no request yields none |
| Websockets.CredentialsUrlRoundTrip | src/websockets.py:37 | the server id reads back out of the credentials URL |
| Websockets.SocketUrlToken | src/websockets.py:160 | the socket URL determines the wings token it carries |
| Websockets.Pow2 | src/websockets.py:59 | `2 ** attempt` is positive |
| Websockets.SleepIsPower | src/websockets.py:59 | the doubling wait equals `backoff_factor * 2 ** attempt` |
| Websockets.Decide | src/websockets.py:43-56 | defines how an outcome that is not retried ends the loop: a 403 raises `PermissionError`, an answer stores its token, a DNS failure raises at once; `DecidedAt` gives its meaning |
| Websockets.FetchFrom | src/websockets.py:39-72 | defines the retry loop from one attempt on; `DecidedAt`, `GivesUpAfterAll` and `FetchWaitsDouble` give its meaning |
| Websockets.Waits | src/websockets.py:58-62 | the k-th wait of the retry loop is the backoff doubled k times from the first attempt |
| Websockets.NoAttemptIffNoRetries | src/websockets.py:39 | no request is made exactly when `max_retries` is not positive, and the token is then untouched |
| Websockets.DecidedAt | src/websockets.py:39-72 | after k retryable failures, the next decisive answer ends the loop with k+1 requests and the doubling waits between them |
| Websockets.GivesUpAfterAll | src/websockets.py:58-72 | when every attempt fails retryably, the last failure is raised with `Failed to connect`/`Request failed after N attempts` |
| Websockets.FetchBounds | src/websockets.py:39 | no more than `max_retries` requests are made, with one wait between each two |
| Websockets.FetchWaitsDouble | src/websockets.py:58-70 | the waits are exactly the backoff doubling from the first attempt |
| Websockets.DefaultFetchDecides | src/websockets.py:30 | with the default three retries, some ending is reached within three requests |
| Websockets.RetryThenSuccess | tests/test_websocket.py:70-82 | a connection failure and then a token answer stores the token after two requests and one wait |
| Websockets.StripAnsi | src/websockets.py:120 | defines the `re.sub` that removes colour escapes; `StripPlain`, `StripColour`, `StripSubsequence` and the lemmas below give its meaning |
| Websockets.ParamRun | src/websockets.py:120 | a `[0-9;]*` run is the longest prefix of digits and `;` |
| Websockets.SgrLength | src/websockets.py:120 | an escape the pattern removes is either absent or at least the three characters `ESC [ m`, and never runs past the text |
| Websockets.SgrLengthShape | src/websockets.py:120 | a removed escape is exactly `ESC [ codes m` with only digits and `;` in the codes |
| Websockets.SgrLengthOfCode | src/websockets.py:120 | a colour escape at the start of the text is removed whole, whatever follows it |
| Websockets.StripFirstPlain | src/websockets.py:120 | a text that does not start with a whole colour escape keeps its first character |
| Websockets.StripKeepsTruncated | src/websockets.py:120 | an escape cut off before its `m` (such as `ESC[31`) is kept |
| Websockets.StripKeepsOtherEscape | src/websockets.py:120 | an escape that is not a colour escape (such as `ESC(B`) is kept |
| Websockets.StripPlain | src/websockets.py:120 | text without ESC is left unchanged |
| Websockets.StripColour | src/websockets.py:120 | a colour escape before the text is removed |
| Websockets.StripSubsequence | src/websockets.py:120 | the cleaned output is a subsequence of the raw output: stripping only deletes |
| Websockets.AuthFrame | src/websockets.py:99 | defines the reply to `auth required`; `AuthFrameRoundTrip` reads its token back |
| Websockets.OpenFrame | src/websockets.py:157 | defines the frame sent on open; `OpenFrameRoundTrip` reads its token back |
| Websockets.ConsoleReaction | src/websockets.py:117-125 | defines the reaction to a `console output` frame; `ParsedIffSingleConsoleArg` and `ConsoleOutputParsed` give its meaning |
| Websockets.React | src/websockets.py:78-127 | defines the reaction to each inbound frame; `RepliesCarryToken` and `ConsoleChatRelayed` give its meaning |
| Websockets.AuthFrameRoundTrip | src/websockets.py:99 | the `auth required` reply reads back the token it carries |
| Websockets.OpenFrameRoundTrip | src/websockets.py:157 | the frame sent on open reads back the token it carries |
| Websockets.ParsedIffSingleConsoleArg | src/websockets.py:117-125 | a `console output` frame is parsed exactly when it has one argument |
| Websockets.RepliesCarryToken | src/websockets.py:96-99 | an `auth required` frame is answered with an auth frame that reads back the client's token |
| Websockets.ConsoleLineUncoloured | src/websockets.py:120-125 | a coloured console line is parsed as the uncoloured line prefixed by the server's tag |
| Websockets.ConsoleOutputParsed | src/websockets.py:117-125 | a single-argument console frame gives what `parse_output` gives for `[external_id] cleaned` |
| Websockets.ConsoleChatRelayed | src/websockets.py:117-125 | a coloured chat line of the server's own dialect is displayed and broadcast as its user and message |
| Websockets.Client.constructor | src/websockets.py:24-28 | a new client has the server's external id as origin, the class's empty token, no server and no socket |
| Websockets.Client.GetWebsocketCredentials | src/websockets.py:30-72 | the retry loop reaches the ending, request count and waits of the specification function; the token changes only on an answer |
| Websockets.Client.ConnectToServer | src/websockets.py:74-177 | on a stored token, a fresh socket with the panel URL and headers becomes the global websocket; otherwise nothing else changes |
| Websockets.Client.OnMessage | src/websockets.py:78-127 | the reaction is the one the specification gives; its reply goes on this socket and its broadcast on the global one; the socket is closed exactly on `jwt error` |
| Websockets.Client.OnOpen | src/websockets.py:153-157 | opening waits 3 seconds and sends exactly one auth frame with the token in a list |
| Websockets.Client.OnError | src/websockets.py:129-145 | an error closes the socket without sending; the error counter is local, so every error sleeps 3 seconds and never 600 |
| Websockets.Client.KeepAliveLoop | src/websockets.py:106-113 | the keep-alive thread sends one `send stats` frame (the constant `KeepAliveFrame`) per round and sleeps 30 seconds after each send that succeeds |
| Websockets.Repeat | src/websockets.py:107-113 | the frames and sleeps of the keep-alive loop are `n` copies of one value |
| Discord.Forwarded | src/discord_client.py:44-65 | a message is forwarded exactly when it is in the watched channel and not by the bot, with source `discord` |
| Discord.Relayed | src/discord_client.py:68-78 | a `chat` event is posted exactly when its source is not `discord`, as one line |
| Discord.NoEcho | src/discord_client.py:44-78 | a message forwarded from Discord is never posted back to it |
| Discord.NoEchoThroughEmitter | src/discord_client.py:60-78 | every listener called for a forwarded message gets a payload it does not post |
| Discord.IndexOf | src/discord_client.py:77 | the position found holds the first occurrence of the character |
| Discord.ChatLine | src/discord_client.py:77 | defines the line posted for a `chat` event; `ChatLineRoundTrip` reads it back |
| Discord.ChatLineRoundTrip | src/discord_client.py:77 | a posted line reads back as its source, sender and message when the source has no `]` and the sender no `>` |
| Discord.DiscordClient.constructor | src/discord_client.py:13-31 | the client remembers the channel and registers itself under `chat` |
| Discord.DiscordClient.OnMessage | src/discord_client.py:44-65 | a forwarded message calls every `chat` listener in order with its payload; any other message calls none |
| Discord.DiscordClient.OnChatMessage | src/discord_client.py:68-78 | the watched channel gains exactly the relayed line |

## Left out

- Character classes: `\d` and `.lower()` are modelled for ASCII only. Python's `re` also accepts other Unicode decimal digits. `str.lower` also lowers non-ASCII letters, and for some of them changes the length (`'İ'.lower()` is two code points), so `Text.Lower` keeping the length holds for ASCII ids only.
- Table lookup: `getattr(src.regexes, name, None)` gives a grammar table for `vanilla` and `atm10` only. A name the module lacks, or an attribute that is falsy (such as `__doc__`, which is `None`), makes `not server_regexes` raise `ValueError`; that is caught and gives `None`, as the model does. A truthy attribute that is not a table (such as `re`, `__name__` or `__builtins__`) raises an uncaught `AttributeError` in the source; the model gives `None` for it.
- Input types: a `server` that is not a dict, or an id that is not a str, is outside the model. Ids are strings in the model, so the `TypeError` checks after `.lower()` reduce to the empty-id case.
- Debug output: printing is left out (the `print` calls and `DEBUG_MODE`). This includes the `on_ready` handler, which only prints.
- Threads and time: the daemon thread that runs the socket is left out. The `auth success` reaction is a `KeepAlive` marker; the loop of the thread it starts is `Client.KeepAliveLoop`, run for a given number of successful sends, because the source's loop only ends when a send raises.
- Sleeps: `time.sleep` calls are recorded as values (the waits of the retry loop and the sleeps of `on_open`, `on_error` and the keep-alive loop); nothing waits. The 3-second sleep after `jwt error` is part of the reconnect, which is left out.
- Reconnects: the recursive reconnects are not followed. On `jwt error` the socket is closed and the reaction is `Reauthenticate`; the token fetch, the sleep and the new connection that follow are not modelled. `on_error` closes the socket and records its sleep, but not the reconnect it makes in between. `on_close` is not modelled, because all it does is reconnect.
- Broadcasting.Socket.Send: a send on a closed socket is recorded like any other. The websocket library would raise instead.
- HTTP: the panel API is a function from attempt number to outcome: forbidden, an answer with an optional token, or a failure with its message. Headers and URLs are modelled as values.
- Websockets.Client.GetWebsocketCredentials: `backoff_factor` is a natural number. A negative factor makes `time.sleep` raise an uncaught `ValueError` at the first retry in the source, and the float factors Python accepts are not modelled.
- Websockets.Client.GetWebsocketCredentials: a response whose body or `data` field is JSON but not a dict is left out; the `.get` call would raise an uncaught `AttributeError`. A body that is not JSON is modelled: `requests` raises its JSON error as a `RequestException`, so it is a `RequestFailed` outcome and is retried.
- Inbound frames: decoding is left out. A frame is an optional (event, string arguments) record, and `None` is a `JSONDecodeError`.
- Websockets.React: a `console output` frame with no arguments raises an uncaught `IndexError` in the source. The model gives it the `MissingArgument` reaction instead.
- Websockets.Client.ConnectToServer: `set_websocket`, which the source imports, does not exist in `src/broadcast.py`, so the import fails. The model calls `set_global_websocket(ws)` instead, which is the function that module defines.
- Websockets.Client.ConnectToServer: the panel's fixed `Origin` header URL is kept as a constant. The environment variables are parameters.
- Events.EventEmitter.Emit: listeners that register or remove listeners while an emit is running are not modelled. A listener's raise is an input predicate.
- Discord.DiscordClient.OnMessage: `on_chat_message` is a coroutine and `emit` never awaits it, so in the source a relayed line is never posted. `OnChatMessage` models the coroutine as if it ran to completion.
- Discord.DiscordClient.OnChatMessage: the class never assigns `watch_channel`. The model keeps the channel as the list of texts sent to it.
- Discord connection: login, intents and the discord.py client are left out. The bot's own user is an optional field.
- `src/debug.py`, the entry point and the Docker helpers are not part of this model.
