/**
 * The two grammar tables of console-line formats (`vanilla` and `atm10`) and
 * the matcher that reads a line against one format.
 *
 * Each compiled pattern of the source is written here as a `LineFormat`
 * record: a header (the server tag, the clock, `[Server thread/INFO]` and,
 * for the modded dialect, an extra ` [module/thread]` bracket) and a body
 * (chat, a join/part announcement, or a ban/pardon action).  `Match` gives
 * what `re.match` gives for that pattern: a match at the start of the line
 * (not the whole line) and the named groups.
 *
 * Every one-or-more run in these patterns is greedy and, except in the
 * `atm10` ban, is followed by a character its class excludes, so the run is
 * the longest one and shortening it can never help; `Run` takes that run.
 * The `atm10` ban is the exception (`\S+` followed by `:`): there the engine
 * backtracks, and `BannedWithReason` tries the run shortened one character
 * at a time, as the engine does.
 */
module Regexes {
  import opened Wrappers
  import opened Text

  /** The character classes of the patterns: `[^c]`, `\S` and `.`. */
  datatype CharClass =
    | NoneOf(excluded: char)
    | NonSpace
    | AnyButNewline

  predicate InClass(k: CharClass, c: char) {
    match k
    case NoneOf(x) => c != x
    case NonSpace => !IsSpace(c)
    case AnyButNewline => c != '\n'
  }

  predicate AllIn(k: CharClass, s: string) {
    forall i :: 0 <= i < |s| ==> InClass(k, s[i])
  }

  /** `Plain`: `...[Server thread/INFO]: `; `Threaded`: `...[Server thread/INFO] [X/Y]: `. */
  datatype Header = Plain | Threaded

  /** How a ban/pardon line may carry a `: reason` after the user. */
  datatype Reason = OptionalReason | RequiredReason | NoReason

  datatype Body =
    | Chat                                  // <user> message
    | Announce(suffix: string)              // user joined the game
    | Action(verb: string, reason: Reason)  // Banned user: reason

  datatype LineFormat = LineFormat(header: Header, body: Body)

  /** The keys of a grammar table, plus the `advancement` key the dispatcher also knows. */
  datatype PatternName = Message | Join | Part | Ban | Pardon | Advancement

  datatype Entry = Entry(name: PatternName, format: LineFormat)

  type Table = seq<Entry>

  /** The named groups of a match; `message` is absent where the pattern has no such group. */
  datatype Captures = Captures(server: string, time: string, user: string, message: Option<string>)

  const JoinSuffix := " joined the game"
  const PartSuffix := " left the game"

  /** The `vanilla` table, in the order of its keys. */
  const Vanilla: Table := [
    Entry(Message, LineFormat(Plain, Chat)),
    Entry(Join, LineFormat(Plain, Announce(JoinSuffix))),
    Entry(Part, LineFormat(Plain, Announce(PartSuffix))),
    Entry(Ban, LineFormat(Plain, Action("Banned", OptionalReason))),
    Entry(Pardon, LineFormat(Plain, Action("Unbanned", OptionalReason)))
  ]

  /** The `atm10` table: the same keys, the thread tag, a required ban reason, no pardon reason. */
  const Atm10: Table := [
    Entry(Message, LineFormat(Threaded, Chat)),
    Entry(Join, LineFormat(Threaded, Announce(JoinSuffix))),
    Entry(Part, LineFormat(Threaded, Announce(PartSuffix))),
    Entry(Ban, LineFormat(Threaded, Action("Banned", RequiredReason))),
    Entry(Pardon, LineFormat(Threaded, Action("Unbanned", NoReason)))
  ]

  /**
   * The layout both tables share: chat, join and part in that order, then
   * ban and pardon, all behind the header `h`.
   */
  predicate Shaped(t: Table, h: Header) {
    && |t| == 5
    && t[0] == Entry(Message, LineFormat(h, Chat))
    && t[1] == Entry(Join, LineFormat(h, Announce(JoinSuffix)))
    && t[2] == Entry(Part, LineFormat(h, Announce(PartSuffix)))
    && t[3].name == Ban && t[3].format.header == h && t[3].format.body.Action?
    && t[4].name == Pardon && t[4].format.header == h && t[4].format.body.Action?
  }

  // --------------------------------------------------------------- matching

  function Literal(lit: string, s: string): (r: Option<string>)
    ensures r.Some? <==> lit <= s
    ensures r.Some? ==> lit + r.value == s
  {
    if lit <= s then Some(s[|lit|..]) else None
  }

  /** Length of the longest prefix of `s` in class `k`. */
  function Span(k: CharClass, s: string): (n: nat)
    ensures n <= |s| && AllIn(k, s[..n])
    ensures n < |s| ==> !InClass(k, s[n])
  {
    if s == [] || !InClass(k, s[0]) then 0
    else
      var n := 1 + Span(k, s[1..]);
      assert s[..n] == [s[0]] + s[1..][..n - 1];
      n
  }

  /** `k+`, greedy: the longest non-empty run, and what follows it. */
  function Run(k: CharClass, s: string): Option<(string, string)> {
    var n := Span(k, s);
    if n == 0 then None else Some((s[..n], s[n..]))
  }

  predicate IsClock(t: string) {
    && |t| == 8
    && IsDigit(t[0]) && IsDigit(t[1]) && t[2] == ':'
    && IsDigit(t[3]) && IsDigit(t[4]) && t[5] == ':'
    && IsDigit(t[6]) && IsDigit(t[7])
  }

  /** `(?P<time>\d{2}:\d{2}:\d{2})` */
  function Clock(s: string): Option<(string, string)> {
    if |s| >= 8 && IsClock(s[..8]) then Some((s[..8], s[8..])) else None
  }

  /** `\[(?P<server>[^\]]+)] \[(?P<time>...)] \[Server thread/INFO]`, common to both dialects. */
  function MatchStamp(s: string): Option<(string, string, string)> {
    var r0 :- Literal("[", s);
    var server :- Run(NoneOf(']'), r0);
    var r1 :- Literal("] [", server.1);
    var time :- Clock(r1);
    var r2 :- Literal("] [Server thread/INFO]", time.1);
    Some((server.0, time.0, r2))
  }

  /** The stamp, the thread tag of the dialect, then `: `. */
  function MatchHeader(h: Header, s: string): Option<(string, string, string)> {
    var stamp :- MatchStamp(s);
    var r3 :- MatchThreadTag(h, stamp.2);
    var r4 :- Literal(": ", r3);
    Some((stamp.0, stamp.1, r4))
  }

  /** ` \[[^/]+/[^]]+]` in the modded dialect, nothing in the plain one. */
  function MatchThreadTag(h: Header, s: string): Option<string> {
    match h
    case Plain => Some(s)
    case Threaded =>
      var r0 :- Literal(" [", s);
      var modName :- Run(NoneOf('/'), r0);
      var r1 :- Literal("/", modName.1);
      var thread :- Run(NoneOf(']'), r1);
      Literal("]", thread.1)
  }

  /** The user and, where the pattern has one, the message. */
  function MatchBody(b: Body, s: string): Option<(string, Option<string>)> {
    match b
    case Chat =>
      var r0 :- Literal("<", s);
      var user :- Run(NoneOf('>'), r0);
      var r1 :- Literal("> ", user.1);
      var message :- Run(AnyButNewline, r1);
      Some((user.0, Some(message.0)))
    case Announce(suffix) =>
      var user :- Run(NonSpace, s);
      var _ :- Literal(suffix, user.1);
      Some((user.0, None))
    case Action(verb, reason) =>
      var r0 :- Literal(verb + " ", s);
      MatchAction(reason, r0)
  }

  /** `: (?P<message>.+)` */
  function ReasonTail(s: string): Option<string> {
    var r0 :- Literal(": ", s);
    var message :- Run(AnyButNewline, r0);
    Some(message.0)
  }

  function MatchAction(reason: Reason, s: string): Option<(string, Option<string>)> {
    match reason
    case NoReason =>
      var user :- Run(NonSpace, s);
      Some((user.0, None))
    case OptionalReason =>
      // (?P<user>\S+)(?:: (?P<message>.+))? -- the group is tried, and skipped if it fails
      var user :- Run(NonSpace, s);
      Some((user.0, ReasonTail(user.1)))
    case RequiredReason =>
      BannedWithReason(s, Span(NonSpace, s))
  }

  /** `(?P<user>\S+): (?P<message>.+)` with the user run `s[..k]`, then shorter ones. */
  function BannedWithReason(s: string, k: nat): Option<(string, Option<string>)>
    requires k <= |s|
  {
    if k == 0 then None
    else match ReasonTail(s[k..])
      case Some(m) => Some((s[..k], Some(m)))
      case None => BannedWithReason(s, k - 1)
  }

  /** `pattern.match(line).groupdict()`, or None when the pattern does not match. */
  function Match(f: LineFormat, line: string): Option<Captures> {
    var head :- MatchHeader(f.header, line);
    var body :- MatchBody(f.body, head.2);
    Some(Captures(head.0, head.1, body.0, body.1))
  }

  /** The server tag every pattern of a table captures: the run after the leading `[`. */
  function LineTag(line: string): Option<string> {
    var r0 :- Literal("[", line);
    var server :- Run(NoneOf(']'), r0);
    Some(server.0)
  }

  // -------------------------------------------------------------- rendering

  /** A non-empty run of class `k`, as `k+` captures it. */
  predicate ValidRun(k: CharClass, s: string) {
    s != [] && AllIn(k, s)
  }

  /** What may follow a greedy `k+` run without extending it. */
  predicate EndsRun(k: CharClass, rest: string) {
    rest == [] || !InClass(k, rest[0])
  }

  function HeaderText(server: string, time: string): string {
    "[" + server + "] [" + time + "] [Server thread/INFO]"
  }

  function TagText(h: Header, modName: string, thread: string): string {
    match h
    case Plain => ""
    case Threaded => " [" + modName + "/" + thread + "]"
  }

  /** The text after `: ` that a line of body `b` carries for these fields. */
  function BodyText(b: Body, user: string, message: string): string {
    match b
    case Chat => "<" + user + "> " + message
    case Announce(suffix) => user + suffix
    case Action(verb, reason) =>
      if reason == RequiredReason then verb + " " + user + ": " + message else verb + " " + user
  }

  /** A console line of format `f` (without any trailing text). */
  function LineText(f: LineFormat, server: string, time: string, modName: string, thread: string,
                    user: string, message: string): string
  {
    HeaderText(server, time) + TagText(f.header, modName, thread) + ": " + BodyText(f.body, user, message)
  }

  /** Whether the body's pattern has a `message` group that a match always fills. */
  predicate CarriesMessage(b: Body) {
    b.Chat? || (b.Action? && b.reason == RequiredReason)
  }

  /** Fields a line of format `f` can carry, and trailing text that leaves its groups as they are. */
  predicate Renderable(f: LineFormat, server: string, time: string, modName: string, thread: string,
                       user: string, message: string, tail: string)
  {
    && ValidRun(NoneOf(']'), server) && IsClock(time)
    && (f.header == Threaded ==> ValidRun(NoneOf('/'), modName) && ValidRun(NoneOf(']'), thread))
    && (if f.body.Chat? then ValidRun(NoneOf('>'), user) else ValidRun(NonSpace, user))
    && (CarriesMessage(f.body) ==> ValidRun(AnyButNewline, message) && EndsRun(AnyButNewline, tail))
    && (f.body.Announce? ==> f.body.suffix != [] && IsSpace(f.body.suffix[0]))
    && (f.body.Action? && f.body.reason != RequiredReason ==> EndsRun(NonSpace, tail))
  }

  // ------------------------------------------------------------ match lemmas

  lemma LiteralAppend(lit: string, rest: string)
    ensures Literal(lit, lit + rest) == Some(rest)
  {
    assert (lit + rest)[|lit|..] == rest;
  }

  lemma {:induction false} SpanAppend(k: CharClass, w: string, rest: string)
    requires AllIn(k, w) && EndsRun(k, rest)
    ensures Span(k, w + rest) == |w|
  {
    if w == [] {
      assert w + rest == rest;
    } else {
      assert (w + rest)[1..] == w[1..] + rest;
      SpanAppend(k, w[1..], rest);
    }
  }

  lemma RunAppend(k: CharClass, w: string, rest: string)
    requires ValidRun(k, w) && EndsRun(k, rest)
    ensures Run(k, w + rest) == Some((w, rest))
  {
    SpanAppend(k, w, rest);
    assert (w + rest)[..|w|] == w;
    assert (w + rest)[|w|..] == rest;
  }

  lemma ClockAppend(time: string, rest: string)
    requires IsClock(time)
    ensures Clock(time + rest) == Some((time, rest))
  {
    assert (time + rest)[..8] == time;
    assert (time + rest)[8..] == rest;
  }

  lemma ThreadTagRoundTrip(h: Header, modName: string, thread: string, rest: string)
    requires h == Threaded ==> ValidRun(NoneOf('/'), modName) && ValidRun(NoneOf(']'), thread)
    ensures MatchThreadTag(h, TagText(h, modName, thread) + rest) == Some(rest)
  {
    if h == Threaded {
      var s := TagText(h, modName, thread) + rest;
      assert s == " [" + (modName + ("/" + (thread + ("]" + rest))));
      LiteralAppend(" [", modName + ("/" + (thread + ("]" + rest))));
      RunAppend(NoneOf('/'), modName, "/" + (thread + ("]" + rest)));
      LiteralAppend("/", thread + ("]" + rest));
      RunAppend(NoneOf(']'), thread, "]" + rest);
      LiteralAppend("]", rest);
    } else {
      assert TagText(h, modName, thread) + rest == rest;
    }
  }

  lemma MatchAfterHeader(f: LineFormat, line: string, server: string, time: string, rest: string)
    requires MatchHeader(f.header, line) == Some((server, time, rest))
    ensures Match(f, line) == match MatchBody(f.body, rest)
      case Some(u) => Some(Captures(server, time, u.0, u.1))
      case None => None
  {
  }

  /** Past a well-formed header, a pattern reads what its body reads. */
  lemma MatchWithHeader(h: Header, b: Body, server: string, time: string, modName: string, thread: string,
                        body: string)
    requires ValidRun(NoneOf(']'), server) && IsClock(time)
    requires h == Threaded ==> ValidRun(NoneOf('/'), modName) && ValidRun(NoneOf(']'), thread)
    ensures Match(LineFormat(h, b), HeaderText(server, time) + TagText(h, modName, thread) + ": " + body)
         == match MatchBody(b, body)
              case Some(u) => Some(Captures(server, time, u.0, u.1))
              case None => None
  {
    var line := HeaderText(server, time) + TagText(h, modName, thread) + ": " + body;
    HeaderRoundTrip(h, server, time, modName, thread, body);
    MatchAfterHeader(LineFormat(h, b), line, server, time, body);
  }

  /** The header of every pattern reads back the server tag and the clock it was written with. */
  lemma HeaderRoundTrip(h: Header, server: string, time: string, modName: string, thread: string, rest: string)
    requires ValidRun(NoneOf(']'), server) && IsClock(time)
    requires h == Threaded ==> ValidRun(NoneOf('/'), modName) && ValidRun(NoneOf(']'), thread)
    ensures MatchHeader(h, HeaderText(server, time) + TagText(h, modName, thread) + ": " + rest)
         == Some((server, time, rest))
  {
    var r3 := TagText(h, modName, thread) + (": " + rest);
    assert HeaderText(server, time) + TagText(h, modName, thread) + ": " + rest == HeaderText(server, time) + r3;
    StampRoundTrip(server, time, r3);
    ThreadTagRoundTrip(h, modName, thread, ": " + rest);
    LiteralAppend(": ", rest);
  }

  /** The stamp reads back the server tag and the clock it was written with. */
  lemma StampRoundTrip(server: string, time: string, rest: string)
    requires ValidRun(NoneOf(']'), server) && IsClock(time)
    ensures MatchStamp(HeaderText(server, time) + rest) == Some((server, time, rest))
  {
    var r2 := "] [Server thread/INFO]" + rest;
    var r1 := time + r2;
    var r0 := server + ("] [" + r1);
    StampText(server, time, rest);
    LiteralAppend("[", r0);
    RunAppend(NoneOf(']'), server, "] [" + r1);
    LiteralAppend("] [", r1);
    ClockAppend(time, r2);
    LiteralAppend("] [Server thread/INFO]", rest);
  }

  lemma ChatBodyRoundTrip(user: string, message: string, tail: string)
    requires ValidRun(NoneOf('>'), user) && ValidRun(AnyButNewline, message) && EndsRun(AnyButNewline, tail)
    ensures MatchBody(Chat, BodyText(Chat, user, message) + tail) == Some((user, Some(message)))
  {
    assert BodyText(Chat, user, message) + tail == "<" + (user + ("> " + (message + tail)));
    LiteralAppend("<", user + ("> " + (message + tail)));
    RunAppend(NoneOf('>'), user, "> " + (message + tail));
    LiteralAppend("> ", message + tail);
    RunAppend(AnyButNewline, message, tail);
  }

  lemma AnnounceBodyRoundTrip(suffix: string, user: string, tail: string)
    requires ValidRun(NonSpace, user) && suffix != [] && IsSpace(suffix[0])
    ensures MatchBody(Announce(suffix), BodyText(Announce(suffix), user, "") + tail) == Some((user, None))
  {
    assert BodyText(Announce(suffix), user, "") + tail == user + (suffix + tail);
    RunAppend(NonSpace, user, suffix + tail);
    LiteralAppend(suffix, tail);
  }

  lemma ReasonTailRoundTrip(message: string, tail: string)
    requires ValidRun(AnyButNewline, message) && EndsRun(AnyButNewline, tail)
    ensures ReasonTail(": " + message + tail) == Some(message)
  {
    assert ": " + message + tail == ": " + (message + tail);
    LiteralAppend(": ", message + tail);
    RunAppend(AnyButNewline, message, tail);
  }

  /** The engine's backtracking finds the user just before the `: ` that ends its run. */
  lemma RequiredReasonRoundTrip(user: string, message: string, tail: string)
    requires ValidRun(NonSpace, user) && ValidRun(AnyButNewline, message) && EndsRun(AnyButNewline, tail)
    ensures MatchAction(RequiredReason, user + ": " + message + tail) == Some((user, Some(message)))
  {
    var s := user + ": " + message + tail;
    var k := |user| + 1;
    UserColonSpan(user, " " + message + tail);
    assert s == (user + ":") + (" " + message + tail);
    assert s[k..] == " " + message + tail;
    assert ReasonTail(s[k..]) == None;
    assert BannedWithReason(s, k) == BannedWithReason(s, k - 1);
    assert s[..k - 1] == user;
    assert s[k - 1..] == ": " + message + tail;
    ReasonTailRoundTrip(message, tail);
  }

  /** The greedy `\S+` run over `user:` followed by a space takes the colon too. */
  lemma UserColonSpan(user: string, rest: string)
    requires ValidRun(NonSpace, user) && rest != [] && rest[0] == ' '
    ensures Span(NonSpace, (user + ":") + rest) == |user| + 1
  {
    assert AllIn(NonSpace, user + ":") by {
      assert forall i :: 0 <= i < |user| ==> (user + ":")[i] == user[i];
    }
    SpanAppend(NonSpace, user + ":", rest);
  }

  lemma ActionBodyRoundTrip(verb: string, reason: Reason, user: string, message: string, tail: string)
    requires ValidRun(NonSpace, user)
    requires reason == RequiredReason ==> ValidRun(AnyButNewline, message) && EndsRun(AnyButNewline, tail)
    requires reason != RequiredReason ==> EndsRun(NonSpace, tail)
    ensures MatchBody(Action(verb, reason), BodyText(Action(verb, reason), user, message) + tail)
         == Some((user, if reason == RequiredReason then Some(message) else None))
  {
    if reason == RequiredReason {
      assert BodyText(Action(verb, reason), user, message) + tail == (verb + " ") + (user + ": " + message + tail);
      LiteralAppend(verb + " ", user + ": " + message + tail);
      RequiredReasonRoundTrip(user, message, tail);
    } else {
      assert BodyText(Action(verb, reason), user, message) + tail == (verb + " ") + (user + tail);
      LiteralAppend(verb + " ", user + tail);
      RunAppend(NonSpace, user, tail);
      assert ReasonTail(tail) == None;
    }
  }

  /**
   * Writing a line of any format and matching it against that format gives
   * back the fields it was written with; the optional ban reason of the
   * plain dialect is the one group that never comes back.
   */
  lemma MatchRoundTrip(f: LineFormat, server: string, time: string, modName: string, thread: string,
                       user: string, message: string, tail: string)
    requires Renderable(f, server, time, modName, thread, user, message, tail)
    ensures Match(f, LineText(f, server, time, modName, thread, user, message) + tail)
         == Some(Captures(server, time, user, if CarriesMessage(f.body) then Some(message) else None))
  {
    var body := BodyText(f.body, user, message) + tail;
    assert LineText(f, server, time, modName, thread, user, message) + tail
        == HeaderText(server, time) + TagText(f.header, modName, thread) + ": " + body;
    HeaderRoundTrip(f.header, server, time, modName, thread, body);
    match f.body
    case Chat => ChatBodyRoundTrip(user, message, tail);
    case Announce(suffix) => AnnounceBodyRoundTrip(suffix, user, tail);
    case Action(verb, reason) => ActionBodyRoundTrip(verb, reason, user, message, tail);
  }

  /** A greedy run is a non-empty run of its class, cut where the class ends. */
  lemma RunShape(k: CharClass, s: string)
    requires Run(k, s).Some?
    ensures var r := Run(k, s).value; r.0 + r.1 == s && ValidRun(k, r.0) && EndsRun(k, r.1)
  {
    var n := Span(k, s);
    assert s[..n] + s[n..] == s;
  }

  lemma ReasonTailShape(s: string)
    requires ReasonTail(s).Some?
    ensures ValidRun(AnyButNewline, ReasonTail(s).value)
  {
    RunShape(AnyButNewline, Literal(": ", s).value);
  }

  lemma {:induction false} BannedWithReasonShape(s: string, k: nat)
    requires k <= Span(NonSpace, s)
    requires BannedWithReason(s, k).Some?
    ensures ValidRun(NonSpace, BannedWithReason(s, k).value.0)
    ensures BannedWithReason(s, k).value.1.Some?
    ensures ValidRun(AnyButNewline, BannedWithReason(s, k).value.1.value)
  {
    assert k > 0;
    match ReasonTail(s[k..])
    case Some(m) =>
      ReasonTailShape(s[k..]);
      assert s[..k] == s[..Span(NonSpace, s)][..k];
    case None =>
      BannedWithReasonShape(s, k - 1);
  }

  lemma HeaderShape(h: Header, line: string)
    requires MatchHeader(h, line).Some?
    ensures var t := MatchHeader(h, line).value;
      && HeaderText(t.0, t.1) <= line
      && ValidRun(NoneOf(']'), t.0) && IsClock(t.1)
      && LineTag(line) == Some(t.0)
  {
    StampShape(line);
  }

  /** What the stamp reads is a prefix written with a valid tag and clock. */
  lemma StampShape(line: string)
    requires MatchStamp(line).Some?
    ensures var t := MatchStamp(line).value;
      && line == HeaderText(t.0, t.1) + t.2
      && ValidRun(NoneOf(']'), t.0) && IsClock(t.1)
      && LineTag(line) == Some(t.0)
  {
    var r0 := Literal("[", line).value;
    RunShape(NoneOf(']'), r0);
    var server := Run(NoneOf(']'), r0).value;
    var r1 := Literal("] [", server.1).value;
    var time := Clock(r1).value;
    var r2 := Literal("] [Server thread/INFO]", time.1).value;
    assert r1 == time.0 + ("] [Server thread/INFO]" + r2);
    assert line == "[" + (server.0 + ("] [" + r1));
    StampText(server.0, time.0, r2);
  }

  /** The stamp followed by more text, as nested concatenations. */
  lemma StampText(server: string, time: string, rest: string)
    ensures HeaderText(server, time) + rest
         == "[" + (server + ("] [" + (time + ("] [Server thread/INFO]" + rest))))
  {
  }

  lemma BodyShape(b: Body, s: string)
    requires MatchBody(b, s).Some?
    ensures var u := MatchBody(b, s).value;
      && (if b.Chat? then ValidRun(NoneOf('>'), u.0) else ValidRun(NonSpace, u.0))
      && (CarriesMessage(b) <==> u.1.Some?)
      && (u.1.Some? ==> ValidRun(AnyButNewline, u.1.value))
  {
    match b
    case Chat =>
      var r0 := Literal("<", s).value;
      RunShape(NoneOf('>'), r0);
      var user := Run(NoneOf('>'), r0).value;
      RunShape(AnyButNewline, Literal("> ", user.1).value);
    case Announce(_) =>
      RunShape(NonSpace, s);
    case Action(verb, reason) =>
      var r := Literal(verb + " ", s).value;
      match reason
      case NoReason =>
        RunShape(NonSpace, r);
      case OptionalReason =>
        RunShape(NonSpace, r);
        OptionalReasonNeverCaptured(r);
      case RequiredReason =>
        BannedWithReasonShape(r, Span(NonSpace, r));
  }

  /**
   * Whatever a pattern matches starts with `[tag] [dd:dd:dd] [Server thread/INFO]`
   * for a non-empty tag without `]`; its user and message are runs of their classes.
   */
  lemma MatchShape(f: LineFormat, line: string)
    requires Match(f, line).Some?
    ensures var c := Match(f, line).value;
      && HeaderText(c.server, c.time) <= line
      && ValidRun(NoneOf(']'), c.server) && IsClock(c.time)
      && LineTag(line) == Some(c.server)
      && (if f.body.Chat? then ValidRun(NoneOf('>'), c.user) else ValidRun(NonSpace, c.user))
      && (CarriesMessage(f.body) <==> c.message.Some?)
      && (c.message.Some? ==> ValidRun(AnyButNewline, c.message.value))
  {
    HeaderShape(f.header, line);
    BodyShape(f.body, MatchHeader(f.header, line).value.2);
  }

  /**
   * The optional `: reason` group of the plain dialect's ban and pardon never
   * takes part in a match: the greedy `\S+` before it has already taken every
   * non-space character, and the group must start with `:`.
   */
  lemma OptionalReasonNeverCaptured(s: string)
    requires MatchAction(OptionalReason, s).Some?
    ensures MatchAction(OptionalReason, s).value.1 == None
  {
    var user := Run(NonSpace, s).value;
    if user.1 != [] {
      assert IsSpace(user.1[0]);
      assert !(": " <= user.1);
    }
  }

  lemma {:induction false} NoColonNoReason(s: string, k: nat)
    requires k <= Span(NonSpace, s)
    requires Span(NonSpace, s) > 0 ==> s[Span(NonSpace, s) - 1] != ':'
    ensures BannedWithReason(s, k) == None
  {
    if k > 0 {
      var n := Span(NonSpace, s);
      assert k + 1 < n ==> s[k + 1] != ' ' by {
        if k + 1 < n {
          assert s[..n][k + 1] == s[k + 1];
        }
      }
      assert k == n && k < |s| ==> s[k] != ':';
      assert !(": " <= s[k..]);
      NoColonNoReason(s, k - 1);
    }
  }

  /** The modded dialect's ban needs a reason: `Banned <user>` alone is no ban line there. */
  lemma RequiredReasonNeedsReason(h: Header, verb: string, server: string, time: string,
                                  modName: string, thread: string, user: string, tail: string)
    requires ValidRun(NoneOf(']'), server) && IsClock(time)
    requires h == Threaded ==> ValidRun(NoneOf('/'), modName) && ValidRun(NoneOf(']'), thread)
    requires ValidRun(NonSpace, user) && user[|user| - 1] != ':' && EndsRun(NonSpace, tail)
    ensures Match(LineFormat(h, Action(verb, RequiredReason)),
                  HeaderText(server, time) + TagText(h, modName, thread) + ": " + verb + " " + user + tail) == None
  {
    var rest := verb + " " + user + tail;
    var line := HeaderText(server, time) + TagText(h, modName, thread) + ": " + verb + " " + user + tail;
    assert line == HeaderText(server, time) + TagText(h, modName, thread) + ": " + rest;
    HeaderRoundTrip(h, server, time, modName, thread, rest);
    MatchAfterHeader(LineFormat(h, Action(verb, RequiredReason)), line, server, time, rest);
    RequiredReasonBodyNone(verb, user, tail);
  }

  lemma RequiredReasonBodyNone(verb: string, user: string, tail: string)
    requires ValidRun(NonSpace, user) && user[|user| - 1] != ':' && EndsRun(NonSpace, tail)
    ensures MatchBody(Action(verb, RequiredReason), verb + " " + user + tail) == None
  {
    var t := user + tail;
    assert verb + " " + user + tail == (verb + " ") + t;
    LiteralAppend(verb + " ", t);
    SpanAppend(NonSpace, user, tail);
    assert t[|user| - 1] == user[|user| - 1];
    NoColonNoReason(t, |user|);
  }

  /**
   * With the same body, a line with the ` [module/thread]` tag before the `: `
   * reads, under the modded header, the same groups as the line without it
   * under the plain header.
   */
  lemma ThreadTagTransparent(b: Body, server: string, time: string, modName: string, thread: string,
                             rest: string)
    requires ValidRun(NoneOf(']'), server) && IsClock(time)
    requires ValidRun(NoneOf('/'), modName) && ValidRun(NoneOf(']'), thread)
    ensures Match(LineFormat(Threaded, b), HeaderText(server, time) + TagText(Threaded, modName, thread) + ": " + rest)
         == Match(LineFormat(Plain, b), HeaderText(server, time) + ": " + rest)
  {
    MatchWithHeader(Threaded, b, server, time, modName, thread, rest);
    MatchWithHeader(Plain, b, server, time, modName, thread, rest);
    assert HeaderText(server, time) + TagText(Plain, modName, thread) + ": " + rest
        == HeaderText(server, time) + ": " + rest;
  }

  /**
   * The two tables side by side: the same keys in the same order; chat, join
   * and part differ only by the thread tag; the modded ban requires the reason
   * the plain ban leaves optional, and the modded pardon takes none.
   */
  lemma DialectsCompared()
    ensures |Vanilla| == |Atm10| == 5
    ensures forall i :: 0 <= i < 5 ==> Vanilla[i].name == Atm10[i].name
    ensures forall i :: 0 <= i < 3 ==>
      Vanilla[i].format == LineFormat(Plain, Atm10[i].format.body) && Atm10[i].format.header == Threaded
    ensures Vanilla[3].format.body == Action("Banned", OptionalReason)
    ensures Atm10[3].format.body == Action("Banned", RequiredReason)
    ensures Vanilla[4].format.body == Action("Unbanned", OptionalReason)
    ensures Atm10[4].format.body == Action("Unbanned", NoReason)
  {
  }

  /** Both tables list message, join, part, ban and pardon, in that order, and nothing else. */
  lemma TableKeys()
    ensures forall i :: 0 <= i < 5 ==> Vanilla[i].name == Atm10[i].name
    ensures |Vanilla| == |Atm10| == 5
    ensures [Vanilla[0].name, Vanilla[1].name, Vanilla[2].name, Vanilla[3].name, Vanilla[4].name]
         == [Message, Join, Part, Ban, Pardon]
    ensures forall e :: e in Vanilla + Atm10 ==> e.name != Advancement
  {
  }
}
