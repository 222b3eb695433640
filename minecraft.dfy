/**
 * Reading Minecraft console lines: the 24-hour to 12-hour clock conversion,
 * the two builders of relayed text (chat and events) and `parse_output`,
 * which tries the grammar table of the server's dialect in order and relays
 * the first line format that matches and carries the server's own tag.
 *
 * The builders' call to `broadcast_to_all` is returned as a `Broadcast`
 * request instead of being made here; the websocket client hands it on to
 * the broadcaster (see the Websockets and Broadcast modules).
 */
module Minecraft {
  import opened Wrappers
  import opened Text
  import opened Regexes

  /** The fields of a Pelican server record that the relay reads. */
  datatype Server = Server(externalId: string, identifier: string, uuid: string)

  /** A call `broadcast_to_all(origin, data, except_origin)`. */
  datatype Broadcast = Broadcast(origin: Server, data: string, exceptOrigin: bool)

  /** What a relayed line yields: the text returned to the caller and the broadcast made, if any. */
  datatype Relay = Relay(display: string, broadcast: Option<Broadcast>)

  // ------------------------------------------------------------ time_cvt

  datatype Clock24 = Clock24(hour: nat, minute: nat, second: nat)

  function TwoDigits(a: char, b: char): nat
    requires IsDigit(a) && IsDigit(b)
  {
    10 * DigitValue(a) + DigitValue(b)
  }

  /**
   * An `%H` or `%M` field and the `:` after it.  The directive's pattern is
   * a two-digit alternative (values up to `max`) tried before a one-digit
   * one; since a digit is never `:`, at most one of them is followed by `:`.
   */
  function Field(s: string, max: nat): Option<(nat, string)> {
    if |s| >= 3 && IsDigit(s[0]) && IsDigit(s[1]) && s[2] == ':' && TwoDigits(s[0], s[1]) <= max then
      Some((TwoDigits(s[0], s[1]), s[3..]))
    else if |s| >= 2 && IsDigit(s[0]) && s[1] == ':' then
      Some((DigitValue(s[0]), s[2..]))
    else None
  }

  /**
   * The `%S` field, which must end the string: `6[0-1]|[0-5]\d|\d` takes two
   * digits up to 61 or else one digit, and anything left over is
   * "unconverted data".
   */
  function SecondsField(s: string): Option<nat> {
    if |s| == 2 && IsDigit(s[0]) && IsDigit(s[1]) && TwoDigits(s[0], s[1]) <= 61 then
      Some(TwoDigits(s[0], s[1]))
    else if |s| == 1 && IsDigit(s[0]) then
      Some(DigitValue(s[0]))
    else None
  }

  /**
   * `datetime.strptime(s, "%H:%M:%S")`: None where it raises `ValueError`,
   * including seconds 60 and 61, which the pattern admits and the datetime
   * constructor refuses.
   */
  function ParseClock(s: string): (r: Option<Clock24>)
    ensures r.Some? ==> r.value.hour < 24 && r.value.minute < 60 && r.value.second < 60
  {
    var h :- Field(s, 23);
    var m :- Field(h.1, 59);
    var sec :- SecondsField(m.1);
    if sec > 59 then None else Some(Clock24(h.0, m.0, sec))
  }

  function Hour12(hour: nat): (h: nat)
    ensures 1 <= h <= 12
  {
    if hour % 12 == 0 then 12 else hour % 12
  }

  /** `strftime("%I:%M%p")` in the C locale. */
  function Format12(hour: nat, minute: nat): string
    requires hour < 24 && minute < 60
  {
    Pad2(Hour12(hour)) + ":" + Pad2(minute) + (if hour < 12 then "AM" else "PM")
  }

  /** `time_cvt`: the 12-hour form of a valid 24-hour clock, or the input unchanged. */
  function TimeCvt(s: string): string {
    match ParseClock(s)
    case Some(c) => Format12(c.hour, c.minute)
    case None => s
  }

  /** Reads an `hh:mmAM`/`hh:mmPM` clock back as 24-hour hour and minute. */
  function Read12(t: string): Option<(nat, nat)> {
    if && |t| == 7 && IsDigit(t[0]) && IsDigit(t[1]) && t[2] == ':'
       && IsDigit(t[3]) && IsDigit(t[4]) && (t[5] == 'A' || t[5] == 'P') && t[6] == 'M'
    then
      var h := TwoDigits(t[0], t[1]);
      var m := TwoDigits(t[3], t[4]);
      if 1 <= h <= 12 && m < 60 then Some((h % 12 + (if t[5] == 'P' then 12 else 0), m)) else None
    else None
  }

  /** A 12-hour clock reads back as the 24-hour hour and minute it was formatted from. */
  lemma Format12ReadBack(hour: nat, minute: nat)
    requires hour < 24 && minute < 60
    ensures Read12(Format12(hour, minute)) == Some((hour, minute))
  {
    Format12Chars(hour, minute);
  }

  /** The seven characters of a 12-hour clock: two digits, `:`, two digits, then `AM` or `PM`. */
  lemma Format12Chars(hour: nat, minute: nat)
    requires hour < 24 && minute < 60
    ensures var t := Format12(hour, minute);
      && |t| == 7 && t[..2] == Pad2(Hour12(hour)) && t[2] == ':' && t[3..5] == Pad2(minute)
      && t[5] == (if hour < 12 then 'A' else 'P') && t[6] == 'M'
  {
  }

  /** A converted clock reads back as the hour and minute it was parsed into; seconds are dropped. */
  lemma TimeCvtReadBack(s: string)
    requires ParseClock(s).Some?
    ensures Read12(TimeCvt(s)) == Some((ParseClock(s).value.hour, ParseClock(s).value.minute))
  {
    var c := ParseClock(s).value;
    Format12ReadBack(c.hour, c.minute);
  }

  /** No 12-hour clock parses as a 24-hour one: its minutes are followed by `AM` or `PM`, not `:`. */
  lemma Format12DoesNotParse(hour: nat, minute: nat)
    requires hour < 24 && minute < 60
    ensures ParseClock(Format12(hour, minute)) == None
  {
    var t := Format12(hour, minute);
    Format12Chars(hour, minute);
    assert IsDigit(t[3..5][0]) && IsDigit(t[3..5][1]);
    var h := Field(t, 23);
    if h.Some? {
      assert h.value.1 == t[3..];
      assert Field(t[3..], 59) == None;
    }
  }

  /** Converting twice is converting once. */
  lemma TimeCvtIdempotent(s: string)
    ensures TimeCvt(TimeCvt(s)) == TimeCvt(s)
  {
    if ParseClock(s).Some? {
      var c := ParseClock(s).value;
      Format12DoesNotParse(c.hour, c.minute);
    }
  }

  /**
   * On a `dd:dd:dd` clock, as every pattern captures one, the conversion
   * succeeds exactly when the hour, minute and second are in range.
   */
  lemma ClockConverts(t: string)
    requires IsClock(t)
    ensures ParseClock(t) ==
      if TwoDigits(t[0], t[1]) < 24 && TwoDigits(t[3], t[4]) < 60 && TwoDigits(t[6], t[7]) < 60
      then Some(Clock24(TwoDigits(t[0], t[1]), TwoDigits(t[3], t[4]), TwoDigits(t[6], t[7])))
      else None
  {
    assert t[3..][3..] == t[6..];
  }

  /** The conversion the project's tests expect. */
  lemma TimeCvtAfternoon()
    ensures TimeCvt("14:30:00") == "02:30PM"
  {
    ClockConverts("14:30:00");
    assert Pad2(2) == "02" && Pad2(30) == "30";
  }

  /** The clock of the sample console line in the project's documentation. */
  lemma TimeCvtEvening()
    ensures TimeCvt("19:41:36") == "07:41PM"
  {
    ClockConverts("19:41:36");
    assert Pad2(7) == "07" && Pad2(41) == "41";
  }

  /** Midnight and noon: hour 0 is 12 AM and hour 12 is 12 PM. */
  lemma TimeCvtMidnightNoon()
    ensures TimeCvt("00:05:09") == "12:05AM"
    ensures TimeCvt("12:00:00") == "12:00PM"
  {
    ClockConverts("00:05:09");
    ClockConverts("12:00:00");
    assert Pad2(12) == "12" && Pad2(5) == "05" && Pad2(0) == "00";
  }

  /** A leap second, hour 24 and text that is no clock are all returned unchanged. */
  lemma TimeCvtRejects()
    ensures TimeCvt("23:59:60") == "23:59:60"
    ensures TimeCvt("24:00:00") == "24:00:00"
    ensures TimeCvt("invalid-time") == "invalid-time"
  {
    ClockConverts("23:59:60");
    ClockConverts("24:00:00");
  }

  // ------------------------------------------------------------ builders

  /** The `tellraw` command a chat line is broadcast as. */
  function ChatCommand(server: string, user: string, message: string): string {
    "tellraw @a ["
      + "{\"text\":\"[" + server + "] \",\"color\":\"red\"},"
      + "{\"text\":\"<" + user + "> \",\"color\":\"blue\"},"
      + "{\"text\":\"" + message + "\",\"color\":\"white\"}]\n"
  }

  /** The `tellraw` command an advancement is broadcast as. */
  function AdvancementCommand(server: string, user: string, advancement: string): string {
    "tellraw @a ["
      + "{\"text\":\"[mc:" + server + "] \",\"color\":\"red\"},"
      + "{\"text\":\"" + user + " made the advancement: \",\"color\":\"blue\"},"
      + "{\"text\":\"" + advancement + "\",\"color\":\"yellow\"}]\n"
  }

  function ChatDisplay(server: string, time: string, user: string, message: string): string {
    "[" + server + "] [" + time + "] <" + user + "> " + message
  }

  function EventDisplay(server: string, time: string, user: string, event: string): string {
    "[" + server + "] [" + time + "] " + user + " got the advancement " + event + "!"
  }

  /** `build_chat_message`: broadcast the chat to the other servers and return its display line. */
  function BuildChatMessage(server: string, origin: Server, time: string, user: string, message: string): (r: Relay)
    ensures r.display == ChatDisplay(server, time, user, message)
    ensures r.broadcast.Some? && r.broadcast.value.origin == origin && r.broadcast.value.exceptOrigin
    ensures r.broadcast.value.data == ChatCommand(server, user, message)
    ensures "tellraw @a [" <= r.broadcast.value.data
  {
    Relay(ChatDisplay(server, time, user, message), Some(Broadcast(origin, ChatCommand(server, user, message), true)))
  }

  datatype EventKind = JoinEvent | PartEvent | BanEvent | AdvancementEvent

  /**
   * `build_event`: only an advancement is broadcast, and every kind of
   * event is displayed with the advancement wording.
   */
  function BuildEvent(kind: EventKind, server: string, origin: Server, time: string, user: string,
                      event: string): (r: Relay)
    ensures r.broadcast.Some? <==> kind == AdvancementEvent
    ensures r.broadcast.Some? ==> r.broadcast.value == Broadcast(origin, AdvancementCommand(server, user, event), true)
  {
    var display := EventDisplay(server, time, user, event);
    if kind == AdvancementEvent then
      Relay(display, Some(Broadcast(origin, AdvancementCommand(server, user, event), true)))
    else Relay(display, None)
  }

  /** The display line of an event does not depend on its kind. */
  lemma EventDisplayIgnoresKind(k1: EventKind, k2: EventKind, server: string, origin: Server, time: string,
                                user: string, event: string)
    ensures BuildEvent(k1, server, origin, time, user, event).display
         == BuildEvent(k2, server, origin, time, user, event).display
  {
  }

  /**
   * A chat display line reads back, with the matcher's own pieces, as the
   * server, clock, user and message it was built from.
   */
  function ReadChatDisplay(line: string): Option<(string, string, string, string)> {
    var r0 :- Literal("[", line);
    var server :- Run(NoneOf(']'), r0);
    var r1 :- Literal("] [", server.1);
    var time :- Run(NoneOf(']'), r1);
    var r2 :- Literal("] ", time.1);
    var body :- MatchBody(Chat, r2);
    var message :- body.1;
    Some((server.0, time.0, body.0, message))
  }

  lemma ChatDisplayRoundTrip(server: string, time: string, user: string, message: string)
    requires ValidRun(NoneOf(']'), server) && ValidRun(NoneOf(']'), time)
    requires ValidRun(NoneOf('>'), user) && ValidRun(AnyButNewline, message)
    ensures ReadChatDisplay(ChatDisplay(server, time, user, message)) == Some((server, time, user, message))
  {
    var body := "<" + user + "> " + message;
    var r1 := "] " + body;
    var r0 := time + r1;
    var s1 := "] [" + r0;
    var s0 := server + s1;
    ChatDisplayText(server, time, body, user, message);
    LiteralAppend("[", s0);
    RunAppend(NoneOf(']'), server, s1);
    LiteralAppend("] [", r0);
    RunAppend(NoneOf(']'), time, r1);
    LiteralAppend("] ", body);
    ChatBodyRoundTrip(user, message, []);
    assert body + [] == body;
  }

  /** The chat display as nested concatenations. */
  lemma ChatDisplayText(server: string, time: string, body: string, user: string, message: string)
    requires body == "<" + user + "> " + message
    ensures ChatDisplay(server, time, user, message) == "[" + (server + ("] [" + (time + ("] " + body))))
  {
  }

  // --------------------------------------------------------- parse_output

  /** `getattr(src.regexes, name, None)` for the names of the two grammar tables. */
  function GrammarFor(name: string): (r: Option<Table>)
    ensures r.Some? <==> name == "vanilla" || name == "atm10"
    ensures name == "vanilla" ==> r == Some(Vanilla)
    ensures name == "atm10" ==> r == Some(Atm10)
    ensures r.Some? ==> Shaped(r.value, DialectHeader(name))
  {
    if name == "vanilla" then Some(Vanilla)
    else if name == "atm10" then Some(Atm10)
    else None
  }

  /** The header the table of a dialect puts before every body. */
  function DialectHeader(name: string): Header {
    if name == "vanilla" then Plain else Threaded
  }

  /** The entry matches the line and the line's captured server tag is this server's. */
  predicate Accepts(e: Entry, serverName: string, line: string) {
    Match(e.format, line).Some? && Lower(Match(e.format, line).value.server) == serverName
  }

  /** The index of the first element of `t` at or after `k` that satisfies `p`, if any. */
  function FirstFrom<E>(t: seq<E>, p: E -> bool, k: nat): (r: Option<nat>)
    ensures r.Some? ==> k <= r.value < |t|
    decreases |t| - k
  {
    if k >= |t| then None
    else if p(t[k]) then Some(k)
    else FirstFrom(t, p, k + 1)
  }

  /** The index of the first element of `t` that satisfies `p`, if any. */
  function FirstWhere<E>(t: seq<E>, p: E -> bool): (r: Option<nat>)
    ensures r.Some? ==> r.value < |t|
  {
    FirstFrom(t, p, 0)
  }

  /**
   * The search from `k` finds the least satisfying index at or after `k`, and
   * finds nothing exactly when no element from `k` on satisfies `p`.
   */
  lemma {:induction false} FirstFromSpec<E>(t: seq<E>, p: E -> bool, k: nat)
    ensures var r := FirstFrom(t, p, k);
      && (r.Some? ==> k <= r.value < |t| && p(t[r.value]) && forall j :: k <= j < r.value ==> !p(t[j]))
      && (r.None? <==> forall j :: k <= j < |t| ==> !p(t[j]))
    decreases |t| - k
  {
    if k < |t| && !p(t[k]) {
      FirstFromSpec(t, p, k + 1);
    }
  }

  /** The search finds the least satisfying index, and nothing exactly when no element satisfies `p`. */
  lemma FirstWhereSpec<E>(t: seq<E>, p: E -> bool)
    ensures var r := FirstWhere(t, p);
      && (r.Some? ==> r.value < |t| && p(t[r.value]) && forall j :: 0 <= j < r.value ==> !p(t[j]))
      && (r.None? <==> forall j :: 0 <= j < |t| ==> !p(t[j]))
  {
    FirstFromSpec(t, p, 0);
  }

  /** The search stops at the least index whose element satisfies `p`. */
  lemma FirstWhereAt<E>(t: seq<E>, p: E -> bool, i: nat)
    requires i < |t| && p(t[i]) && forall j :: 0 <= j < i ==> !p(t[j])
    ensures FirstWhere(t, p) == Some(i)
  {
    var r := FirstWhere(t, p);
    FirstWhereSpec(t, p);
    assert r.Some?;
    assert !(r.value < i);
    assert !(r.value > i);
  }

  /** The search passes over a first element that fails `p` and stops at a second that satisfies it. */
  lemma FirstWhereSecond<E>(t: seq<E>, p: E -> bool)
    requires |t| > 1 && !p(t[0]) && p(t[1])
    ensures FirstWhere(t, p) == Some(1)
  {
    assert FirstFrom(t, p, 1) == Some(1);
  }

  /** The search passes over two elements that fail `p` and stops at a third that satisfies it. */
  lemma FirstWhereThird<E>(t: seq<E>, p: E -> bool)
    requires |t| > 2 && !p(t[0]) && !p(t[1]) && p(t[2])
    ensures FirstWhere(t, p) == Some(2)
  {
    assert FirstFrom(t, p, 2) == Some(2);
    assert FirstFrom(t, p, 1) == Some(2);
  }

  /** The test `parse_output` applies to each entry, for one server and line. */
  function AcceptsLine(serverName: string, line: string): Entry -> bool {
    e => Accepts(e, serverName, line)
  }

  /** The key and groups of the first entry of `t` that accepts the line. */
  function FirstMatch(t: Table, serverName: string, line: string): Option<(PatternName, Captures)> {
    var i :- FirstWhere(t, AcceptsLine(serverName, line));
    var c :- Match(t[i].format, line);
    Some((t[i].name, c))
  }

  /** The text of an optional group as an f-string shows it. */
  function GroupText(g: Option<string>): string {
    match g
    case Some(v) => v
    case None => "None"
  }

  /** The `match event_type` arms of `parse_output`. */
  function Dispatch(name: PatternName, serverName: string, origin: Server, c: Captures): (r: Relay)
    ensures r.broadcast.Some? <==> name == Message || name == Advancement
  {
    var time := TimeCvt(c.time);
    match name
    case Message => BuildChatMessage(serverName, origin, time, c.user, GroupText(c.message))
    case Join => BuildEvent(JoinEvent, serverName, origin, time, c.user, "joined the server.")
    case Part => BuildEvent(PartEvent, serverName, origin, time, c.user, "left the server.")
    case Ban => BuildEvent(BanEvent, serverName, origin, time, c.user, "was banned from the server.")
    case Pardon => BuildEvent(BanEvent, serverName, origin, time, c.user, "was unbanned from the server.")
    case Advancement => BuildEvent(AdvancementEvent, serverName, origin, time, c.user, "None")
  }

  /**
   * What `parse_output(output, server)` returns; None where it returns None,
   * including the `TypeError` of an empty id and the `ValueError` of a
   * server with no grammar table, which it catches.
   */
  function ParseSpec(server: Server, output: string): Option<Relay> {
    var name := Lower(server.externalId);
    if name == "" then None
    else
      var table :- GrammarFor(name);
      ReadWith(table, name, server, output)
  }

  /** The relay of the first entry of `t` that accepts the line, if any. */
  function ReadWith(t: Table, name: string, server: Server, output: string): Option<Relay> {
    var hit :- FirstMatch(t, name, output);
    Some(Dispatch(hit.0, name, server, hit.1))
  }

  /** `parse_output`: the id checks, then the table of the server's dialect. */
  method ParseOutput(server: Server, output: string) returns (r: Option<Relay>)
    ensures r == ParseSpec(server, output)
  {
    var name := Lower(server.externalId);
    if name == "" {
      return None;
    }
    var table := GrammarFor(name);
    if table.None? {
      return None;
    }
    r := ScanTable(table.value, name, server, output);
  }

  /**
   * The loop of `parse_output` over the entries of a table, in order: the
   * first entry that accepts the line is dispatched.
   */
  method ScanTable(t: Table, name: string, server: Server, output: string) returns (r: Option<Relay>)
    ensures r == ReadWith(t, name, server, output)
  {
    var k := FindFirst(t, AcceptsLine(name, output));
    if k.None? {
      return None;
    }
    var i := k.value;
    return Some(Dispatch(t[i].name, name, server, Match(t[i].format, output).value));
  }

  /** Walks `t` from the front and stops at the first element that satisfies `p`. */
  method FindFirst<E>(t: seq<E>, p: E -> bool) returns (r: Option<nat>)
    ensures r == FirstWhere(t, p)
    ensures r.Some? ==> r.value < |t| && p(t[r.value])
  {
    var i := 0;
    while i < |t|
      invariant 0 <= i <= |t|
      invariant forall j :: 0 <= j < i ==> !p(t[j])
    {
      if p(t[i]) {
        FirstWhereAt(t, p, i);
        return Some(i);
      }
      i := i + 1;
    }
    FirstWhereSpec(t, p);
    return None;
  }

  // -------------------------------------------------- first-match lemmas

  /** A line whose earliest accepting entry is `t[i]` is read with that entry. */
  lemma FirstMatchAt(t: Table, i: nat, serverName: string, line: string)
    requires i < |t| && Accepts(t[i], serverName, line)
    requires forall j :: 0 <= j < i ==> !Accepts(t[j], serverName, line)
    ensures FirstMatch(t, serverName, line) == Some((t[i].name, Match(t[i].format, line).value))
  {
    var p := AcceptsLine(serverName, line);
    assert forall j :: 0 <= j < i ==> !p(t[j]);
    FirstWhereAt(t, p, i);
  }

  /** No line is read by a table exactly when none of its entries accepts it. */
  lemma FirstMatchNone(t: Table, serverName: string, line: string)
    ensures FirstMatch(t, serverName, line).None? <==> forall i :: 0 <= i < |t| ==> !Accepts(t[i], serverName, line)
  {
    var p := AcceptsLine(serverName, line);
    FirstWhereSpec(t, p);
    assert forall i :: 0 <= i < |t| ==> p(t[i]) == Accepts(t[i], serverName, line);
  }

  /** What a table reads comes from its least accepting entry. */
  lemma FirstMatchIsLeast(t: Table, serverName: string, line: string)
    requires FirstMatch(t, serverName, line).Some?
    ensures exists i :: (0 <= i < |t| && Accepts(t[i], serverName, line)
      && FirstMatch(t, serverName, line) == Some((t[i].name, Match(t[i].format, line).value))
      && forall j :: 0 <= j < i ==> !Accepts(t[j], serverName, line))
  {
    var p := AcceptsLine(serverName, line);
    FirstWhereSpec(t, p);
    var i := FirstWhere(t, p).value;
    assert p(t[i]);
    assert forall j :: 0 <= j < i ==> !p(t[j]);
  }

  // ------------------------------------------------- parse_output lemmas

  /**
   * No line is relayed for a server whose id is empty or names no grammar
   * table, and otherwise exactly the lines some entry of its table accepts.
   */
  lemma ParseNone(server: Server, output: string)
    ensures ParseSpec(server, output).None? <==>
      var name := Lower(server.externalId);
      || name == ""
      || GrammarFor(name).None?
      || forall i :: 0 <= i < |GrammarFor(name).value| ==> !Accepts(GrammarFor(name).value[i], name, output)
  {
    var name := Lower(server.externalId);
    if name != "" && GrammarFor(name).Some? {
      FirstMatchNone(GrammarFor(name).value, name, output);
    }
  }

  /** An empty console line is never relayed. */
  lemma EmptyLineIgnored(server: Server)
    ensures ParseSpec(server, "") == None
  {
    var name := Lower(server.externalId);
    if name != "" && GrammarFor(name).Some? {
      var t := GrammarFor(name).value;
      forall i | 0 <= i < |t|
        ensures !Accepts(t[i], name, "")
      {
        assert Literal("[", "") == None;
      }
      FirstMatchNone(t, name, "");
    }
  }

  /**
   * A relayed line carries, in its leading `[tag]`, this server's id up to
   * case: lines tagged with another server are ignored.
   */
  lemma RelayedLineCarriesOwnTag(server: Server, output: string)
    requires ParseSpec(server, output).Some?
    ensures LineTag(output).Some? && Lower(LineTag(output).value) == Lower(server.externalId)
  {
    var name := Lower(server.externalId);
    var t := GrammarFor(name).value;
    FirstMatchIsLeast(t, name, output);
    var i :| 0 <= i < |t| && Accepts(t[i], name, output);
    MatchShape(t[i].format, output);
  }

  /** The first match comes from an entry of the table, so it is never an advancement. */
  lemma FirstMatchFromTable(t: Table, serverName: string, line: string)
    requires FirstMatch(t, serverName, line).Some?
    ensures exists e :: e in t && e.name == FirstMatch(t, serverName, line).value.0
  {
    var i := FirstWhere(t, AcceptsLine(serverName, line)).value;
    assert t[i] in t;
  }

  /** Only chat lines are broadcast to the other servers; every other relayed line is only displayed. */
  lemma OnlyChatBroadcasts(server: Server, output: string)
    requires ParseSpec(server, output).Some?
    ensures var name := Lower(server.externalId);
      ParseSpec(server, output).value.broadcast.Some?
      <==> FirstMatch(GrammarFor(name).value, name, output).value.0 == Message
  {
    var name := Lower(server.externalId);
    var t := GrammarFor(name).value;
    FirstMatchFromTable(t, name, output);
    TableKeys();
  }

  /** `[tag] [clock] [Server thread/INFO]` plus, in the modded dialect, the thread tag, then `: ` and the body text. */
  function LineOf(t: Table, i: nat, tag: string, time: string, modName: string, thread: string,
                  user: string, message: string): string
    requires i < |t|
  {
    LineText(t[i].format, tag, time, modName, thread, user, message)
  }

  /** A chat line of either dialect is read by the table's first entry, `message`. */
  lemma ChatLineRead(t: Table, h: Header, name: string, tag: string, time: string, modName: string, thread: string,
                     user: string, message: string, tail: string)
    requires Shaped(t, h)
    requires Lower(tag) == name
    requires Renderable(t[0].format, tag, time, modName, thread, user, message, tail)
    ensures FirstMatch(t, name, LineOf(t, 0, tag, time, modName, thread, user, message) + tail)
         == Some((Message, Captures(tag, time, user, Some(message))))
  {
    var line := LineOf(t, 0, tag, time, modName, thread, user, message) + tail;
    MatchRoundTrip(t[0].format, tag, time, modName, thread, user, message, tail);
    FirstMatchAt(t, 0, name, line);
  }

  /**
   * A chat line of the server's own dialect and tag is relayed as
   * `[server] [12-hour clock] <user> message` and broadcast as a `tellraw`
   * of the same user and message.
   */
  lemma ChatLineRelayed(server: Server, tag: string, time: string, modName: string, thread: string,
                        user: string, message: string, tail: string)
    requires Lower(server.externalId) != "" && GrammarFor(Lower(server.externalId)).Some?
    requires Lower(tag) == Lower(server.externalId)
    requires Renderable(GrammarFor(Lower(server.externalId)).value[0].format, tag, time, modName, thread,
                        user, message, tail)
    ensures var name := Lower(server.externalId);
      ParseSpec(server, LineOf(GrammarFor(name).value, 0, tag, time, modName, thread, user, message) + tail)
      == Some(Relay(ChatDisplay(name, TimeCvt(time), user, message),
                    Some(Broadcast(server, ChatCommand(name, user, message), true))))
  {
    var name := Lower(server.externalId);
    ChatLineRead(GrammarFor(name).value, DialectHeader(name), name, tag, time, modName, thread, user, message, tail);
  }

  /** The join pattern refuses the body of a part line: the user is followed by ` left`, not ` joined`. */
  lemma JoinBodyRefusesPart(user: string, tail: string)
    requires ValidRun(NonSpace, user)
    ensures MatchBody(Announce(JoinSuffix), user + PartSuffix + tail) == None
  {
    assert user + PartSuffix + tail == user + (PartSuffix + tail);
    assert IsSpace(PartSuffix[0]);
    RunAppend(NonSpace, user, PartSuffix + tail);
    assert (PartSuffix + tail)[1] == 'l';
  }

  /** The chat entry refuses a join or part line whose user does not start with `<`. */
  lemma AnnounceNotChat(t: Table, h: Header, i: nat, name: string, tag: string, time: string, modName: string,
                        thread: string, user: string, tail: string)
    requires Shaped(t, h)
    requires i == 1 || i == 2
    requires Renderable(t[i].format, tag, time, modName, thread, user, "", tail)
    requires user[0] != '<'
    ensures !Accepts(t[0], name, LineOf(t, i, tag, time, modName, thread, user, "") + tail)
  {
    var body := BodyText(t[i].format.body, user, "") + tail;
    assert LineOf(t, i, tag, time, modName, thread, user, "") + tail
        == HeaderText(tag, time) + TagText(h, modName, thread) + ": " + body;
    assert body[0] == user[0];
    MatchWithHeader(h, Chat, tag, time, modName, thread, body);
    assert t[0].format == LineFormat(h, Chat);
  }

  /** The join entry refuses a part line. */
  lemma PartNotJoin(t: Table, h: Header, name: string, tag: string, time: string, modName: string,
                    thread: string, user: string, tail: string)
    requires Shaped(t, h)
    requires Renderable(t[2].format, tag, time, modName, thread, user, "", tail)
    ensures !Accepts(t[1], name, LineOf(t, 2, tag, time, modName, thread, user, "") + tail)
  {
    var body := user + PartSuffix + tail;
    assert LineOf(t, 2, tag, time, modName, thread, user, "") + tail
        == HeaderText(tag, time) + TagText(h, modName, thread) + ": " + body;
    JoinBodyRefusesPart(user, tail);
    MatchWithHeader(h, Announce(JoinSuffix), tag, time, modName, thread, body);
    assert t[1].format == LineFormat(h, Announce(JoinSuffix));
  }

  /** The join or part entry reads the line it renders. */
  lemma AnnounceAccepted(t: Table, h: Header, i: nat, tag: string, time: string, modName: string,
                         thread: string, user: string, tail: string)
    requires Shaped(t, h)
    requires i == 1 || i == 2
    requires Renderable(t[i].format, tag, time, modName, thread, user, "", tail)
    ensures Match(t[i].format, LineOf(t, i, tag, time, modName, thread, user, "") + tail)
         == Some(Captures(tag, time, user, None))
  {
    MatchRoundTrip(t[i].format, tag, time, modName, thread, user, "", tail);
  }

  /**
   * A join or part line of either dialect whose user does not start with `<`
   * is read by the table's `join` or `part` entry.  (A user starting with
   * `<` can make it read as chat.)
   */
  lemma AnnounceLineRead(t: Table, h: Header, i: nat, name: string, tag: string, time: string, modName: string,
                         thread: string, user: string, tail: string)
    requires Shaped(t, h)
    requires i == 1 || i == 2
    requires Lower(tag) == name
    requires Renderable(t[i].format, tag, time, modName, thread, user, "", tail)
    requires user[0] != '<'
    ensures FirstMatch(t, name, LineOf(t, i, tag, time, modName, thread, user, "") + tail)
         == Some((if i == 1 then Join else Part, Captures(tag, time, user, None)))
  {
    var line := LineOf(t, i, tag, time, modName, thread, user, "") + tail;
    AnnounceNotChat(t, h, i, name, tag, time, modName, thread, user, tail);
    AnnounceAccepted(t, h, i, tag, time, modName, thread, user, tail);
    var p := AcceptsLine(name, line);
    assert !p(t[0]) && p(t[i]);
    if i == 1 {
      FirstWhereSecond(t, p);
    } else {
      PartNotJoin(t, h, name, tag, time, modName, thread, user, tail);
      assert !p(t[1]);
      FirstWhereThird(t, p);
    }
  }

  /**
   * A join or part line of the server's own dialect and tag, whose user does
   * not start with `<`, is relayed with the advancement wording and not
   * broadcast.
   */
  lemma AnnounceLineRelayed(server: Server, i: nat, tag: string, time: string, modName: string, thread: string,
                            user: string, tail: string)
    requires Lower(server.externalId) != "" && GrammarFor(Lower(server.externalId)).Some?
    requires i == 1 || i == 2
    requires Lower(tag) == Lower(server.externalId)
    requires Renderable(GrammarFor(Lower(server.externalId)).value[i].format, tag, time, modName, thread, user, "", tail)
    requires user[0] != '<'
    ensures var name := Lower(server.externalId);
      ParseSpec(server, LineOf(GrammarFor(name).value, i, tag, time, modName, thread, user, "") + tail)
      == Some(Relay(EventDisplay(name, TimeCvt(time),
                                 user, if i == 1 then "joined the server." else "left the server."), None))
  {
    var name := Lower(server.externalId);
    AnnounceLineRead(GrammarFor(name).value, DialectHeader(name), i, name, tag, time, modName, thread, user, tail);
  }

  /** The search passes over three elements that fail `p` and stops at a fourth that satisfies it. */
  lemma FirstWhereFourth<E>(t: seq<E>, p: E -> bool)
    requires |t| > 3 && !p(t[0]) && !p(t[1]) && !p(t[2]) && p(t[3])
    ensures FirstWhere(t, p) == Some(3)
  {
    assert FirstFrom(t, p, 3) == Some(3);
    assert FirstFrom(t, p, 2) == Some(3);
    assert FirstFrom(t, p, 1) == Some(3);
  }

  /** The search passes over four elements that fail `p` and stops at a fifth that satisfies it. */
  lemma FirstWhereFifth<E>(t: seq<E>, p: E -> bool)
    requires |t| > 4 && !p(t[0]) && !p(t[1]) && !p(t[2]) && !p(t[3]) && p(t[4])
    ensures FirstWhere(t, p) == Some(4)
  {
    assert FirstFrom(t, p, 4) == Some(4);
    assert FirstFrom(t, p, 3) == Some(4);
    assert FirstFrom(t, p, 2) == Some(4);
    assert FirstFrom(t, p, 1) == Some(4);
  }

  /**
   * A non-space user followed by a space, a `:` or nothing does not start the
   * phrase ` w ...` of an announcement unless the user is the word `w` itself.
   */
  lemma PhraseRefusesOtherUser(w: string, more: string, user: string, x: string)
    requires ValidRun(NonSpace, user) && user != w
    requires forall i :: 0 <= i < |w| ==> !IsSpace(w[i]) && w[i] != ':'
    requires x == [] || IsSpace(x[0]) || x[0] == ':'
    ensures !(" " + w + " " + more <= " " + user + x)
  {
    var s := " " + user + x;
    var p := " " + w + " " + more;
    if |user| > |w| {
      assert p[1 + |w|] == ' ' && s[1 + |w|] == user[|w|];
    } else if |user| < |w| {
      if x != [] {
        assert p[1 + |user|] == w[|user|] && s[1 + |user|] == x[0];
      } else {
        assert |s| < |p|;
      }
    } else {
      assert !(forall i :: 0 <= i < |w| ==> user[i] == w[i]);
      var i :| 0 <= i < |w| && user[i] != w[i];
      assert p[1 + i] == w[i] && s[1 + i] == user[i];
    }
  }

  /**
   * A join or part pattern reads the verb of a ban or pardon line as its user
   * and then refuses the line, unless the banned user is the phrase's own word.
   */
  lemma ActionBodyRefusesAnnounce(verb: string, w: string, more: string, user: string, x: string)
    requires ValidRun(NonSpace, verb)
    requires ValidRun(NonSpace, user) && user != w
    requires forall i :: 0 <= i < |w| ==> !IsSpace(w[i]) && w[i] != ':'
    requires x == [] || IsSpace(x[0]) || x[0] == ':'
    ensures MatchBody(Announce(" " + w + " " + more), verb + " " + user + x) == None
  {
    assert verb + " " + user + x == verb + (" " + user + x);
    RunAppend(NonSpace, verb, " " + user + x);
    PhraseRefusesOtherUser(w, more, user, x);
  }

  /** The text after the user in a ban or pardon body, up to the end of the line. */
  function ActionRest(reason: Reason, message: string, tail: string): string {
    if reason == RequiredReason then ": " + message + tail else tail
  }

  /** A ban or pardon body is the verb, a space, the user and the rest, which ends the user's run. */
  lemma ActionBodySplit(verb: string, reason: Reason, user: string, message: string, tail: string)
    requires reason != RequiredReason ==> EndsRun(NonSpace, tail)
    ensures BodyText(Action(verb, reason), user, message) + tail == verb + " " + user + ActionRest(reason, message, tail)
    ensures var x := ActionRest(reason, message, tail); x == [] || IsSpace(x[0]) || x[0] == ':'
  {
    if reason == RequiredReason {
      assert (": " + message + tail)[0] == ':';
    }
  }

  /** The chat pattern needs `<` where a ban or pardon body has its verb. */
  lemma ActionBodyNotChat(verb: string, rest: string)
    requires verb == "Banned" || verb == "Unbanned"
    ensures MatchBody(Chat, verb + rest) == None
  {
    assert (verb + rest)[0] == verb[0];
  }

  /** The ban pattern's verb is not the pardon verb. */
  lemma PardonNotBan(banReason: Reason, rest: string)
    ensures MatchBody(Action("Banned", banReason), "Unbanned" + rest) == None
  {
    assert ("Unbanned" + rest)[0] == 'U';
  }

  /**
   * The bodies tried before a ban or pardon body refuse it: chat needs `<`,
   * join and part read the verb as the user, and the ban verb is not the
   * pardon verb.  `x` is what follows the user.
   */
  lemma ActionBodyRefused(verb: string, c: Body, user: string, x: string)
    requires verb == "Banned" || verb == "Unbanned"
    requires c == Chat || c == Announce(JoinSuffix) || c == Announce(PartSuffix)
             || (verb == "Unbanned" && c.Action? && c.verb == "Banned")
    requires ValidRun(NonSpace, user) && user != "joined" && user != "left"
    requires x == [] || IsSpace(x[0]) || x[0] == ':'
    ensures MatchBody(c, verb + " " + user + x) == None
  {
    if c == Chat {
      assert verb + " " + user + x == verb + (" " + user + x);
      ActionBodyNotChat(verb, " " + user + x);
    } else if c == Announce(JoinSuffix) {
      assert JoinSuffix == " " + "joined" + " " + "the game";
      ActionBodyRefusesAnnounce(verb, "joined", "the game", user, x);
    } else if c == Announce(PartSuffix) {
      assert PartSuffix == " " + "left" + " " + "the game";
      ActionBodyRefusesAnnounce(verb, "left", "the game", user, x);
    } else {
      assert verb + " " + user + x == "Unbanned" + (" " + user + x);
      PardonNotBan(c.reason, " " + user + x);
    }
  }

  /** A format tried before a ban or pardon format, behind the same header, refuses its lines. */
  lemma ActionNotEarlier(f: LineFormat, g: LineFormat, tag: string, time: string, modName: string,
                         thread: string, user: string, message: string, tail: string)
    requires f.body.Action? && (f.body.verb == "Banned" || f.body.verb == "Unbanned")
    requires g.header == f.header
    requires g.body == Chat || g.body == Announce(JoinSuffix) || g.body == Announce(PartSuffix)
             || (f.body.verb == "Unbanned" && g.body.Action? && g.body.verb == "Banned")
    requires Renderable(f, tag, time, modName, thread, user, message, tail)
    requires user != "joined" && user != "left"
    ensures Match(g, LineText(f, tag, time, modName, thread, user, message) + tail) == None
  {
    var body := BodyText(f.body, user, message) + tail;
    assert LineText(f, tag, time, modName, thread, user, message) + tail
        == HeaderText(tag, time) + TagText(f.header, modName, thread) + ": " + body;
    ActionBodySplit(f.body.verb, f.body.reason, user, message, tail);
    assert f.body == Action(f.body.verb, f.body.reason);
    ActionBodyRefused(f.body.verb, g.body, user, ActionRest(f.body.reason, message, tail));
    MatchWithHeader(g.header, g.body, tag, time, modName, thread, body);
  }

  /**
   * A ban or pardon line of either dialect is read by the table's `ban` or
   * `pardon` entry, unless the user is named `joined` or `left` (then the
   * join or part pattern, tried first, can take the line).
   */
  lemma ActionLineRead(t: Table, h: Header, i: nat, name: string, tag: string, time: string, modName: string,
                       thread: string, user: string, message: string, tail: string)
    requires (t == Vanilla && h == Plain) || (t == Atm10 && h == Threaded)
    requires i == 3 || i == 4
    requires Lower(tag) == name
    requires Renderable(t[i].format, tag, time, modName, thread, user, message, tail)
    requires user != "joined" && user != "left"
    ensures FirstMatch(t, name, LineOf(t, i, tag, time, modName, thread, user, message) + tail)
         == Some((if i == 3 then Ban else Pardon,
                  Captures(tag, time, user, if CarriesMessage(t[i].format.body) then Some(message) else None)))
  {
    var line := LineOf(t, i, tag, time, modName, thread, user, message) + tail;
    MatchRoundTrip(t[i].format, tag, time, modName, thread, user, message, tail);
    var p := AcceptsLine(name, line);
    var f := t[i].format;
    ActionNotEarlier(f, t[0].format, tag, time, modName, thread, user, message, tail);
    ActionNotEarlier(f, t[1].format, tag, time, modName, thread, user, message, tail);
    ActionNotEarlier(f, t[2].format, tag, time, modName, thread, user, message, tail);
    assert !p(t[0]) && !p(t[1]) && !p(t[2]) && p(t[i]);
    if i == 3 {
      FirstWhereFourth(t, p);
    } else {
      ActionNotEarlier(f, t[3].format, tag, time, modName, thread, user, message, tail);
      assert !p(t[3]);
      FirstWhereFifth(t, p);
    }
  }

  /**
   * A ban or pardon line of the server's own dialect and tag is relayed with
   * the advancement wording and not broadcast; a pardon is built as a `ban`
   * event with the words "was unbanned from the server.".
   */
  lemma ActionLineRelayed(server: Server, i: nat, tag: string, time: string, modName: string, thread: string,
                          user: string, message: string, tail: string)
    requires Lower(server.externalId) != "" && GrammarFor(Lower(server.externalId)).Some?
    requires i == 3 || i == 4
    requires Lower(tag) == Lower(server.externalId)
    requires Renderable(GrammarFor(Lower(server.externalId)).value[i].format, tag, time, modName, thread,
                        user, message, tail)
    requires user != "joined" && user != "left"
    ensures var name := Lower(server.externalId);
      ParseSpec(server, LineOf(GrammarFor(name).value, i, tag, time, modName, thread, user, message) + tail)
      == Some(Relay(EventDisplay(name, TimeCvt(time), user,
                                 if i == 3 then "was banned from the server." else "was unbanned from the server."),
                    None))
  {
    var name := Lower(server.externalId);
    ActionLineRead(GrammarFor(name).value, DialectHeader(name), i, name, tag, time, modName, thread,
                   user, message, tail);
  }

  /**
   * In the plain dialect, `Banned user: reason` is relayed with the colon
   * kept in the user's name and the reason dropped: the greedy user run takes
   * the colon, so the optional reason group never matches.  `i` is the index
   * of the `ban` entry, and the line is the one `BannedColonText` spells out.
   */
  lemma VanillaBanKeepsColon(server: Server, i: nat, tag: string, time: string, user: string, reason: string,
                             tail: string)
    requires Lower(server.externalId) != "" && GrammarFor(Lower(server.externalId)) == Some(Vanilla)
    requires i == 3 && Lower(tag) == Lower(server.externalId)
    requires ValidRun(NoneOf(']'), tag) && IsClock(time) && ValidRun(NonSpace, user)
    requires tail == " " + reason
    ensures ParseSpec(server, LineOf(Vanilla, i, tag, time, reason, reason, user + ":", reason) + tail)
         == Some(Relay(EventDisplay(Lower(tag), TimeCvt(time), user + ":", "was banned from the server."), None))
  {
    // The plain header and the optional-reason body ignore the thread, the
    // mod name and the message, so the reason stands in for them.
    ColonUserRenderable(Vanilla[i].format, tag, time, user, reason);
    ActionLineRelayed(server, i, tag, time, reason, reason, user + ":", reason, tail);
  }

  /** A user run with a colon appended, followed by a space, fits a plain optional-reason ban line. */
  lemma ColonUserRenderable(f: LineFormat, tag: string, time: string, user: string, reason: string)
    requires f == LineFormat(Plain, Action("Banned", OptionalReason))
    requires ValidRun(NoneOf(']'), tag) && IsClock(time) && ValidRun(NonSpace, user)
    ensures Renderable(f, tag, time, reason, reason, user + ":", reason, " " + reason)
    ensures user + ":" != "joined" && user + ":" != "left"
  {
    assert AllIn(NonSpace, user + ":") by {
      assert forall k :: 0 <= k < |user| ==> (user + ":")[k] == user[k];
    }
    assert (user + ":")[|user|] == ':';
    assert (" " + reason)[0] == ' ';
  }

  /** The line of `VanillaBanKeepsColon` is `[tag] [time] [Server thread/INFO]: Banned user: reason`. */
  lemma BannedColonText(i: nat, tag: string, time: string, user: string, reason: string)
    requires i == 3
    ensures LineOf(Vanilla, i, tag, time, reason, reason, user + ":", reason) + " " + reason
         == HeaderText(tag, time) + ": Banned " + user + ": " + reason
  {
    var f := Vanilla[i].format;
    assert f == LineFormat(Plain, Action("Banned", OptionalReason));
    var h := HeaderText(tag, time);
    assert LineOf(Vanilla, i, tag, time, reason, reason, user + ":", reason) == h + ": " + ("Banned " + (user + ":"));
    assert ": Banned " == ": " + "Banned ";
    assert ": " == ":" + " ";
  }
}
