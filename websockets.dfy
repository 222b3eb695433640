/**
 * The panel websocket client of one game server.
 *
 * It fetches a websocket token from the panel's client API, retrying
 * connection and request failures with exponential back-off, opens the
 * websocket, answers the panel's authentication events with the token, and
 * hands every single-argument console line, stripped of its colour codes and
 * prefixed with the server's external id, to the console-line parser.  The
 * broadcast the parser requests goes out on the websocket in the
 * broadcaster's slot.
 *
 * The HTTP requests are modelled by their outcomes: `outcome(k)` is what the
 * `k`-th request of a fetch yields.  Sleeps are modelled by their lengths.
 */
module Websockets {
  import opened Wrappers
  import opened Text
  import Json
  import opened Regexes
  import opened Minecraft
  import opened Broadcasting

  /** The environment variables the client reads. */
  datatype Env = Env(panelClientKey: string, panelApiUrl: string, panelWssUrl: string, wingsToken: string)

  // ------------------------------------------------------------ endpoints

  const ServersPath: string := "/client/servers/"
  const SocketPath: string := "/websocket"

  /** The client API endpoint that hands out a websocket token for a server. */
  function CredentialsUrl(apiUrl: string, serverId: string): string {
    apiUrl + ServersPath + serverId + SocketPath
  }

  /** The server id a credentials URL of this panel asks for; None for any other URL. */
  function ServerIdOf(apiUrl: string, url: string): Option<string> {
    var head := apiUrl + ServersPath;
    if |url| < |head| + |SocketPath| || url[..|head|] != head || url[|url| - |SocketPath|..] != SocketPath then None
    else Some(url[|head|..|url| - |SocketPath|])
  }

  /** Each server's credentials are asked for at a URL of its own, which names it. */
  lemma CredentialsUrlRoundTrip(apiUrl: string, serverId: string)
    ensures ServerIdOf(apiUrl, CredentialsUrl(apiUrl, serverId)) == Some(serverId)
  {
    var head := apiUrl + ServersPath;
    var url := CredentialsUrl(apiUrl, serverId);
    assert url == head + serverId + SocketPath;
    assert url[..|head|] == head;
    assert url[|url| - |SocketPath|..] == SocketPath;
    assert url[|head|..|url| - |SocketPath|] == serverId;
  }

  /** The headers of the credentials request, as name and value. */
  function CredentialsHeaders(clientKey: string): seq<(string, string)> {
    [("Authorization", "Bearer " + clientKey), ("Accept", "application/json"), ("Content-Type", "application/json")]
  }

  const TokenQuery: string := "/ws?token="

  /** The websocket URL of a server: the wings token rides in the query string. */
  function SocketUrl(wssUrl: string, uuid: string, wingsToken: string): string {
    wssUrl + "/servers/" + uuid + TokenQuery + wingsToken
  }

  /** For one server, the websocket URL determines the wings token it carries. */
  lemma SocketUrlToken(wssUrl: string, uuid: string, a: string, b: string)
    requires SocketUrl(wssUrl, uuid, a) == SocketUrl(wssUrl, uuid, b)
    ensures a == b
  {
    var head := wssUrl + "/servers/" + uuid + TokenQuery;
    assert SocketUrl(wssUrl, uuid, a) == head + a;
    assert SocketUrl(wssUrl, uuid, b) == head + b;
    assert (head + a)[|head|..] == a;
    assert (head + b)[|head|..] == b;
  }

  /** The headers the websocket is opened with. */
  function SocketHeaders(wingsToken: string): seq<string> {
    ["Authorization: Bearer " + wingsToken, "Origin: https://peli.sketchni.uk/"]
  }

  // -------------------------------------------------- credentials with retry

  /** The defaults of `get_websocket_credentials`, which `connect_to_server` relies on. */
  const DefaultRetries: int := 3
  const DefaultBackoff: nat := 1

  /** What one `requests.get` of the credentials endpoint yields. */
  datatype Outcome =
    | Forbidden                         // status 403
    | Answered(token: Option<string>)   // a successful response; `data.token` if present
    | ConnectionFailed(reason: string)  // `requests.ConnectionError`, with its text
    | RequestFailed(reason: string)     // any other `RequestException`: timeout, error status, bad JSON

  datatype ErrorKind = ConnectionError | RequestError

  /** How a credentials fetch ends. */
  datatype Ending =
    | Stored(token: Option<string>)           // returned after storing the token
    | NoAttempt                               // returned without a request: no attempts allowed
    | PermissionDenied(message: string)       // `PermissionError` raised
    | Raised(kind: ErrorKind, message: string)

  /** A fetch: how it ends, how many requests it made and the back-off sleeps between them. */
  datatype Fetch = Fetch(ending: Ending, requests: nat, waits: seq<int>)

  const ForbiddenMessage: string :=
    "403 Forbidden: Check your API key permissions and that the key is a Client API key."

  /** `sub in s` on strings: `sub` starts at some position of `s`. */
  predicate Contains(s: string, sub: string)
    decreases |s|
  {
    sub <= s || (s != [] && Contains(s[1..], sub))
  }

  /** A connection failure that comes from a host name that does not resolve. */
  predicate IsDnsFailure(reason: string) {
    Contains(reason, "Name or service not known") || Contains(reason, "Failed to resolve")
  }

  function DnsMessage(url: string): string {
    "DNS resolution failed for " + url + ". Please check the hostname in PANEL_API_URL environment variable."
  }

  function GiveUpMessage(kind: ErrorKind, maxRetries: nat, reason: string): string {
    match kind
    case ConnectionError => "Failed to connect after " + NatToString(maxRetries) + " attempts: " + reason
    case RequestError => "Request failed after " + NatToString(maxRetries) + " attempts: " + reason
  }

  function Pow2(n: nat): (r: nat)
    ensures r >= 1
  {
    if n == 0 then 1 else 2 * Pow2(n - 1)
  }

  /** The sleep after failed attempt `attempt`, doubling from `backoff`. */
  function Sleep(backoff: nat, attempt: nat): nat {
    if attempt == 0 then backoff else 2 * Sleep(backoff, attempt - 1)
  }

  /** The sleep after failed attempt `attempt` is `backoff_factor * 2 ** attempt`. */
  lemma {:induction false} SleepIsPower(backoff: nat, attempt: nat)
    ensures Sleep(backoff, attempt) == backoff * Pow2(attempt)
  {
    if attempt > 0 {
      SleepIsPower(backoff, attempt - 1);
      assert backoff * Pow2(attempt) == 2 * (backoff * Pow2(attempt - 1));
    }
  }

  /** An outcome after which the loop tries again, unless it was the last attempt. */
  predicate Retryable(o: Outcome) {
    o.RequestFailed? || (o.ConnectionFailed? && !IsDnsFailure(o.reason))
  }

  function KindOf(o: Outcome): ErrorKind
    requires Retryable(o)
  {
    if o.ConnectionFailed? then ConnectionError else RequestError
  }

  /** How the fetch ends at an outcome that is not retried. */
  function Decide(url: string, o: Outcome): Ending
    requires !Retryable(o)
  {
    match o
    case Forbidden => PermissionDenied(ForbiddenMessage)
    case Answered(t) => Stored(t)
    case ConnectionFailed(_) => Raised(ConnectionError, DnsMessage(url))
  }

  /** The fetch from attempt `attempt` on. */
  function FetchFrom(outcome: nat -> Outcome, url: string, maxRetries: int, backoff: nat, attempt: nat): Fetch
    decreases if attempt < maxRetries then maxRetries - attempt else 0
  {
    if attempt >= maxRetries then Fetch(NoAttempt, 0, [])
    else
      var o := outcome(attempt);
      if !Retryable(o) then Fetch(Decide(url, o), 1, [])
      else if attempt < maxRetries - 1 then
        var rest := FetchFrom(outcome, url, maxRetries, backoff, attempt + 1);
        Fetch(rest.ending, rest.requests + 1, [Sleep(backoff, attempt)] + rest.waits)
      else
        Fetch(Raised(KindOf(o), GiveUpMessage(KindOf(o), maxRetries, o.reason)), 1, [])
  }

  /** The requests and sleeps already made, followed by the rest of the fetch. */
  function After(requests: nat, waits: seq<int>, rest: Fetch): Fetch {
    Fetch(rest.ending, requests + rest.requests, waits + rest.waits)
  }

  /** The sleeps before attempts `from + 1` to `from + n`: `backoff * 2^attempt` after each failed attempt. */
  function Waits(backoff: nat, from: nat, n: nat): (r: seq<int>)
    ensures |r| == n
    ensures forall i :: 0 <= i < n ==> r[i] == Sleep(backoff, from + i)
    decreases n
  {
    if n == 0 then [] else [Sleep(backoff, from)] + Waits(backoff, from + 1, n - 1)
  }

  /** The fetch returns without any request exactly when no attempts are allowed; it never runs off the loop's end. */
  lemma {:induction false} NoAttemptIffNoRetries(outcome: nat -> Outcome, url: string, maxRetries: int, backoff: nat,
                                                 attempt: nat)
    ensures FetchFrom(outcome, url, maxRetries, backoff, attempt).ending == NoAttempt <==> attempt >= maxRetries
    ensures FetchFrom(outcome, url, maxRetries, backoff, attempt).requests == 0 <==> attempt >= maxRetries
    decreases if attempt < maxRetries then maxRetries - attempt else 0
  {
    if attempt < maxRetries - 1 && Retryable(outcome(attempt)) {
      NoAttemptIffNoRetries(outcome, url, maxRetries, backoff, attempt + 1);
    }
  }

  /**
   * Retryable failures are retried with doubling sleeps until the first
   * outcome that is not retryable: a 403, a success, or a DNS failure, which
   * is never retried.  The fetch ends with that outcome after `k + 1`
   * requests and `k` sleeps.
   */
  lemma {:induction false} DecidedAt(outcome: nat -> Outcome, url: string, maxRetries: int, backoff: nat,
                                     attempt: nat, k: nat)
    requires attempt <= k < maxRetries
    requires forall j :: attempt <= j < k ==> Retryable(outcome(j))
    requires !Retryable(outcome(k))
    ensures FetchFrom(outcome, url, maxRetries, backoff, attempt)
         == Fetch(Decide(url, outcome(k)), k - attempt + 1, Waits(backoff, attempt, k - attempt))
    decreases k - attempt
  {
    if attempt < k {
      DecidedAt(outcome, url, maxRetries, backoff, attempt + 1, k);
    }
  }

  /** When every attempt fails in a retryable way, the last failure is raised after `maxRetries` requests. */
  lemma {:induction false} GivesUpAfterAll(outcome: nat -> Outcome, url: string, maxRetries: int, backoff: nat,
                                           attempt: nat)
    requires attempt < maxRetries
    requires forall j :: attempt <= j < maxRetries ==> Retryable(outcome(j))
    ensures var last := outcome(maxRetries - 1);
      FetchFrom(outcome, url, maxRetries, backoff, attempt)
      == Fetch(Raised(KindOf(last), GiveUpMessage(KindOf(last), maxRetries, last.reason)),
               maxRetries - attempt, Waits(backoff, attempt, maxRetries - attempt - 1))
    decreases maxRetries - attempt
  {
    if attempt < maxRetries - 1 {
      GivesUpAfterAll(outcome, url, maxRetries, backoff, attempt + 1);
    }
  }

  /** A fetch makes at most one request per allowed attempt, and sleeps once between each two requests. */
  lemma {:induction false} FetchBounds(outcome: nat -> Outcome, url: string, maxRetries: int, backoff: nat,
                                       attempt: nat)
    ensures var f := FetchFrom(outcome, url, maxRetries, backoff, attempt);
      && (attempt < maxRetries ==> f.requests <= maxRetries - attempt)
      && (f.requests == 0 || |f.waits| == f.requests - 1)
    decreases if attempt < maxRetries then maxRetries - attempt else 0
  {
    if attempt < maxRetries - 1 && Retryable(outcome(attempt)) {
      FetchBounds(outcome, url, maxRetries, backoff, attempt + 1);
      NoAttemptIffNoRetries(outcome, url, maxRetries, backoff, attempt + 1);
    }
  }

  /** The sleeps of a fetch are the doubling sequence from `backoff * 2^attempt`, one per failed attempt but the last. */
  lemma {:induction false} FetchWaitsDouble(outcome: nat -> Outcome, url: string, maxRetries: int, backoff: nat,
                                            attempt: nat)
    ensures var f := FetchFrom(outcome, url, maxRetries, backoff, attempt);
      f.waits == Waits(backoff, attempt, |f.waits|)
    decreases if attempt < maxRetries then maxRetries - attempt else 0
  {
    if attempt < maxRetries - 1 && Retryable(outcome(attempt)) {
      FetchWaitsDouble(outcome, url, maxRetries, backoff, attempt + 1);
    }
  }

  /** What the fetch specification says about one attempt, case by case. */
  lemma FetchAt(outcome: nat -> Outcome, url: string, maxRetries: int, backoff: nat, attempt: nat)
    requires attempt < maxRetries
    ensures var o := outcome(attempt);
      var f := FetchFrom(outcome, url, maxRetries, backoff, attempt);
      && (o.Forbidden? ==> f == Fetch(PermissionDenied(ForbiddenMessage), 1, []))
      && (o.Answered? ==> f == Fetch(Stored(o.token), 1, []))
      && (o.ConnectionFailed? && IsDnsFailure(o.reason) ==> f == Fetch(Raised(ConnectionError, DnsMessage(url)), 1, []))
      && (Retryable(o) && attempt >= maxRetries - 1 ==>
            f == Fetch(Raised(KindOf(o), GiveUpMessage(KindOf(o), maxRetries, o.reason)), 1, []))
      && (Retryable(o) && attempt < maxRetries - 1 ==>
            f == After(1, [Sleep(backoff, attempt)], FetchFrom(outcome, url, maxRetries, backoff, attempt + 1)))
  {
  }

  /** With the defaults `connect_to_server` uses, a fetch always makes a request and ends decided. */
  lemma DefaultFetchDecides(outcome: nat -> Outcome, url: string)
    ensures FetchFrom(outcome, url, DefaultRetries, DefaultBackoff, 0).ending != NoAttempt
    ensures 1 <= FetchFrom(outcome, url, DefaultRetries, DefaultBackoff, 0).requests <= DefaultRetries
  {
    NoAttemptIffNoRetries(outcome, url, DefaultRetries, DefaultBackoff, 0);
    FetchBounds(outcome, url, DefaultRetries, DefaultBackoff, 0);
  }

  /** A string shorter than `sub` does not contain it. */
  lemma {:induction false} ShorterLacks(s: string, sub: string)
    requires |s| < |sub|
    ensures !Contains(s, sub)
  {
    if s != [] {
      ShorterLacks(s[1..], sub);
    }
  }

  /**
   * A failed connection that is not a DNS failure is retried once the sleep
   * is over, and the token of the next successful answer is stored.
   */
  lemma RetryThenSuccess(url: string)
    ensures var outcome := (k: nat) => if k == 0 then ConnectionFailed("Temporary fail") else Answered(Some("retrytoken"));
      FetchFrom(outcome, url, 2, 0, 0) == Fetch(Stored(Some("retrytoken")), 2, [0])
  {
    var outcome := (k: nat) => if k == 0 then ConnectionFailed("Temporary fail") else Answered(Some("retrytoken"));
    ShorterLacks("Temporary fail", "Name or service not known");
    ShorterLacks("Temporary fail", "Failed to resolve");
    assert Retryable(outcome(0)) && !Retryable(outcome(1));
    DecidedAt(outcome, url, 2, 0, 0, 1);
  }

  // ------------------------------------------------------ the console text

  const Esc: char := '\U{1B}'

  predicate IsSgrParam(c: char) {
    ('0' <= c <= '9') || c == ';'
  }

  /** The length of the run of `[0-9;]` characters that starts `s`. */
  function ParamRun(s: string): (n: nat)
    ensures n <= |s|
    ensures forall i :: 0 <= i < n ==> IsSgrParam(s[i])
    ensures n < |s| ==> !IsSgrParam(s[n])
  {
    if s == [] || !IsSgrParam(s[0]) then 0 else 1 + ParamRun(s[1..])
  }

  /** The length of the colour code `ESC [ [0-9;]* m` that starts `s`, or 0 when none does. */
  function SgrLength(s: string): (n: nat)
    ensures n <= |s|
    ensures n == 0 || n >= 3
  {
    if |s| >= 2 && s[0] == Esc && s[1] == '[' then
      var k := 2 + ParamRun(s[2..]);
      if k < |s| && s[k] == 'm' then k + 1 else 0
    else 0
  }

  /**
   * A positive length is that of a whole colour code `ESC [ codes m` with
   * only digits and `;` in `codes`; with `SgrLengthOfCode`, an escape is
   * removed exactly when such a code starts at it.
   */
  lemma SgrLengthShape(s: string)
    ensures var n := SgrLength(s);
      n > 0 ==> s[..n] == Sgr(s[2..n - 1]) && forall i :: 2 <= i < n - 1 ==> IsSgrParam(s[i])
  {
    var n := SgrLength(s);
    if n > 0 {
      var k := n - 1;
      assert forall i :: 2 <= i < k ==> s[i] == s[2..][i - 2];
      assert s[..n] == [s[0], s[1]] + s[2..k] + [s[k]];
    }
  }

  /** `re.sub(r'(?:\x1b\[[0-9;]*m)*', '', s)`: drops every colour code, scanning left to right. */
  function StripAnsi(s: string): string
    decreases |s|
  {
    if s == [] then []
    else
      var n := SgrLength(s);
      if n > 0 then StripAnsi(s[n..]) else [s[0]] + StripAnsi(s[1..])
  }

  /** A colour code with parameters `codes`. */
  function Sgr(codes: string): string {
    [Esc, '['] + codes + "m"
  }

  /** `t` is `s` with some characters left out, the others kept in order. */
  predicate IsSubsequence(t: string, s: string)
    decreases |s|
  {
    if t == [] then true
    else if s == [] then false
    else if t[0] == s[0] then IsSubsequence(t[1..], s[1..])
    else IsSubsequence(t, s[1..])
  }

  /**
   * A text that does not start with a whole colour code keeps its first
   * character, even when that character is an escape.
   */
  lemma StripFirstPlain(s: string)
    requires s != [] && SgrLength(s) == 0
    ensures StripAnsi(s) == [s[0]] + StripAnsi(s[1..])
  {
  }

  /** A text that starts with a colour code `ESC [ codes m` has exactly that code's length. */
  lemma SgrLengthOfCode(codes: string, rest: string)
    requires forall i :: 0 <= i < |codes| ==> IsSgrParam(codes[i])
    ensures SgrLength(Sgr(codes) + rest) == |codes| + 3
  {
    var s := Sgr(codes) + rest;
    assert s[2..] == codes + ("m" + rest);
    ParamPrefix(codes, "m" + rest);
    assert s[2 + |codes|] == 'm';
  }

  /** An escape that only begins a colour code, such as a truncated `ESC[31`, is kept with what follows it. */
  lemma StripKeepsTruncated(codes: string)
    requires forall i :: 0 <= i < |codes| ==> IsSgrParam(codes[i])
    ensures StripAnsi([Esc, '['] + codes) == [Esc, '['] + codes
  {
    var s := [Esc, '['] + codes;
    assert s[2..] == codes;
    ParamAll(codes);
    assert SgrLength(s) == 0;
    StripFirstPlain(s);
    assert s[1..] == ['['] + codes;
    StripPlain(['['] + codes);
  }

  /** An escape not followed by `[`, such as `ESC(B`, is kept with what follows it. */
  lemma StripKeepsOtherEscape(rest: string)
    requires rest != [] && rest[0] != '[' && Esc !in rest
    ensures StripAnsi([Esc] + rest) == [Esc] + rest
  {
    var s := [Esc] + rest;
    assert s[1] == rest[0];
    assert SgrLength(s) == 0;
    StripFirstPlain(s);
    assert s[1..] == rest;
    StripPlain(rest);
  }

  lemma {:induction false} ParamAll(codes: string)
    requires forall i :: 0 <= i < |codes| ==> IsSgrParam(codes[i])
    ensures ParamRun(codes) == |codes|
  {
    if codes != [] {
      ParamAll(codes[1..]);
    }
  }

  /** Text without an escape character is prefixed to the stripped rest unchanged. */
  lemma {:induction false} StripPlainPrefix(t: string, rest: string)
    requires forall i :: 0 <= i < |t| ==> t[i] != Esc
    ensures StripAnsi(t + rest) == t + StripAnsi(rest)
  {
    if t != [] {
      var s := t + rest;
      assert s[0] == t[0] && s[1..] == t[1..] + rest;
      assert SgrLength(s) == 0;
      StripFirstPlain(s);
      StripPlainPrefix(t[1..], rest);
      assert [t[0]] + (t[1..] + StripAnsi(rest)) == t + StripAnsi(rest);
    } else {
      assert t + rest == rest;
    }
  }

  /** Text without an escape character is left as it is. */
  lemma StripPlain(t: string)
    requires Esc !in t
    ensures StripAnsi(t) == t
  {
    StripPlainPrefix(t, []);
    assert t + [] == t;
  }

  /** A leading colour code is removed whole. */
  lemma StripColour(codes: string, rest: string)
    requires forall i :: 0 <= i < |codes| ==> IsSgrParam(codes[i])
    ensures StripAnsi(Sgr(codes) + rest) == StripAnsi(rest)
  {
    var s := Sgr(codes) + rest;
    SgrLengthOfCode(codes, rest);
    assert s[|codes| + 3..] == rest;
  }

  lemma {:induction false} ParamPrefix(codes: string, rest: string)
    requires forall i :: 0 <= i < |codes| ==> IsSgrParam(codes[i])
    requires rest != [] && !IsSgrParam(rest[0])
    ensures ParamRun(codes + rest) == |codes|
  {
    if codes != [] {
      assert (codes + rest)[1..] == codes[1..] + rest;
      ParamPrefix(codes[1..], rest);
    }
  }

  /** Stripping only ever drops characters: what is left appears in the input, in order. */
  lemma {:induction false} StripSubsequence(s: string)
    ensures IsSubsequence(StripAnsi(s), s)
    decreases |s|
  {
    if s != [] {
      var n := SgrLength(s);
      if n > 0 {
        StripSubsequence(s[n..]);
        DropPrefixSubsequence(StripAnsi(s[n..]), s, n);
      } else {
        StripSubsequence(s[1..]);
        assert StripAnsi(s)[1..] == StripAnsi(s[1..]);
      }
    }
  }

  lemma {:induction false} DropPrefixSubsequence(t: string, s: string, n: nat)
    requires n <= |s| && IsSubsequence(t, s[n..])
    ensures IsSubsequence(t, s)
    decreases n
  {
    if n > 0 {
      assert s[1..][n - 1..] == s[n..];
      DropPrefixSubsequence(t, s[1..], n - 1);
      SubsequenceWeaken(t, s);
    }
  }

  /** A subsequence of the tail of `s` is a subsequence of `s`. */
  lemma {:induction false} SubsequenceWeaken(t: string, s: string)
    requires s != [] && IsSubsequence(t, s[1..])
    ensures IsSubsequence(t, s)
    decreases |t| + |s|, 0
  {
    if t != [] && t[0] == s[0] {
      SubsequenceTail(t, s[1..]);
    }
  }

  /** Dropping the first character of a subsequence leaves a subsequence. */
  lemma {:induction false} SubsequenceTail(t: string, u: string)
    requires t != [] && IsSubsequence(t, u)
    ensures IsSubsequence(t[1..], u)
    decreases |t| + |u|, 1
  {
    if t[0] == u[0] {
      if t[1..] != [] {
        SubsequenceWeaken(t[1..], u);
      }
    } else {
      SubsequenceTail(t, u[1..]);
      SubsequenceWeaken(t[1..], u);
    }
  }

  /** The line handed to the parser: `[external_id] cleaned`. */
  function ConsoleLine(externalId: string, cleaned: string): string {
    "[" + externalId + "] " + cleaned
  }

  // ---------------------------------------------------------- the frames

  const AuthHead: string := "{\"event\": \"auth\", \"args\": "
  const KeepAliveFrame: string := "{\"event\": \"send stats\"}"

  /** `n` copies of `x`, in a row. */
  function Repeat<T>(x: T, n: nat): (r: seq<T>)
    ensures |r| == n
    ensures forall i :: 0 <= i < n ==> r[i] == x
  {
    if n == 0 then [] else Repeat(x, n - 1) + [x]
  }

  /** The reply to `auth required`: the token as the bare `args` value. */
  function AuthFrame(token: Option<string>): string {
    AuthHead + Json.QuoteOrNull(token) + "}"
  }

  /** The frame sent once the socket opens: the token inside a one-element `args` list. */
  function OpenFrame(token: Option<string>): string {
    AuthHead + "[" + Json.QuoteOrNull(token) + "]}"
  }

  /** Reads a JSON string or `null` between `head` and `tail`. */
  function ReadToken(head: string, tail: string, m: string): Option<Option<string>> {
    if !(head <= m) then None
    else
      var rest := m[|head|..];
      if "null" <= rest then (if rest[4..] == tail then Some(None) else None)
      else
        var q :- Json.Unquote(rest);
        if q.1 == tail then Some(Some(q.0)) else None
  }

  lemma ReadTokenRoundTrip(head: string, token: Option<string>, tail: string)
    ensures ReadToken(head, tail, head + Json.QuoteOrNull(token) + tail) == Some(token)
  {
    var m := head + Json.QuoteOrNull(token) + tail;
    assert m[|head|..] == Json.QuoteOrNull(token) + tail;
    match token {
      case None =>
        assert ("null" + tail)[4..] == tail;
      case Some(v) =>
        assert (Json.Quote(v) + tail)[0] == '"';
        Json.QuoteRoundTrip(v, tail);
    }
  }

  /** The panel reads back from the `auth required` reply exactly the token held, or null. */
  lemma AuthFrameRoundTrip(token: Option<string>)
    ensures ReadToken(AuthHead, "}", AuthFrame(token)) == Some(token)
  {
    ReadTokenRoundTrip(AuthHead, token, "}");
  }

  /** The panel reads back from the opening frame exactly the token held, or null. */
  lemma OpenFrameRoundTrip(token: Option<string>)
    ensures ReadToken(AuthHead + "[", "]}", OpenFrame(token)) == Some(token)
  {
    ReadTokenRoundTrip(AuthHead + "[", token, "]}");
    assert OpenFrame(token) == AuthHead + "[" + Json.QuoteOrNull(token) + "]}";
  }

  // ------------------------------------------------------ inbound messages

  /** A decoded panel message: its `event`, if any, and its `args` (default `[]`). */
  datatype Inbound = Inbound(event: Option<string>, args: seq<string>)

  /** What `on_message` does with a message. */
  datatype Reaction =
    | Undecodable                                 // the text was not JSON
    | Ignored                                     // stats, status or an event without a case
    | Reauthenticate                              // `jwt error`: close, fetch a token, reconnect
    | Replied(frame: string)                      // sent on the socket
    | KeepAlive                                   // `auth success`: the keep-alive thread starts
    | MissingArgument                             // `console output` without args: IndexError
    | Shown(line: string)                         // a console line that is not parsed
    | Parsed(line: string, relay: Option<Relay>)  // a console line handed to the parser

  /** The reaction to a message, given the server and the token held. */
  function React(server: Server, token: Option<string>, message: Option<Inbound>): Reaction {
    if message.None? then Undecodable
    else
      var m := message.value;
      if m.event == Some("stats") || m.event == Some("status") then Ignored
      else if m.event == Some("jwt error") then Reauthenticate
      else if m.event == Some("auth required") then Replied(AuthFrame(token))
      else if m.event == Some("auth success") then KeepAlive
      else if m.event == Some("console output") then ConsoleReaction(server, m.args)
      else Ignored
  }

  /** The reaction to `console output`: the first argument is cleaned and prefixed, and parsed if it is the only one. */
  function ConsoleReaction(server: Server, args: seq<string>): Reaction {
    if |args| == 0 then MissingArgument
    else
      var line := ConsoleLine(server.externalId, StripAnsi(args[0]));
      if |args| == 1 then Parsed(line, ParseSpec(server, line)) else Shown(line)
  }

  /** The frames a reaction sends on the message's own socket. */
  function Outgoing(r: Reaction): seq<string> {
    if r.Replied? then [r.frame] else []
  }

  /** The broadcast a reaction requests. */
  function Requested(r: Reaction): Option<Minecraft.Broadcast> {
    if r.Parsed? && r.relay.Some? then r.relay.value.broadcast else None
  }

  /** Only console output reaches the parser, and only when it has exactly one argument. */
  lemma {:induction false} ParsedIffSingleConsoleArg(server: Server, token: Option<string>, message: Option<Inbound>)
    ensures React(server, token, message).Parsed?
        <==> message.Some? && message.value.event == Some("console output") && |message.value.args| == 1
  {
  }

  /** The only frame a message makes the client send itself is the `auth required` reply, carrying the token. */
  lemma RepliesCarryToken(server: Server, token: Option<string>, message: Option<Inbound>)
    requires Outgoing(React(server, token, message)) != []
    ensures message.Some? && message.value.event == Some("auth required")
    ensures Outgoing(React(server, token, message)) == [AuthFrame(token)]
    ensures ReadToken(AuthHead, "}", Outgoing(React(server, token, message))[0]) == Some(token)
  {
    AuthFrameRoundTrip(token);
  }

  /** A line with the panel header is the console line of the text after `[tag] `. */
  lemma ConsoleSplit(ext: string, time: string, x: string)
    ensures |HeaderText(ext, time) + x| >= |ext| + 3
    ensures HeaderText(ext, time) + x == ConsoleLine(ext, (HeaderText(ext, time) + x)[|ext| + 3..])
  {
    var line := HeaderText(ext, time) + x;
    assert line == "[" + ext + "] " + ("[" + time + "] [Server thread/INFO]" + x);
  }

  /** A suffix of a text without an escape character has none either. */
  lemma SuffixWithoutEsc(s: string, k: nat)
    requires k <= |s| && Esc !in s
    ensures Esc !in s[k..]
  {
    forall i | 0 <= i < |s[k..]|
      ensures s[k..][i] != Esc
    {
      assert s[k..][i] == s[k + i];
    }
  }

  /** Colouring text without escape characters does not change the console line. */
  lemma ConsoleLineUncoloured(ext: string, codes: string, cleaned: string)
    requires forall i :: 0 <= i < |codes| ==> IsSgrParam(codes[i])
    requires Esc !in cleaned
    ensures ConsoleLine(ext, StripAnsi(Sgr(codes) + cleaned)) == ConsoleLine(ext, cleaned)
  {
    StripColour(codes, cleaned);
    StripPlain(cleaned);
  }

  /** A console line with a single argument is cleaned, prefixed and handed to the parser. */
  lemma ConsoleOutputParsed(server: Server, token: Option<string>, raw: string)
    ensures var line := ConsoleLine(server.externalId, StripAnsi(raw));
      React(server, token, Some(Inbound(Some("console output"), [raw]))) == Parsed(line, ParseSpec(server, line))
  {
    assert React(server, token, Some(Inbound(Some("console output"), [raw]))) == ConsoleReaction(server, [raw]);
  }

  /**
   * A chat line of the server's own dialect, tagged with its external id and
   * coloured by the console, is relayed as `[server] [12-hour clock] <user>
   * message` and broadcast as a `tellraw` of the same user and message.
   */
  lemma ConsoleChatRelayed(server: Server, token: Option<string>, codes: string, time: string, modName: string,
                           thread: string, user: string, message: string, tail: string)
    requires Lower(server.externalId) != "" && GrammarFor(Lower(server.externalId)).Some?
    requires Renderable(GrammarFor(Lower(server.externalId)).value[0].format, server.externalId, time, modName,
                        thread, user, message, tail)
    requires forall i :: 0 <= i < |codes| ==> IsSgrParam(codes[i])
    requires Esc !in LineOf(GrammarFor(Lower(server.externalId)).value, 0, server.externalId, time, modName, thread,
                            user, message) + tail
    ensures var name := Lower(server.externalId);
      var line := LineOf(GrammarFor(name).value, 0, server.externalId, time, modName, thread, user, message) + tail;
      React(server, token, Some(Inbound(Some("console output"), [Sgr(codes) + line[|server.externalId| + 3..]])))
      == Parsed(line, Some(Relay(ChatDisplay(name, TimeCvt(time), user, message),
                                 Some(Minecraft.Broadcast(server, ChatCommand(name, user, message), true)))))
  {
    var name := Lower(server.externalId);
    var t := GrammarFor(name).value;
    var ext := server.externalId;
    var line := LineOf(t, 0, ext, time, modName, thread, user, message) + tail;
    var x := TagText(t[0].format.header, modName, thread) + ": " + BodyText(t[0].format.body, user, message) + tail;
    assert line == HeaderText(ext, time) + x;
    ConsoleSplit(ext, time, x);
    SuffixWithoutEsc(line, |ext| + 3);
    ConsoleLineUncoloured(ext, codes, line[|ext| + 3..]);
    ConsoleOutputParsed(server, token, Sgr(codes) + line[|ext| + 3..]);
    ChatLineRelayed(server, ext, time, modName, thread, user, message, tail);
  }

  // ----------------------------------------------------------- the client

  class Client {
    var origin: string
    var token: Option<string>
    var server: Option<Server>
    var ws: Socket?
    var url: string
    var headers: seq<string>

    /** `__init__`: remembers the server's external id; the class defaults hold otherwise. */
    constructor(s: Server)
      ensures origin == s.externalId && token == Some("") && server == None && ws == null
      ensures url == "" && headers == []
    {
      origin := s.externalId;
      token := Some("");
      server := None;
      ws := null;
      url := "";
      headers := [];
    }

    /**
     * `get_websocket_credentials`: asks for a token up to `maxRetries` times,
     * storing it on success; the requests made and the sleeps between them
     * are those of the fetch specification.
     */
    method GetWebsocketCredentials(serverId: string, env: Env, outcome: nat -> Outcome, maxRetries: int, backoff: nat)
      returns (ending: Ending, requests: nat, waits: seq<int>)
      modifies this`token
      ensures Fetch(ending, requests, waits)
           == FetchFrom(outcome, CredentialsUrl(env.panelApiUrl, serverId), maxRetries, backoff, 0)
      ensures token == if ending.Stored? then ending.token else old(token)
    {
      var credentialsUrl := CredentialsUrl(env.panelApiUrl, serverId);
      ghost var whole := FetchFrom(outcome, credentialsUrl, maxRetries, backoff, 0);
      requests := 0;
      waits := [];
      var attempt: nat := 0;
      assert whole == After(0, [], whole) by { assert [] + whole.waits == whole.waits; }
      while attempt < maxRetries
        invariant requests == attempt
        invariant whole == After(requests, waits, FetchFrom(outcome, credentialsUrl, maxRetries, backoff, attempt))
        invariant token == old(token)
        decreases maxRetries - attempt
      {
        requests := requests + 1;
        var o := outcome(attempt);
        FetchAt(outcome, credentialsUrl, maxRetries, backoff, attempt);
        ghost var rest := FetchFrom(outcome, credentialsUrl, maxRetries, backoff, attempt);
        match o {
          case Forbidden =>
            ending := PermissionDenied(ForbiddenMessage);
            assert waits + [] == waits;
            return;
          case Answered(t) =>
            token := t;
            ending := Stored(t);
            assert waits + [] == waits;
            return;
          case ConnectionFailed(reason) =>
            if IsDnsFailure(reason) {
              ending := Raised(ConnectionError, DnsMessage(credentialsUrl));
              assert waits + [] == waits;
              return;
            }
            if attempt >= maxRetries - 1 {
              ending := Raised(ConnectionError, GiveUpMessage(ConnectionError, maxRetries, reason));
              assert waits + [] == waits;
              return;
            }
          case RequestFailed(reason) =>
            if attempt >= maxRetries - 1 {
              ending := Raised(RequestError, GiveUpMessage(RequestError, maxRetries, reason));
              assert waits + [] == waits;
              return;
            }
        }
        ghost var next := FetchFrom(outcome, credentialsUrl, maxRetries, backoff, attempt + 1);
        assert waits + ([Sleep(backoff, attempt)] + next.waits) == (waits + [Sleep(backoff, attempt)]) + next.waits;
        waits := waits + [Sleep(backoff, attempt)];
        attempt := attempt + 1;
      }
      ending := NoAttempt;
      assert waits + [] == waits;
    }

    /**
     * `connect_to_server`: fetches a token (three attempts, back-off 1), and
     * unless that raised, opens a websocket to the server and puts it in the
     * broadcaster's slot.
     */
    method ConnectToServer(s: Server, env: Env, outcome: nat -> Outcome, hub: Broadcaster) returns (ending: Ending)
      modifies this, hub
      ensures server == Some(s) && origin == old(origin)
      ensures ending
           == FetchFrom(outcome, CredentialsUrl(env.panelApiUrl, s.identifier), DefaultRetries, DefaultBackoff, 0).ending
      ensures token == if ending.Stored? then ending.token else old(token)
      ensures ending.Stored? ==> && fresh(ws) && ws.sent == [] && hub.current == ws
                                 && url == SocketUrl(env.panelWssUrl, s.uuid, env.wingsToken)
                                 && headers == SocketHeaders(env.wingsToken)
      ensures !ending.Stored? ==> ws == old(ws) && url == old(url) && headers == old(headers)
                                  && hub.current == old(hub.current)
    {
      server := Some(s);
      var requests, waits;
      ending, requests, waits := GetWebsocketCredentials(s.identifier, env, outcome, DefaultRetries, DefaultBackoff);
      if !ending.Stored? {
        return;
      }
      ws := new Socket();
      url := SocketUrl(env.panelWssUrl, s.uuid, env.wingsToken);
      headers := SocketHeaders(env.wingsToken);
      hub.SetGlobalWebsocket(ws);
    }

    /**
     * `on_message`: reacts to one message from the panel.  A reply goes out on
     * this client's socket; a broadcast requested by the parser goes out on the
     * socket in the broadcaster's slot, which may be the same one.
     */
    method OnMessage(message: Option<Inbound>, hub: Broadcaster) returns (r: Reaction)
      requires server.Some? && ws != null
      modifies ws, hub.current
      ensures r == React(server.value, token, message)
      ensures hub.current != ws ==> ws.sent == old(ws.sent) + Outgoing(r)
      ensures hub.current != null && hub.current != ws ==>
                hub.current.sent == old(hub.current.sent) + Frames(Requested(r))
      ensures hub.current == ws ==> ws.sent == old(ws.sent) + Outgoing(r) + Frames(Requested(r))
      ensures ws.closed == (old(ws.closed) || r == Reauthenticate)
      ensures hub.current != null && hub.current != ws ==> hub.current.closed == old(hub.current.closed)
    {
      var s := server.value;
      if message.None? {
        return Undecodable;
      }
      var m := message.value;
      if m.event == Some("stats") || m.event == Some("status") {
        r := Ignored;
      } else if m.event == Some("jwt error") {
        ws.Close();
        r := Reauthenticate;
      } else if m.event == Some("auth required") {
        r := Replied(AuthFrame(token));
        ws.Send(r.frame);
      } else if m.event == Some("auth success") {
        r := KeepAlive;
      } else if m.event == Some("console output") {
        if |m.args| == 0 {
          r := MissingArgument;
        } else {
          var line := ConsoleLine(s.externalId, StripAnsi(m.args[0]));
          if |m.args| == 1 {
            var relay := ParseOutput(s, line);
            r := Parsed(line, relay);
            hub.Deliver(Requested(r));
          } else {
            r := Shown(line);
          }
        }
      } else {
        r := Ignored;
      }
    }

    /** `on_open`: waits 3 seconds, then sends the token, inside a list. */
    method OnOpen() returns (sleeps: seq<int>)
      requires ws != null
      modifies ws
      ensures sleeps == [3]
      ensures ws.sent == old(ws.sent) + [OpenFrame(token)] && ws.closed == old(ws.closed)
    {
      sleeps := [3];
      ws.Send(OpenFrame(token));
    }

    /**
     * `on_error`: closes the socket, then counts the error.  The counter is
     * local to each call, so it is 1 when it is compared with 3 and the
     * five-minute pause is never taken; every call ends with the same
     * 3-second sleep.
     */
    method OnError() returns (sleeps: seq<int>)
      requires ws != null
      modifies ws
      ensures ws.closed && ws.sent == old(ws.sent)
      ensures sleeps == [3]
    {
      ws.Close();
      var count := 0;
      count := count + 1;
      sleeps := [];
      if count == 3 {
        sleeps := sleeps + [600];
        count := 0;
      }
      sleeps := sleeps + [3];
    }

    /**
     * The keep-alive thread started on `auth success`: a `send stats` frame
     * every 30 seconds until a send raises.  `rounds` is the number of sends
     * that succeed; the loop stops at the next one, before sleeping.
     */
    method KeepAliveLoop(rounds: nat) returns (sleeps: seq<int>)
      requires ws != null
      modifies ws
      ensures ws.sent == old(ws.sent) + Repeat(KeepAliveFrame, rounds) && ws.closed == old(ws.closed)
      ensures sleeps == Repeat(30, rounds)
    {
      sleeps := [];
      var k := 0;
      while k < rounds
        invariant k <= rounds
        invariant ws.sent == old(ws.sent) + Repeat(KeepAliveFrame, k) && ws.closed == old(ws.closed)
        invariant sleeps == Repeat(30, k)
      {
        ws.Send(KeepAliveFrame);
        sleeps := sleeps + [30];
        k := k + 1;
      }
    }
  }
}
