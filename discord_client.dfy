/**
 * The Discord side of the relay.
 *
 * A client watches one channel.  A message posted there by anyone but the
 * bot is emitted as a `chat` event with source `discord`; a `chat` event
 * from any other source is posted to the watched channel as
 * `[source] <sender> message`.  So a message never comes back to the
 * platform it came from.
 *
 * The Discord connection is left out: a posted message is a value, the
 * watched channel is the list of texts sent to it, and the bot's own user is
 * `None` until it has logged in.
 */
module Discord {
  import opened Wrappers
  import opened Events

  /** A Discord user, compared by id as the library compares users. */
  datatype User = User(id: int, name: string)

  /** A message posted in some channel. */
  datatype Posted = Posted(channelId: int, author: User, content: string)

  /** The payload of a `chat` event: `{'message': ..., 'sender': ..., 'source': ...}`. */
  datatype ChatData = ChatData(message: string, sender: string, source: string)

  const DiscordSource: string := "discord"

  /** The `chat` event a posted message gives, if any. */
  function Forwarded(watchChannelId: int, self: Option<User>, m: Posted): (r: Option<ChatData>)
    ensures r.Some? <==> m.channelId == watchChannelId && !(self.Some? && m.author.id == self.value.id)
    ensures r.Some? ==> r.value == ChatData(m.content, m.author.name, DiscordSource)
  {
    if m.channelId != watchChannelId then None
    else if self.Some? && m.author.id == self.value.id then None
    else Some(ChatData(m.content, m.author.name, DiscordSource))
  }

  /** `[source] <sender> message` */
  function ChatLine(d: ChatData): string {
    "[" + d.source + "] <" + d.sender + "> " + d.message
  }

  /** What the watched channel is sent for a `chat` event: nothing for one that came from Discord. */
  function Relayed(d: ChatData): (r: seq<string>)
    ensures |r| <= 1
    ensures r == [] <==> d.source == DiscordSource
  {
    if d.source != DiscordSource then [ChatLine(d)] else []
  }

  /** A message from the watched channel is never posted back to it by any client. */
  lemma NoEcho(watchChannelId: int, self: Option<User>, m: Posted)
    requires Forwarded(watchChannelId, self, m).Some?
    ensures Relayed(Forwarded(watchChannelId, self, m).value) == []
  {
  }

  /** Every listener called by the emit of a forwarded message gets a payload it does not relay. */
  lemma NoEchoThroughEmitter<L>(ls: seq<L>, watchChannelId: int, self: Option<User>, m: Posted)
    requires Forwarded(watchChannelId, self, m).Some?
    ensures var calls := Calls(ls, Forwarded(watchChannelId, self, m).value);
      forall i :: 0 <= i < |calls| ==> Relayed(calls[i].args) == []
  {
  }

  // ---------------------------------------------------- reading lines back

  /** The position of the first `c` in `s`, if any. */
  function IndexOf(s: string, c: char): (r: Option<nat>)
    ensures r.Some? ==> r.value < |s| && s[r.value] == c && c !in s[..r.value]
    ensures r.None? ==> c !in s
  {
    if s == [] then None
    else if s[0] == c then Some(0)
    else
      var i :- IndexOf(s[1..], c);
      assert s[..i + 1] == [s[0]] + s[1..][..i];
      Some(i + 1)
  }

  lemma {:induction false} IndexOfAfter(a: string, c: char, b: string)
    requires c !in a
    ensures IndexOf(a + [c] + b, c) == Some(|a|)
  {
    if a != [] {
      assert a[0] in a;
      assert (a + [c] + b)[1..] == a[1..] + [c] + b;
      assert c !in a[1..] by {
        forall i | 0 <= i < |a[1..]|
          ensures a[1..][i] != c
        {
          assert a[1..][i] == a[i + 1];
        }
      }
      IndexOfAfter(a[1..], c, b);
    }
  }

  /** Reads a channel text back as the `chat` payload it was made from. */
  function ReadChatLine(text: string): Option<ChatData> {
    if text == [] || text[0] != '[' then None
    else
      var body := text[1..];
      var i :- IndexOf(body, ']');
      var after := body[i + 1..];
      if !(" <" <= after) then None else ReadSender(body[..i], after[2..])
  }

  /** Reads `sender> message` after the source has been read. */
  function ReadSender(source: string, rest: string): Option<ChatData> {
    var j :- IndexOf(rest, '>');
    var tail := rest[j + 1..];
    if tail == [] || tail[0] != ' ' then None else Some(ChatData(tail[1..], rest[..j], source))
  }

  lemma SourceRead(source: string, rest: string)
    requires ']' !in source
    ensures ReadChatLine("[" + source + "] <" + rest) == ReadSender(source, rest)
  {
    var body := ("[" + source + "] <" + rest)[1..];
    assert body == source + [']'] + (" <" + rest);
    IndexOfAfter(source, ']', " <" + rest);
    assert body[..|source|] == source;
    assert body[|source| + 1..] == " <" + rest;
    assert (" <" + rest)[2..] == rest;
  }

  lemma SenderRead(d: ChatData)
    requires '>' !in d.sender
    ensures ReadSender(d.source, d.sender + "> " + d.message) == Some(d)
  {
    var rest := d.sender + "> " + d.message;
    assert rest == d.sender + ['>'] + (" " + d.message);
    IndexOfAfter(d.sender, '>', " " + d.message);
    assert rest[..|d.sender|] == d.sender;
    assert rest[|d.sender| + 1..] == " " + d.message;
  }

  /**
   * A relayed line names its source and sender unambiguously when the source
   * holds no `]` and the sender no `>`: the line reads back as the payload.
   */
  lemma ChatLineRoundTrip(d: ChatData)
    requires ']' !in d.source && '>' !in d.sender
    ensures ReadChatLine(ChatLine(d)) == Some(d)
  {
    assert ChatLine(d) == "[" + d.source + "] <" + (d.sender + "> " + d.message);
    SourceRead(d.source, d.sender + "> " + d.message);
    SenderRead(d);
  }

  // ------------------------------------------------------------ the client

  class DiscordClient {
    var watchChannelId: int
    var emitter: EventEmitter<DiscordClient>
    var user: Option<User>
    /** The texts sent to the watched channel. */
    var watchChannel: seq<string>

    /** `__init__`: remembers the channel and registers this client's chat handler under `chat`. */
    constructor(eventEmitter: EventEmitter<DiscordClient>, channelId: int)
      modifies eventEmitter
      ensures watchChannelId == channelId && emitter == eventEmitter && user == None && watchChannel == []
      ensures eventEmitter.events == Registered(old(eventEmitter.events), "chat", this)
    {
      watchChannelId := channelId;
      emitter := eventEmitter;
      user := None;
      watchChannel := [];
      new;
      eventEmitter.On("chat", this);
    }

    /**
     * `on_message`: a message from the watched channel that the bot did not
     * write is emitted as a `chat` event; every `chat` listener is called
     * with its payload, in order.  (Calling an async handler only creates
     * its coroutine, so no listener raises.)
     */
    method OnMessage(m: Posted) returns (calls: seq<Call<DiscordClient, ChatData>>)
      ensures var d := Forwarded(watchChannelId, user, m);
        calls == if d.Some? then Calls(Listeners(emitter.events, "chat"), d.value) else []
    {
      if m.channelId != watchChannelId {
        return [];
      }
      if user.Some? && m.author.id == user.value.id {
        return [];
      }
      var data := ChatData(m.content, m.author.name, DiscordSource);
      var raised;
      calls, raised := emitter.Emit("chat", data, (l: DiscordClient) => false);
      EmitCallsAll(Listeners(emitter.events, "chat"), data, (l: DiscordClient) => false);
    }

    /** `on_chat_message`, run to completion: posts the event to the watched channel unless it came from Discord. */
    method OnChatMessage(d: ChatData)
      modifies this`watchChannel
      ensures watchChannel == old(watchChannel) + Relayed(d)
    {
      if d.source != DiscordSource {
        watchChannel := watchChannel + [ChatLine(d)];
      }
    }
  }
}
