/** The `useWebSocket` hook of src/hooks/useWebSocket.ts: the connection
    state of the console (whether it is connected, the status line, the
    handle of the current socket and the snapshot of the room the operator is
    in), the operations the console calls on it, and the four events the
    socket raises. The socket itself is not modelled: what the client asks of
    it is recorded, in order, on `wire`, and its events are method calls. */
module WebSocketHook {
  import opened Wrappers
  import opened JsValue
  import opened JsText
  import opened Messages
  import opened Inbound
  import UriComponent
  import CloseReport

  /** The `type` of the status line. */
  datatype Phase = Connecting | Connected | Disconnected

  /** The status line: its type and its text. */
  datatype Status = Status(phase: Phase, text: string)

  /** A socket the client created: the n-th one, created on the given URL. */
  datatype Socket = Socket(serial: nat, url: string)

  /** What the client asks of the transport. */
  datatype WireOp =
    | Open(socket: Socket)
    | Transmit(socket: Socket, payload: Value)
    | Close(socket: Socket)

  /** The outcome of the checks `connect` makes before it opens a socket. */
  datatype ConnectCheck = MissingToken | BadScheme | Attempt(url: string)

  /** What one call of `sendMessage` gets from outside the client: the clock
      reading and the random digits of a generated key, the exception that
      serialising or sending throws (if any), and the display time. */
  datatype SendEnv = SendEnv(now: nat, suffix: string, failure: Option<string>, timestamp: string)

  /** The outcome of `sendMessage`. */
  datatype SendResult = NotConnected | Transmitted(payload: Value) | SendFailed(reason: string)

  /** The URL the socket is created on: the token as a query parameter,
      percent-encoded, joined with `&` when the URL already has a query. */
  function TokenUrl(serverUrl: string, token: string): string {
    serverUrl + Separator(serverUrl) + "token=" + UriComponent.EncodeURIComponent(token)
  }

  /** The checks of `connect`, in their order: a token first, then a
      `ws://` or `wss://` URL. */
  function CheckConnect(serverUrl: string, token: string): ConnectCheck {
    if token == "" then MissingToken
    else if !StartsWith(serverUrl, "ws://") && !StartsWith(serverUrl, "wss://") then BadScheme
    else Attempt(TokenUrl(serverUrl, token))
  }

  /** The generated request key `req-<time>-<random>`; the clock reading and
      the random base-36 digits are supplied by the caller. */
  function RequestKey(now: nat, suffix: string): string {
    "req-" + NatToString(now) + "-" + suffix
  }

  /** The message as it is sent: tagged with the key when the caller asks
      for a key and the message has no truthy `identity_key` of its own. */
  function Tagged(message: map<string, Value>, includeIdentityKey: bool, key: string): map<string, Value> {
    if includeIdentityKey && !Truthy(Prop(Obj(message), "identity_key")) then message["identity_key" := Str(key)]
    else message
  }

  /** The content of the notice logged when the socket closes. */
  function CloseNotice(code: nat, reason: string): (r: Value)
    ensures Prop(r, "type") == Str("system") && Prop(r, "code") == Num(code)
    ensures Prop(r, "message") == Str(CloseReport.CloseText(code, reason))
  {
    Obj(map["type" := Str("system"), "message" := Str(CloseReport.CloseText(code, reason)), "code" := Num(code)])
  }

  /** The content of the notice logged when the socket reports an error. */
  const SocketErrorNotice := Obj(map[
    "type" := Str("error"),
    "message" := Str("WebSocket error occurred"),
    "details" := Str("Check browser console (F12) for details. Make sure server is running and token is valid.")])

  // ---------------------------------------------------------------------------
  // Properties of the pure parts

  /** The token check comes first: without a token nothing else is looked at.
      An attempt is made exactly when there is a token and a WebSocket URL. */
  lemma ConnectCheckOrder(serverUrl: string, token: string)
    ensures token == "" ==> CheckConnect(serverUrl, token) == MissingToken
    ensures CheckConnect(serverUrl, token).Attempt?
      <==> token != "" && (StartsWith(serverUrl, "ws://") || StartsWith(serverUrl, "wss://"))
  {
  }

  /** The separator `connect` puts between the server URL and the token. */
  function Separator(serverUrl: string): string {
    if '?' in serverUrl then "&" else "?"
  }

  /** The connection URL cut at its three seams. */
  lemma TokenUrlSeams(serverUrl: string, token: string)
    ensures var u, n, enc := TokenUrl(serverUrl, token), |serverUrl|, UriComponent.EncodeURIComponent(token);
      && |u| == n + 7 + |enc|
      && u[..n] == serverUrl && u[n] == Separator(serverUrl)[0] && u[n + 1..n + 7] == "token=" && u[n + 7..] == enc
  {
    var sep, enc := Separator(serverUrl), UriComponent.EncodeURIComponent(token);
    var head := serverUrl + sep + "token=";
    ConcatSlices(head, enc);
    ConcatSlices(serverUrl + sep, "token=");
    ConcatSlices(serverUrl, sep);
  }

  /** The connection URL is the server URL, one separator (`&` when the URL
      already has a query, `?` otherwise), `token=` and the encoded token,
      which decodes back to the token and holds no `&` or `#` that could end
      the parameter early. */
  lemma TokenUrlShape(serverUrl: string, token: string)
    ensures var u, n := TokenUrl(serverUrl, token), |serverUrl|;
      && |u| >= n + 7
      && StartsWith(u, serverUrl)
      && u[n] == (if '?' in serverUrl then '&' else '?')
      && u[n + 1..n + 7] == "token="
      && UriComponent.DecodeURIComponent(u[n + 7..]) == Some(token)
      && '&' !in u[n + 7..] && '#' !in u[n + 7..]
  {
    TokenUrlSeams(serverUrl, token);
    UriComponent.UriComponentRoundTrip(token);
    UriComponent.NoDelimiters(UriComponent.EncodeURIComponent(token));
  }

  /** Two request keys are equal only when they were made from the same
      clock reading and the same random digits. */
  lemma RequestKeyDeterminesParts(now1: nat, suffix1: string, now2: nat, suffix2: string)
    requires RequestKey(now1, suffix1) == RequestKey(now2, suffix2)
    ensures now1 == now2 && suffix1 == suffix2
  {
    var d1, d2 := NatToString(now1), NatToString(now2);
    assert RequestKey(now1, suffix1) == "req-" + (d1 + ("-" + suffix1));
    assert RequestKey(now2, suffix2) == "req-" + (d2 + ("-" + suffix2));
    CancelPrefix("req-", d1 + ("-" + suffix1), d2 + ("-" + suffix2));
    DigitRunsDelimited(d1, "-" + suffix1, d2, "-" + suffix2);
    NatToStringInjective(now1, now2);
    CancelPrefix("-", suffix1, suffix2);
  }

  /** Tagging never overwrites a key the caller set, adds the key when one is
      asked for and missing, changes no other field, and is idempotent. */
  lemma TaggingRules(message: map<string, Value>, withKey: bool, key: string, otherKey: string)
    requires key != ""
    ensures var existing, tagged := Prop(Obj(message), "identity_key"), Tagged(message, withKey, key);
      && (Truthy(existing) || !withKey ==> tagged == message)
      && (withKey && !Truthy(existing) ==> tagged == message["identity_key" := Str(key)])
      && (forall k | k in message && k != "identity_key" :: k in tagged && tagged[k] == message[k])
      && (Truthy(Prop(Obj(tagged), "identity_key")) <==> withKey || Truthy(existing))
      && Tagged(tagged, withKey, otherKey) == tagged
  {
  }

  /** A generated key is never empty, so a tagged message always has a truthy key. */
  lemma RequestKeyIsTruthy(now: nat, suffix: string)
    ensures StartsWith(RequestKey(now, suffix), "req-") && Truthy(Str(RequestKey(now, suffix)))
  {
    var d := NatToString(now);
    assert RequestKey(now, suffix) == "req-" + (d + "-" + suffix);
    PrefixOfConcat("req-", d + "-" + suffix);
  }

  // ---------------------------------------------------------------------------
  // The hook's state

  class Session {
    var isConnected: bool
    var status: Status
    /** `wsRef.current`. */
    var socket: Option<Socket>
    /** The `roomInfo` snapshot. */
    var roomInfo: Option<Value>
    /** Everything asked of the transport so far, oldest first. */
    var wire: seq<WireOp>
    /** How many sockets have been created. */
    var created: nat
    /** The `onMessage` callback's target: the console's message list. */
    const log: MessageLog

    /** The snapshot is absent or truthy, a `connected` status line implies
        the connection flag, and the handle is one of the created sockets. */
    ghost predicate Valid()
      reads this
    {
      && SnapshotWellFormed(roomInfo)
      && (status.phase == Connected ==> isConnected)
      && (socket.Some? ==> socket.value.serial < created)
    }

    constructor(log: MessageLog)
      ensures Valid() && this.log == log
      ensures !isConnected && status == Status(Disconnected, "Disconnected")
      ensures socket == None && roomInfo == None && wire == [] && created == 0
    {
      isConnected := false;
      status := Status(Disconnected, "Disconnected");
      socket := None;
      roomInfo := None;
      wire := [];
      created := 0;
      this.log := log;
    }

    /** `addMessage` of the hook: stamps a note and hands it to the log. */
    method Emit(kind: Kind, content: Value, timestamp: string)
      modifies log
      ensures log.entries == old(log.entries) + [Message(kind, content, timestamp)]
    {
      log.Add(Message(kind, content, timestamp));
    }

    /** `connect`. Without a token or with a URL that is not a WebSocket URL
        nothing happens (the operator sees a toast). Otherwise the status
        turns to connecting, one system notice is logged and a socket is
        created on `TokenUrl`; when creating it throws, the status reads
        failed and the exception is logged. An older socket is neither
        closed nor forgotten by the state: the handle is simply replaced. */
    method Connect(serverUrl: string, token: string, timestamp: string, failure: Option<string>)
      returns (check: ConnectCheck)
      requires Valid()
      modifies this, log
      ensures Valid()
      ensures check == CheckConnect(serverUrl, token)
      ensures !check.Attempt? ==> unchanged(this) && log.entries == old(log.entries)
      ensures check.Attempt? ==>
        var attempt := Message(Received, SystemNotice("Attempting to connect to " + serverUrl), timestamp);
        && isConnected == old(isConnected) && roomInfo == old(roomInfo)
        && (failure.Some? ==>
              && status == Status(Disconnected, "❌ Connection Failed")
              && socket == old(socket) && wire == old(wire) && created == old(created)
              && log.entries == old(log.entries) + [attempt, Message(Error, ErrorNotice(failure.value), timestamp)])
        && (failure.None? ==>
              && status == Status(Connecting, "Connecting...")
              && socket == Some(Socket(old(created), check.url)) && created == old(created) + 1
              && wire == old(wire) + [Open(Socket(old(created), check.url))]
              && log.entries == old(log.entries) + [attempt])
    {
      check := CheckConnect(serverUrl, token);
      if !check.Attempt? {
        return;
      }
      status := Status(Connecting, "Connecting...");
      Emit(Received, SystemNotice("Attempting to connect to " + serverUrl), timestamp);
      var url := TokenUrl(serverUrl, token);
      if failure.Some? {
        status := Status(Disconnected, "❌ Connection Failed");
        Emit(Error, ErrorNotice(failure.value), timestamp);
      } else {
        var ws := Socket(created, url);
        created := created + 1;
        wire := wire + [Open(ws)];
        socket := Some(ws);
      }
    }

    /** The `open` event: connected, and a system notice says so. */
    method OnOpen(timestamp: string)
      requires Valid()
      modifies this, log
      ensures Valid()
      ensures isConnected && status == Status(Connected, "✅ Connected")
      ensures socket == old(socket) && roomInfo == old(roomInfo) && wire == old(wire) && created == old(created)
      ensures log.entries == old(log.entries)
        + [Message(Received, SystemNotice("✅ Successfully connected to WebSocket server"), timestamp)]
    {
      isConnected := true;
      status := Status(Connected, "✅ Connected");
      Emit(Received, SystemNotice("✅ Successfully connected to WebSocket server"), timestamp);
    }

    /** The `message` event: the notes `Classify` gives are logged in order
        and the snapshot becomes the one it gives. */
    method OnMessage(frame: Frame, timestamp: string)
      requires Valid()
      modifies this, log
      ensures Valid()
      ensures var out := Classify(frame, old(roomInfo));
        && roomInfo == out.room
        && log.entries == old(log.entries) + Stamped(out.notes, timestamp)
      ensures isConnected == old(isConnected) && status == old(status)
      ensures socket == old(socket) && wire == old(wire) && created == old(created)
    {
      var out := Classify(frame, roomInfo);
      SnapshotStaysWellFormed(frame, roomInfo);
      Emit(out.notes[0].kind, out.notes[0].content, timestamp);
      if |out.notes| == 2 {
        Emit(out.notes[1].kind, out.notes[1].content, timestamp);
      }
      roomInfo := out.room;
    }

    /** The `error` event: the status line reads as an error and an error
        notice is logged, but the connection flag is left as it was. */
    method OnError(timestamp: string)
      requires Valid()
      modifies this, log
      ensures Valid()
      ensures status == Status(Disconnected, "❌ Connection Error") && isConnected == old(isConnected)
      ensures socket == old(socket) && roomInfo == old(roomInfo) && wire == old(wire) && created == old(created)
      ensures log.entries == old(log.entries) + [Message(Error, SocketErrorNotice, timestamp)]
    {
      status := Status(Disconnected, "❌ Connection Error");
      Emit(Error, SocketErrorNotice, timestamp);
    }

    /** The `close` event: disconnected, and the close report is logged with
        the code. The handle and the room snapshot are kept. */
    method OnClose(code: nat, reason: string, timestamp: string)
      requires Valid()
      modifies this, log
      ensures Valid()
      ensures !isConnected && status == Status(Disconnected, "❌ Disconnected")
      ensures socket == old(socket) && roomInfo == old(roomInfo) && wire == old(wire) && created == old(created)
      ensures log.entries == old(log.entries) + [Message(Received, CloseNotice(code, reason), timestamp)]
    {
      isConnected := false;
      status := Status(Disconnected, "❌ Disconnected");
      var closeMessage := CloseReport.BuildCloseMessage(code, reason);
      Emit(Received, Obj(map["type" := Str("system"), "message" := Str(closeMessage), "code" := Num(code)]), timestamp);
    }

    /** `disconnect`: closes and drops the handle when there is one, and does
        nothing otherwise, so a second call in a row changes nothing. */
    method Disconnect()
      requires Valid()
      modifies this
      ensures Valid()
      ensures socket == None
      ensures old(socket).Some? ==> wire == old(wire) + [Close(old(socket).value)]
      ensures old(socket).None? ==> wire == old(wire)
      ensures isConnected == old(isConnected) && status == old(status)
      ensures roomInfo == old(roomInfo) && created == old(created)
    {
      if socket.Some? {
        wire := wire + [Close(socket.value)];
        socket := None;
      }
    }

    /** The effect of one `sendMessage` call. Without a handle or a
        connection nothing is sent or logged. Otherwise the message is tagged,
        then either transmitted on the current socket and logged as `sent`
        (the very object that was transmitted), or, when serialising or
        sending throws, the exception is logged as an error and nothing is
        transmitted. No other part of the state changes. */
    twostate predicate SendEffect(message: map<string, Value>, includeIdentityKey: bool, env: SendEnv, result: SendResult)
      reads this, log
    {
      && isConnected == old(isConnected) && status == old(status)
      && socket == old(socket) && roomInfo == old(roomInfo) && created == old(created)
      && (old(socket).None? || !old(isConnected) ==>
            result == NotConnected && wire == old(wire) && log.entries == old(log.entries))
      && (old(socket).Some? && old(isConnected) ==>
            var sent := Obj(Tagged(message, includeIdentityKey, RequestKey(env.now, env.suffix)));
            && (env.failure.None? ==>
                  && result == Transmitted(sent)
                  && wire == old(wire) + [Transmit(old(socket).value, sent)]
                  && log.entries == old(log.entries) + [Message(Sent, sent, env.timestamp)])
            && (env.failure.Some? ==>
                  && result == SendFailed(env.failure.value)
                  && wire == old(wire)
                  && log.entries == old(log.entries) + [Message(Error, ErrorNotice(env.failure.value), env.timestamp)]))
    }

    /** `sendMessage`. */
    method SendMessage(message: map<string, Value>, includeIdentityKey: bool, env: SendEnv)
      returns (result: SendResult)
      requires Valid()
      modifies this, log
      ensures Valid()
      ensures SendEffect(message, includeIdentityKey, env, result)
      ensures old(status.phase) == Connected && old(socket).Some? ==> result != NotConnected
    {
      if socket.None? || !isConnected {
        return NotConnected;
      }
      var sent := message;
      if includeIdentityKey && !Truthy(Prop(Obj(sent), "identity_key")) {
        sent := sent["identity_key" := Str(RequestKey(env.now, env.suffix))];
      }
      if env.failure.Some? {
        Emit(Error, ErrorNotice(env.failure.value), env.timestamp);
        return SendFailed(env.failure.value);
      }
      wire := wire + [Transmit(socket.value, Obj(sent))];
      Emit(Sent, Obj(sent), env.timestamp);
      result := Transmitted(Obj(sent));
    }
  }
}
