/** The test console of src/App.tsx: its form fields, the handlers behind
    its buttons (each checks the form, then hands one request to the
    connection through `sendMessage`), the message list, the default request
    texts, and the fallback chains that read a login response and the claims
    of a token. */
module TestConsole {
  import opened Wrappers
  import opened JsValue
  import opened JsText
  import opened Messages
  import opened Inbound
  import opened WebSocketHook

  // ---------------------------------------------------------------------------
  // Fallback chains

  /** The places a login response may carry the access token, in the order
      they are tried. */
  function TokenCandidates(body: Value): (r: seq<Value>)
    ensures |r| == 5
    ensures body.Obj? && "access_token" in body.fields ==> r[0] == body.fields["access_token"]
    ensures IsNullish(Prop(body, "data")) ==> r[3] == Undefined && r[4] == Undefined
  {
    [ Prop(body, "access_token"), Prop(body, "accessToken"), Prop(body, "token"),
      OptProp(Prop(body, "data"), "access_token"), OptProp(Prop(body, "data"), "token") ]
  }

  /** The access token read from a login response body; `None` when the body
      is null, where reading a field throws and the next endpoint is tried. */
  function ExtractToken(body: Value): Option<Value> {
    if IsNullish(body) then None else Some(FirstTruthy(TokenCandidates(body)))
  }

  /** The first place that holds a truthy value wins, and a token is found
      exactly when one of the places holds one. */
  lemma ExtractTokenOrder(body: Value, i: nat)
    requires !IsNullish(body) && i < 5 && Truthy(TokenCandidates(body)[i])
    requires forall j | 0 <= j < i :: !Truthy(TokenCandidates(body)[j])
    ensures ExtractToken(body) == Some(TokenCandidates(body)[i])
  {
    FirstTruthyPicksFirst(TokenCandidates(body), i);
  }

  lemma ExtractTokenFound(body: Value)
    requires !IsNullish(body)
    ensures Truthy(ExtractToken(body).value) <==> exists j | 0 <= j < 5 :: Truthy(TokenCandidates(body)[j])
  {
    FirstTruthyTruthy(TokenCandidates(body));
  }

  /** What the console shows of a token's claims. */
  datatype UserInfo = UserInfo(userId: Value, username: Value)

  /** `user_id || sub || id || 'N/A'` and `username || name || 'N/A'` on the
      decoded claims; `None` when the claims are null. */
  function Claims(payload: Value): Option<UserInfo> {
    if IsNullish(payload) then None
    else
      Some(UserInfo(
        FirstTruthy([Prop(payload, "user_id"), Prop(payload, "sub"), Prop(payload, "id"), Str("N/A")]),
        FirstTruthy([Prop(payload, "username"), Prop(payload, "name"), Str("N/A")])))
  }

  /** The user id is the first truthy claim among `user_id`, `sub` and `id`,
      and `N/A` when there is none. */
  lemma UserIdFallback(payload: Value)
    requires !IsNullish(payload)
    ensures var id, u, s, i := Claims(payload).value.userId, Prop(payload, "user_id"), Prop(payload, "sub"), Prop(payload, "id");
      && (Truthy(u) ==> id == u)
      && (!Truthy(u) && Truthy(s) ==> id == s)
      && (!Truthy(u) && !Truthy(s) && Truthy(i) ==> id == i)
      && (!Truthy(u) && !Truthy(s) && !Truthy(i) ==> id == Str("N/A"))
  {
    var vs := [Prop(payload, "user_id"), Prop(payload, "sub"), Prop(payload, "id"), Str("N/A")];
    if Truthy(vs[0]) {
      FirstTruthyPicksFirst(vs, 0);
    } else if Truthy(vs[1]) {
      FirstTruthyPicksFirst(vs, 1);
    } else if Truthy(vs[2]) {
      FirstTruthyPicksFirst(vs, 2);
    } else {
      FirstTruthyPicksFirst(vs, 3);
    }
  }

  /** The user name is `username`, else `name`, else `N/A`. */
  lemma UsernameFallback(payload: Value)
    requires !IsNullish(payload)
    ensures var name, u, n := Claims(payload).value.username, Prop(payload, "username"), Prop(payload, "name");
      && (Truthy(u) ==> name == u)
      && (!Truthy(u) && Truthy(n) ==> name == n)
      && (!Truthy(u) && !Truthy(n) ==> name == Str("N/A"))
  {
    var vs := [Prop(payload, "username"), Prop(payload, "name"), Str("N/A")];
    if Truthy(vs[0]) {
      FirstTruthyPicksFirst(vs, 0);
    } else if Truthy(vs[1]) {
      FirstTruthyPicksFirst(vs, 1);
    } else {
      FirstTruthyPicksFirst(vs, 2);
    }
  }

  /** Both shown claims are always truthy. */
  lemma ClaimsAreTruthy(payload: Value)
    requires !IsNullish(payload)
    ensures Truthy(Claims(payload).value.userId) && Truthy(Claims(payload).value.username)
  {
    var ids := [Prop(payload, "user_id"), Prop(payload, "sub"), Prop(payload, "id"), Str("N/A")];
    var names := [Prop(payload, "username"), Prop(payload, "name"), Str("N/A")];
    FirstTruthyTruthy(ids);
    FirstTruthyTruthy(names);
    assert Truthy(ids[3]) && Truthy(names[2]);
  }

  // ---------------------------------------------------------------------------
  // Requests

  /** The request object every button sends: `{namespace, event, data}`. */
  function Request(namespace: string, event: string, data: Value): map<string, Value> {
    map["namespace" := Str(namespace), "event" := Str(event), "data" := data]
  }

  /** The password check of `createRoom` and `createPrivateRoom`,
      `!n || n < 1000 || n > 9999` on the result of `parseInt`: NaN and 0 are
      falsy and rejected. */
  predicate CreateGuardRejects(n: Option<int>) {
    match n
    case None => true
    case Some(k) => k == 0 || k < 1000 || k > 9999
  }

  /** The password check of `joinRoom`, `n < 1000 || n > 9999`: both
      comparisons are false for NaN. */
  predicate JoinGuardRejects(n: Option<int>) {
    match n
    case None => false
    case Some(k) => k < 1000 || k > 9999
  }

  /** Creating a room accepts exactly the passwords that read as a number
      from 1000 to 9999. */
  lemma CreateGuardAccepts(password: string)
    ensures !CreateGuardRejects(ParseInt(password))
      <==> ParseInt(password).Some? && 1000 <= ParseInt(password).value <= 9999
  {
  }

  /** Joining accepts the passwords that read as a number from 1000 to 9999,
      and also every password with no leading digits at all. */
  lemma JoinGuardAccepts(password: string)
    ensures !JoinGuardRejects(ParseInt(password))
      <==> ParseInt(password).None? || 1000 <= ParseInt(password).value <= 9999
  {
  }

  /** The join password `pass` is let through and sent as NaN, while creating
      a private room with it is refused. */
  lemma NonNumericJoinPassword()
    ensures ParseInt("pass") == None
    ensures !JoinGuardRejects(ParseInt("pass")) && JoinData(Str("r1"), "pass")["password"] == NaN
    ensures CreateGuardRejects(ParseInt("pass"))
  {
    ParseIntOfLetter("pass");
  }

  /** The `data` of a create request: the room settings, and the password
      when the room is private. */
  function RoomData(maxPlayers: Value, isPublic: bool, betValue: Value, password: Option<int>): (d: map<string, Value>)
    ensures "max_players" in d && d["max_players"] == maxPlayers
    ensures "is_public" in d && d["is_public"] == Bool(isPublic)
    ensures "bet_value" in d && d["bet_value"] == betValue
    ensures "password" in d <==> !isPublic && password.Some?
  {
    var settings := map["max_players" := maxPlayers, "is_public" := Bool(isPublic), "bet_value" := betValue];
    if !isPublic && password.Some? then settings["password" := Num(password.value)] else settings
  }

  /** A public room never carries a password; a private room that passed the
      check carries one from 1000 to 9999. */
  lemma RoomDataPassword(maxPlayers: Value, isPublic: bool, betValue: Value, password: string)
    ensures isPublic ==> "password" !in RoomData(maxPlayers, isPublic, betValue, ParseInt(password))
    ensures !isPublic && !CreateGuardRejects(ParseInt(password)) ==>
      var d := RoomData(maxPlayers, isPublic, betValue, ParseInt(password));
      "password" in d && d["password"].Num? && 1000 <= d["password"].n <= 9999
  {
  }

  /** The `data` of a join request: the room and, when one was typed, the
      password as `parseInt` reads it. */
  function JoinData(roomId: Value, joinPassword: string): (d: map<string, Value>)
    ensures "room_id" in d && d["room_id"] == roomId
    ensures "password" in d <==> joinPassword != ""
    ensures "password" in d ==> (d["password"].Num? <==> ParseInt(joinPassword).Some?)
  {
    if joinPassword == "" then map["room_id" := roomId]
    else map["room_id" := roomId, "password" := ParsedNumber(ParseInt(joinPassword))]
  }

  /** The event a custom message is sent with: the trimmed custom name when
      `custom` is selected, the selected event otherwise. */
  function FinalEvent(event: string, customEvent: string): string {
    if event == "custom" then Trim(customEvent) else event
  }

  /** A custom message has no event exactly when `custom` is selected and
      the custom name is blank, or when no event is selected. */
  lemma FinalEventEmpty(event: string, customEvent: string)
    ensures FinalEvent(event, customEvent) == ""
      <==> (event == "custom" && forall i | 0 <= i < |customEvent| :: IsJsSpace(customEvent[i])) || event == ""
  {
    TrimEmptyIffAllSpace(customEvent);
  }

  /** The text `handleEventChange` puts in the data box, the two-space JSON
      of the request's default data. */
  function DefaultDataText(event: string): string {
    if event == "create_room_request" then "{\n  \"max_players\": 4,\n  \"is_public\": true,\n  \"bet_value\": 1000\n}"
    else if event == "join_room_request" || event == "leave_room_request" then "{\n  \"room_id\": \"\"\n}"
    else "{}"
  }

  /** Why a button sent nothing (the operator sees a toast). */
  datatype Refusal = PasswordOutOfRange | MissingRoomId | MissingEvent | InvalidJson

  /** What pressing a button did. */
  datatype Action = Refused(reason: Refusal) | Dispatched(result: SendResult)

  // ---------------------------------------------------------------------------
  // The console

  class Console {
    /** `maxPlayers` and `betValue` hold what `parseInt` made of the inputs. */
    var maxPlayers: Value
    var betValue: Value
    var isPublic: bool
    var password: string
    /** A typed room id, or the id of the current room snapshot. */
    var roomId: Value
    var joinPassword: string
    var namespace: string
    var event: string
    var customEvent: string
    var data: string
    /** The connection, and the message list it reports to. */
    const session: Session
    const log: MessageLog

    ghost predicate Valid()
      reads this, session
    {
      session.log == log && session.Valid()
    }

    constructor()
      ensures Valid() && fresh(session) && fresh(log)
      ensures log.entries == [] && session.roomInfo == None && session.socket == None && !session.isConnected
      ensures session.status == Status(Disconnected, "Disconnected") && session.wire == [] && session.created == 0
      ensures maxPlayers == Num(4) && betValue == Num(1000) && isPublic && password == ""
      ensures roomId == Str("") && joinPassword == ""
      ensures namespace == "room" && event == "create_room_request" && customEvent == ""
      ensures data == DefaultDataText("create_room_request")
    {
      var messages := new MessageLog();
      var connection := new Session(messages);
      log := messages;
      session := connection;
      maxPlayers := Num(4);
      betValue := Num(1000);
      isPublic := true;
      password := "";
      roomId := Str("");
      joinPassword := "";
      namespace := "room";
      event := "create_room_request";
      customEvent := "";
      data := "{\n  \"max_players\": 4,\n  \"is_public\": true,\n  \"bet_value\": 1000\n}";
    }

    /** `handleEventChange`: selecting `custom` clears the custom name and
        keeps the data; any other event puts its default data in the box. */
    method HandleEventChange(value: string)
      modifies this`event, this`customEvent, this`data
      ensures event == value
      ensures value == "custom" ==> customEvent == "" && data == old(data)
      ensures value != "custom" ==> customEvent == old(customEvent) && data == DefaultDataText(value)
    {
      event := value;
      if value == "custom" {
        customEvent := "";
      } else {
        data := DefaultDataText(value);
      }
    }

    /** `createRoom`: a private room needs a password from 1000 to 9999;
        then the settings are sent (with the password for a private room). */
    method CreateRoom(env: SendEnv) returns (action: Action)
      requires Valid()
      modifies session, log
      ensures Valid()
      ensures !isPublic && CreateGuardRejects(ParseInt(password)) ==>
        action == Refused(PasswordOutOfRange) && unchanged(session, log)
      ensures isPublic || !CreateGuardRejects(ParseInt(password)) ==>
        && action.Dispatched?
        && session.SendEffect(Request("room", "create_room_request",
             Obj(RoomData(maxPlayers, isPublic, betValue, ParseInt(password)))), true, env, action.result)
    {
      var roomData := map["max_players" := maxPlayers, "is_public" := Bool(isPublic), "bet_value" := betValue];
      if !isPublic {
        var passwordNum := ParseInt(password);
        if CreateGuardRejects(passwordNum) {
          return Refused(PasswordOutOfRange);
        }
        roomData := roomData["password" := Num(passwordNum.value)];
      }
      var result := session.SendMessage(Request("room", "create_room_request", Obj(roomData)), true, env);
      action := Dispatched(result);
    }

    /** `createPrivateRoom`: the same check, then always a private room with
        the password. */
    method CreatePrivateRoom(env: SendEnv) returns (action: Action)
      requires Valid()
      modifies session, log
      ensures Valid()
      ensures CreateGuardRejects(ParseInt(password)) ==>
        action == Refused(PasswordOutOfRange) && unchanged(session, log)
      ensures !CreateGuardRejects(ParseInt(password)) ==>
        && action.Dispatched?
        && session.SendEffect(Request("room", "create_room_request", Obj(map[
             "max_players" := maxPlayers, "is_public" := Bool(false),
             "password" := Num(ParseInt(password).value), "bet_value" := betValue])), true, env, action.result)
    {
      var passwordNum := ParseInt(password);
      if CreateGuardRejects(passwordNum) {
        return Refused(PasswordOutOfRange);
      }
      var roomData := map[
        "max_players" := maxPlayers, "is_public" := Bool(false),
        "password" := Num(passwordNum.value), "bet_value" := betValue];
      var result := session.SendMessage(Request("room", "create_room_request", Obj(roomData)), true, env);
      action := Dispatched(result);
    }

    /** `joinRoom`: needs a room id; a typed password is checked (a
        non-numeric one passes as NaN) and attached. */
    method JoinRoom(env: SendEnv) returns (action: Action)
      requires Valid()
      modifies session, log
      ensures Valid()
      ensures !Truthy(roomId) ==> action == Refused(MissingRoomId) && unchanged(session, log)
      ensures Truthy(roomId) && joinPassword != "" && JoinGuardRejects(ParseInt(joinPassword)) ==>
        action == Refused(PasswordOutOfRange) && unchanged(session, log)
      ensures Truthy(roomId) && (joinPassword == "" || !JoinGuardRejects(ParseInt(joinPassword))) ==>
        && action.Dispatched?
        && session.SendEffect(Request("room", "join_room_request", Obj(JoinData(roomId, joinPassword))), true, env, action.result)
    {
      if !Truthy(roomId) {
        return Refused(MissingRoomId);
      }
      var joinData := map["room_id" := roomId];
      if joinPassword != "" {
        var passwordNum := ParseInt(joinPassword);
        if JoinGuardRejects(passwordNum) {
          return Refused(PasswordOutOfRange);
        }
        joinData := joinData["password" := ParsedNumber(passwordNum)];
      }
      var result := session.SendMessage(Request("room", "join_room_request", Obj(joinData)), true, env);
      action := Dispatched(result);
    }

    /** `leaveRoom`: needs a room id, then sends it. */
    method LeaveRoom(env: SendEnv) returns (action: Action)
      requires Valid()
      modifies session, log
      ensures Valid()
      ensures !Truthy(roomId) ==> action == Refused(MissingRoomId) && unchanged(session, log)
      ensures Truthy(roomId) ==>
        && action.Dispatched?
        && session.SendEffect(Request("room", "leave_room_request", Obj(map["room_id" := roomId])), true, env, action.result)
    {
      if !Truthy(roomId) {
        return Refused(MissingRoomId);
      }
      var result := session.SendMessage(Request("room", "leave_room_request", Obj(map["room_id" := roomId])), true, env);
      action := Dispatched(result);
    }

    /** `getRoomList`: always sends the request with empty data. */
    method GetRoomList(env: SendEnv) returns (result: SendResult)
      requires Valid()
      modifies session, log
      ensures Valid()
      ensures session.SendEffect(Request("room", "get_room_list_request", Obj(map[])), true, env, result)
    {
      result := session.SendMessage(Request("room", "get_room_list_request", Obj(map[])), true, env);
    }

    /** `sendCustomMessage`: needs an event name, then data that parses as
        JSON (`parsed` is what `JSON.parse` made of the data box, `None` when
        it threw); the message is sent in the chosen namespace with a key. */
    method SendCustomMessage(parsed: Option<Value>, env: SendEnv) returns (action: Action)
      requires Valid()
      modifies session, log
      ensures Valid()
      ensures FinalEvent(event, customEvent) == "" ==> action == Refused(MissingEvent) && unchanged(session, log)
      ensures FinalEvent(event, customEvent) != "" && parsed.None? ==>
        action == Refused(InvalidJson) && unchanged(session, log)
      ensures FinalEvent(event, customEvent) != "" && parsed.Some? ==>
        && action.Dispatched?
        && session.SendEffect(Request(namespace, FinalEvent(event, customEvent), parsed.value), true, env, action.result)
    {
      var finalEvent := if event == "custom" then Trim(customEvent) else event;
      if finalEvent == "" {
        return Refused(MissingEvent);
      }
      if parsed.None? {
        return Refused(InvalidJson);
      }
      var result := session.SendMessage(Request(namespace, finalEvent, parsed.value), true, env);
      action := Dispatched(result);
    }

    /** `testInvalidNamespace`: a request to an unknown namespace, sent
        without a generated key. */
    method TestInvalidNamespace(env: SendEnv) returns (result: SendResult)
      requires Valid()
      modifies session, log
      ensures Valid()
      ensures session.SendEffect(Request("invalid", "test", Obj(map[])), false, env, result)
    {
      result := session.SendMessage(Request("invalid", "test", Obj(map[])), false, env);
    }

    /** `clearMessages`. */
    method ClearMessages()
      modifies log
      ensures log.entries == []
    {
      log.Clear();
    }

    /** The effect that runs after the room snapshot is stored: a truthy
        `id` of the snapshot becomes the room id of the form. */
    method SyncRoomId()
      modifies this`roomId
      ensures var id := if session.roomInfo.Some? then OptProp(session.roomInfo.value, "id") else Undefined;
        roomId == (if Truthy(id) then id else old(roomId))
    {
      if session.roomInfo.Some? && Truthy(OptProp(session.roomInfo.value, "id")) {
        roomId := OptProp(session.roomInfo.value, "id");
      }
    }

    /** An inbound frame: it is classified and logged, and the effect runs
        only when the handler stored a snapshot, so a frame that stores none
        leaves a typed room id alone. */
    method Deliver(frame: Frame, timestamp: string)
      requires Valid()
      modifies session, log, this`roomId
      ensures Valid()
      ensures session.isConnected == old(session.isConnected) && session.status == old(session.status)
      ensures session.socket == old(session.socket) && session.wire == old(session.wire) && session.created == old(session.created)
      ensures var out := Classify(frame, old(session.roomInfo));
        && session.roomInfo == out.room
        && log.entries == old(log.entries) + Stamped(out.notes, timestamp)
        && (!out.stored ==> roomId == old(roomId))
        && (out.stored ==>
              var id := if out.room.Some? then OptProp(out.room.value, "id") else Undefined;
              roomId == (if Truthy(id) then id else old(roomId)))
    {
      var stored := Classify(frame, session.roomInfo).stored;
      session.OnMessage(frame, timestamp);
      if stored {
        SyncRoomId();
      }
    }
  }

  // ---------------------------------------------------------------------------
  // Properties across handlers

  /** Both create handlers send the same data for a private room. */
  lemma PrivateRoomPayloadsAgree(maxPlayers: Value, betValue: Value, password: string)
    requires !CreateGuardRejects(ParseInt(password))
    ensures RoomData(maxPlayers, false, betValue, ParseInt(password)) == map[
      "max_players" := maxPlayers, "is_public" := Bool(false),
      "password" := Num(ParseInt(password).value), "bet_value" := betValue]
  {
  }

  /** The request of `testInvalidNamespace` goes out exactly as built: it is
      never given a key. */
  lemma InvalidNamespaceUntagged(key: string)
    ensures Tagged(Request("invalid", "test", Obj(map[])), false, key) == Request("invalid", "test", Obj(map[]))
    ensures "identity_key" !in Tagged(Request("invalid", "test", Obj(map[])), false, key)
  {
  }

  /** A button request always goes out with a key: the requests the buttons
      build have no `identity_key` of their own, so the generated one is added. */
  lemma ButtonRequestsTagged(namespace: string, event: string, data: Value, now: nat, suffix: string)
    ensures var tagged := Tagged(Request(namespace, event, data), true, RequestKey(now, suffix));
      "identity_key" in tagged && tagged["identity_key"] == Str(RequestKey(now, suffix))
  {
  }
}
