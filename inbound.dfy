/** The `onmessage` handler of src/hooks/useWebSocket.ts as a pure function:
    one inbound frame and the current room snapshot in, the notes handed to
    the display log and the next room snapshot out. */
module Inbound {
  import opened Wrappers
  import opened JsValue
  import opened Messages
  import JsText

  /** An inbound text frame with the result of `JSON.parse` on it, or with the
      knowledge that `JSON.parse` threw. */
  datatype Frame = Decoded(text: string, value: Value) | Undecodable(text: string)

  /** What handling one frame produces: the notes, the next snapshot, and
      whether the handler stored a snapshot (called `setRoomInfo`), which is
      what the console's room-id effect reacts to. */
  datatype Outcome = Outcome(notes: seq<Note>, room: Option<Value>, stored: bool)

  /** The fallback for a frame the handler could not process: `{raw: text}`. */
  function RawNote(text: string): Note {
    Note(Received, Obj(map["raw" := Str(text)]))
  }

  predicate IsMembershipEvent(event: Value) {
    event == Str("user_joined") || event == Str("user_left")
  }

  /** `event.includes('broadcast')`: a substring test on a string, an element
      test on an array, and `None` for any other value, which has no callable
      `includes` (a TypeError). */
  function IncludesBroadcast(event: Value): (r: Option<bool>)
    ensures r.Some? <==> event.Str? || event.Arr?
    ensures event == Str("broadcast") || event == Arr([Str("broadcast")]) ==> r == Some(true)
  {
    match event
    case Str(s) => Some(JsText.Includes(s, "broadcast"))
    case Arr(items) => Some(Str("broadcast") in items)
    case _ => None
  }

  /** `updateRoomInfoFromBroadcast`: without a snapshot, a minimal active one
      for the broadcast's room; with one, the same fields with the two player
      counts taken from the broadcast. */
  function MergeBroadcast(prev: Option<Value>, broadcast: Value): (r: Value)
    ensures r.Obj? && "current_players" in r.fields && "max_players" in r.fields
    ensures r.fields["current_players"] == Prop(broadcast, "current_players")
    ensures r.fields["max_players"] == Prop(broadcast, "max_players")
  {
    if prev.None? || !Truthy(prev.value) then
      Obj(map[
        "id" := Prop(broadcast, "room_id"),
        "current_players" := Prop(broadcast, "current_players"),
        "max_players" := Prop(broadcast, "max_players"),
        "is_active" := Bool(true)])
    else
      Obj(Spread(prev.value)
        ["current_players" := Prop(broadcast, "current_players")]
        ["max_players" := Prop(broadcast, "max_players")])
  }

  /** `data.data.rooms.length > 0`, for a truthy `rooms`. */
  predicate HasRooms(rooms: Value)
    ensures rooms.Arr? ==> (HasRooms(rooms) <==> rooms.items != [])
    ensures rooms.Str? ==> (HasRooms(rooms) <==> rooms.s != [])
    ensures IsNullish(rooms) || rooms.Bool? || rooms.Num? || rooms.NaN? ==> !HasRooms(rooms)
  {
    match Prop(rooms, "length")
    case Num(n) => n > 0
    case _ => false
  }

  /** The informational note added after a successful room-list response;
      `None` when interpolating `count` throws. */
  function RoomListNote(payload: Value): (r: Option<Note>)
    ensures r.Some? ==> r.value.kind == Received && Prop(r.value.content, "type") == Str("info")
  {
    var rooms := Prop(payload, "rooms");
    if Truthy(rooms) && HasRooms(rooms) then
      match ToJsString(Prop(payload, "count"))
      case None => None
      case Some(count) =>
        Some(Note(Received, Obj(map[
          "type" := Str("info"),
          "message" := Str("Found " + count + " room(s)"),
          "rooms" := rooms])))
    else
      Some(Note(Received, Obj(map["type" := Str("info"), "message" := Str("No open rooms available")])))
  }

  /** A successful room-list response: logged, then followed by the
      informational note, or by the raw fallback when building it throws. */
  function RoomListOutcome(text: string, data: Value, room: Option<Value>): (out: Outcome)
    ensures |out.notes| == 2 && out.notes[0] == Note(Received, data)
    ensures out.room == room && !out.stored
    ensures out.notes[1].kind == Received
  {
    var received := Note(Received, data);
    match RoomListNote(Prop(data, "data"))
    case Some(info) => Outcome([received, info], room, false)
    case None => Outcome([received, RawNote(text)], room, false)
  }

  /** The last branch of the handler: the frame is logged as `received`, and
      a successful create, join or leave response replaces or clears the
      snapshot, while a successful room-list response adds an informational
      note and leaves the snapshot alone. */
  function ReceivedOutcome(text: string, data: Value, room: Option<Value>): (out: Outcome)
    ensures 1 <= |out.notes| <= 2 && out.notes[0] == Note(Received, data)
    ensures !out.stored ==> out.room == room
  {
    var kind, event, payload := Prop(data, "type"), Prop(data, "event"), Prop(data, "data");
    var received := Note(Received, data);
    if event == Str("create_room_response") && kind == Str("success") && Truthy(OptProp(payload, "id")) then
      Outcome([received], Some(payload), true)
    else if event == Str("join_room_response") && kind == Str("success") && Truthy(payload) then
      Outcome([received], Some(payload), true)
    else if event == Str("leave_room_response") && kind == Str("success") then
      Outcome([received], None, true)
    else if event == Str("get_room_list_response") && kind == Str("success") && Truthy(payload) then
      RoomListOutcome(text, data, room)
    else
      Outcome([received], room, false)
  }

  /** The whole handler. The first rule that applies decides: an `error` type,
      then a membership event, then an event that includes `broadcast`, and
      otherwise the frame is a `received` response. A frame that cannot be
      parsed, or whose handling throws (reading a property of `null`, calling
      `includes` on an event that has none), is logged as `{raw: text}`. */
  function Classify(frame: Frame, room: Option<Value>): (out: Outcome)
    ensures 1 <= |out.notes| <= 2
    ensures !out.stored ==> out.room == room
  {
    match frame
    case Undecodable(text) => Outcome([RawNote(text)], room, false)
    case Decoded(text, data) =>
      if IsNullish(data) then Outcome([RawNote(text)], room, false)
      else
        var kind, event, payload := Prop(data, "type"), Prop(data, "event"), Prop(data, "data");
        if kind == Str("error") then
          Outcome([Note(Error, data)], room, false)
        else if IsMembershipEvent(event) then
          var merge := Truthy(payload) && Truthy(Prop(payload, "room_id"));
          Outcome([Note(Broadcast, data)], if merge then Some(MergeBroadcast(room, payload)) else room, merge)
        else if Truthy(event) && IncludesBroadcast(event).None? then
          Outcome([RawNote(text)], room, false)
        else if Truthy(event) && IncludesBroadcast(event).value then
          Outcome([Note(Broadcast, data)], room, false)
        else
          ReceivedOutcome(text, data, room)
  }

  // ---------------------------------------------------------------------------
  // Properties of the handler

  /** The precedence rules, each stated on its own. Rule 1: an `error` type
      wins, whatever the event says, and the snapshot is left alone. */
  lemma ErrorTypeFirst(text: string, data: Value, room: Option<Value>)
    requires !IsNullish(data) && Prop(data, "type") == Str("error")
    ensures Classify(Decoded(text, data), room) == Outcome([Note(Error, data)], room, false)
  {
  }

  /** Rule 2: a membership event is a broadcast; the snapshot is merged only
      when the payload names a room. */
  lemma MembershipIsBroadcast(text: string, data: Value, room: Option<Value>)
    requires !IsNullish(data) && Prop(data, "type") != Str("error")
    requires IsMembershipEvent(Prop(data, "event"))
    ensures var out, payload := Classify(Decoded(text, data), room), Prop(data, "data");
      && out.notes == [Note(Broadcast, data)]
      && out.room == (if Truthy(payload) && Truthy(Prop(payload, "room_id")) then Some(MergeBroadcast(room, payload)) else room)
      && out.stored == (Truthy(payload) && Truthy(Prop(payload, "room_id")))
  {
  }

  /** Rule 3: any other event whose name contains `broadcast` is a broadcast,
      and the snapshot is left alone. */
  lemma BroadcastEventIsBroadcast(text: string, data: Value, room: Option<Value>, event: string)
    requires !IsNullish(data) && Prop(data, "type") != Str("error") && Prop(data, "event") == Str(event)
    requires !IsMembershipEvent(Str(event)) && JsText.Includes(event, "broadcast")
    ensures Classify(Decoded(text, data), room) == Outcome([Note(Broadcast, data)], room, false)
  {
  }

  /** Rule 4: an event name without `broadcast` (or no event at all) gives a
      `received` note first. */
  lemma OtherwiseReceived(text: string, data: Value, room: Option<Value>)
    requires !IsNullish(data) && Prop(data, "type") != Str("error")
    requires !IsMembershipEvent(Prop(data, "event"))
    requires !Truthy(Prop(data, "event")) || IncludesBroadcast(Prop(data, "event")) == Some(false)
    ensures Classify(Decoded(text, data), room).notes[0] == Note(Received, data)
  {
  }

  /** A frame the handler cannot process gives exactly one `{raw: text}` note
      and leaves the snapshot unchanged: a frame that is not JSON, a JSON
      `null`, or an event value that has no `includes` method. */
  lemma UnprocessableFrame(frame: Frame, room: Option<Value>)
    requires
      || frame.Undecodable?
      || IsNullish(frame.value)
      || (var data := frame.value;
          && Prop(data, "type") != Str("error")
          && !IsMembershipEvent(Prop(data, "event"))
          && Truthy(Prop(data, "event")) && IncludesBroadcast(Prop(data, "event")).None?)
    ensures Classify(frame, room) == Outcome([RawNote(frame.text)], room, false)
  {
  }

  /** The notes do not depend on the snapshot: classification reads only the frame. */
  lemma NotesIgnoreSnapshot(frame: Frame, room1: Option<Value>, room2: Option<Value>)
    ensures Classify(frame, room1).notes == Classify(frame, room2).notes
  {
    if frame.Decoded? && !IsNullish(frame.value) {
      ReceivedNotesIgnoreSnapshot(frame.text, frame.value, room1, room2);
    }
  }

  lemma ReceivedNotesIgnoreSnapshot(text: string, data: Value, room1: Option<Value>, room2: Option<Value>)
    ensures ReceivedOutcome(text, data, room1).notes == ReceivedOutcome(text, data, room2).notes
  {
  }

  /** A frame yields a second note only for a successful room-list response. */
  lemma SecondNoteOnlyForRoomList(frame: Frame, room: Option<Value>)
    requires |Classify(frame, room).notes| == 2
    ensures frame.Decoded? && Prop(frame.value, "event") == Str("get_room_list_response")
    ensures Prop(frame.value, "type") == Str("success") && Truthy(Prop(frame.value, "data"))
  {
  }

  /** Nothing else stores a snapshot: only a membership broadcast that names
      a room, a successful create response whose data has an id, a successful
      join response with data, or a successful leave response. Since a frame
      that stores nothing keeps the snapshot (the contract of `Classify`),
      these are also the only frames that change it. */
  lemma SnapshotChangesOnlyOn(frame: Frame, room: Option<Value>)
    requires Classify(frame, room).stored
    ensures frame.Decoded? && !IsNullish(frame.value)
    ensures var data := frame.value; var event, payload := Prop(data, "event"), Prop(data, "data");
      || (IsMembershipEvent(event) && Truthy(payload) && Truthy(Prop(payload, "room_id")))
      || (Prop(data, "type") == Str("success")
          && ((event == Str("create_room_response") && Truthy(OptProp(payload, "id")))
              || (event == Str("join_room_response") && Truthy(payload))
              || event == Str("leave_room_response")))
  {
  }

  /** A string without the first letter of `sub` does not include `sub`. */
  lemma FirstLetterMissing(s: string, sub: string)
    requires sub != [] && sub[0] !in s
    ensures !JsText.Includes(s, sub)
  {
  }

  /** A frame that is not an error, not a membership event and whose event
      is absent, falsy or does not include `broadcast` goes to the last branch. */
  lemma LastBranch(text: string, data: Value, room: Option<Value>)
    requires !IsNullish(data) && Prop(data, "type") != Str("error")
    requires !IsMembershipEvent(Prop(data, "event"))
    requires !Truthy(Prop(data, "event")) || IncludesBroadcast(Prop(data, "event")) == Some(false)
    ensures Classify(Decoded(text, data), room) == ReceivedOutcome(text, data, room)
  {
  }

  /** A response event: not a membership event, and without `broadcast`
      in its name because it has no `b` at all. */
  lemma NotBroadcastEvent(name: string)
    requires |name| > 11 && 'b' !in name
    ensures !IsMembershipEvent(Str(name)) && IncludesBroadcast(Str(name)) == Some(false)
  {
    assert |"user_joined"| == 11 && |"user_left"| == 9;
    FirstLetterMissing(name, "broadcast");
  }

  /** A successful response whose event is such a name reaches the last branch. */
  lemma ResponseReachesLastBranch(text: string, data: Value, room: Option<Value>, name: string)
    requires !IsNullish(data) && Prop(data, "type") == Str("success") && Prop(data, "event") == Str(name)
    requires |name| > 11 && 'b' !in name
    ensures Classify(Decoded(text, data), room) == ReceivedOutcome(text, data, room)
  {
    NotBroadcastEvent(name);
    assert |"success"| != |"error"|;
    LastBranch(text, data, room);
  }

  /** The four response events are told apart by their lengths alone. */
  lemma ResponseNamesDiffer()
    ensures Str("create_room_response") != Str("join_room_response")
    ensures Str("leave_room_response") != Str("create_room_response")
    ensures Str("leave_room_response") != Str("join_room_response")
    ensures Str("get_room_list_response") != Str("create_room_response")
    ensures Str("get_room_list_response") != Str("join_room_response")
    ensures Str("get_room_list_response") != Str("leave_room_response")
  {
    assert |"create_room_response"| == 20 && |"join_room_response"| == 18;
    assert |"leave_room_response"| == 19 && |"get_room_list_response"| == 22;
  }

  /** The last branch for each successful response event. */
  lemma ResponseBranches(text: string, data: Value, room: Option<Value>)
    requires Prop(data, "type") == Str("success")
    ensures var event, payload, out := Prop(data, "event"), Prop(data, "data"), ReceivedOutcome(text, data, room);
      && (event == Str("create_room_response") ==>
            out == Outcome([Note(Received, data)], if Truthy(OptProp(payload, "id")) then Some(payload) else room, Truthy(OptProp(payload, "id"))))
      && (event == Str("join_room_response") ==>
            out == Outcome([Note(Received, data)], if Truthy(payload) then Some(payload) else room, Truthy(payload)))
      && (event == Str("leave_room_response") ==> out == Outcome([Note(Received, data)], None, true))
      && (event == Str("get_room_list_response") && Truthy(payload) ==> out == RoomListOutcome(text, data, room))
  {
    ResponseNamesDiffer();
  }

  /** A successful create response replaces the snapshot with its `data`
      exactly when `data.id` is truthy. */
  lemma CreateResponseSnapshot(text: string, data: Value, room: Option<Value>)
    requires !IsNullish(data) && Prop(data, "type") == Str("success")
    requires Prop(data, "event") == Str("create_room_response")
    ensures var payload := Prop(data, "data");
      Classify(Decoded(text, data), room)
        == Outcome([Note(Received, data)], if Truthy(OptProp(payload, "id")) then Some(payload) else room, Truthy(OptProp(payload, "id")))
  {
    ResponseReachesLastBranch(text, data, room, "create_room_response");
    ResponseBranches(text, data, room);
  }

  /** A successful join response replaces the snapshot with its `data`
      exactly when that `data` is truthy. */
  lemma JoinResponseSnapshot(text: string, data: Value, room: Option<Value>)
    requires !IsNullish(data) && Prop(data, "type") == Str("success")
    requires Prop(data, "event") == Str("join_room_response")
    ensures var payload := Prop(data, "data");
      Classify(Decoded(text, data), room)
        == Outcome([Note(Received, data)], if Truthy(payload) then Some(payload) else room, Truthy(payload))
  {
    ResponseReachesLastBranch(text, data, room, "join_room_response");
    ResponseBranches(text, data, room);
  }

  /** A successful leave response clears the snapshot, whatever its `data`. */
  lemma LeaveResponseClears(text: string, data: Value, room: Option<Value>)
    requires !IsNullish(data) && Prop(data, "type") == Str("success")
    requires Prop(data, "event") == Str("leave_room_response")
    ensures Classify(Decoded(text, data), room) == Outcome([Note(Received, data)], None, true)
  {
    ResponseReachesLastBranch(text, data, room, "leave_room_response");
    ResponseBranches(text, data, room);
  }

  /** A successful room-list response with a truthy `data` is logged, then
      followed by the note `RoomListNote` builds (or the raw fallback when
      interpolating `count` throws); the snapshot is left alone. */
  lemma RoomListKeepsSnapshot(text: string, data: Value, room: Option<Value>)
    requires !IsNullish(data) && Prop(data, "type") == Str("success")
    requires Prop(data, "event") == Str("get_room_list_response") && Truthy(Prop(data, "data"))
    ensures var out, info := Classify(Decoded(text, data), room), RoomListNote(Prop(data, "data"));
      out == Outcome([Note(Received, data), if info.Some? then info.value else RawNote(text)], room, false)
  {
    ResponseReachesLastBranch(text, data, room, "get_room_list_response");
    ResponseBranches(text, data, room);
  }

  /** The room-list note tells whether the server has open rooms: for an
      array of rooms it is "No open rooms available" exactly when the array
      is empty, and otherwise "Found <count> room(s)" with the rooms attached
      (nothing, when `count` cannot be converted to text); when there is no
      list at all it is "No open rooms available". */
  lemma RoomListNoteMeaning(payload: Value)
    ensures var rooms, count := Prop(payload, "rooms"), ToJsString(Prop(payload, "count"));
      var none := Some(Note(Received, Obj(map["type" := Str("info"), "message" := Str("No open rooms available")])));
      && (!Truthy(rooms) ==> RoomListNote(payload) == none)
      && (rooms == Arr([]) ==> RoomListNote(payload) == none)
      && (rooms.Arr? && rooms.items != [] && count.Some? ==>
            RoomListNote(payload) == Some(Note(Received, Obj(map[
              "type" := Str("info"),
              "message" := Str("Found " + count.value + " room(s)"),
              "rooms" := rooms]))))
      && (rooms.Arr? && rooms.items != [] && count.None? ==> RoomListNote(payload).None?)
  {
  }

  // ---------------------------------------------------------------------------
  // The membership merge

  /** With no snapshot, a broadcast creates a minimal active one for its room. */
  lemma MergeWithoutSnapshot(broadcast: Value)
    ensures MergeBroadcast(None, broadcast) == Obj(map[
      "id" := Prop(broadcast, "room_id"),
      "current_players" := Prop(broadcast, "current_players"),
      "max_players" := Prop(broadcast, "max_players"),
      "is_active" := Bool(true)])
  {
  }

  /** With a snapshot, only the two player counts change: `id` and every other
      field are kept as they were. */
  lemma MergeKeepsOtherFields(fields: map<string, Value>, broadcast: Value)
    ensures var r := MergeBroadcast(Some(Obj(fields)), broadcast);
      && r.Obj? && r.fields.Keys == fields.Keys + {"current_players", "max_players"}
      && r.fields["current_players"] == Prop(broadcast, "current_players")
      && r.fields["max_players"] == Prop(broadcast, "max_players")
      && forall k | k in fields && k != "current_players" && k != "max_players" :: r.fields[k] == fields[k]
  {
  }

  /** The snapshot is always absent or truthy, so `!prev` in the merge means
      "no snapshot". */
  predicate SnapshotWellFormed(room: Option<Value>) {
    room.None? || Truthy(room.value)
  }

  lemma SnapshotStaysWellFormed(frame: Frame, room: Option<Value>)
    requires SnapshotWellFormed(room)
    ensures SnapshotWellFormed(Classify(frame, room).room)
  {
    if frame.Decoded? && !IsNullish(frame.value) {
      var payload := Prop(frame.value, "data");
      if Truthy(OptProp(payload, "id")) {
        assert Truthy(payload);
      }
    }
  }

  /** Two membership broadcasts in a row for the room held: the counts are
      those of the second one, and every other field of the snapshot (its id,
      whether it is public, its bet) survives both. */
  lemma RepeatedBroadcasts(fields: map<string, Value>, text1: string, data1: Value, text2: string, data2: Value)
    requires !IsNullish(data1) && Prop(data1, "type") != Str("error") && IsMembershipEvent(Prop(data1, "event"))
    requires !IsNullish(data2) && Prop(data2, "type") != Str("error") && IsMembershipEvent(Prop(data2, "event"))
    requires Truthy(Prop(data1, "data")) && Truthy(Prop(Prop(data1, "data"), "room_id"))
    requires Truthy(Prop(data2, "data")) && Truthy(Prop(Prop(data2, "data"), "room_id"))
    ensures var first := Classify(Decoded(text1, data1), Some(Obj(fields)));
      var second := Classify(Decoded(text2, data2), first.room);
      var b2 := Prop(data2, "data");
      second.room == Some(Obj(fields
        ["current_players" := Prop(b2, "current_players")]
        ["max_players" := Prop(b2, "max_players")]))
  {
    var b1, b2 := Prop(data1, "data"), Prop(data2, "data");
    var once := fields["current_players" := Prop(b1, "current_players")]["max_players" := Prop(b1, "max_players")];
    MembershipIsBroadcast(text1, data1, Some(Obj(fields)));
    MembershipIsBroadcast(text2, data2, Some(Obj(once)));
    assert once["current_players" := Prop(b2, "current_players")]["max_players" := Prop(b2, "max_players")]
      == fields["current_players" := Prop(b2, "current_players")]["max_players" := Prop(b2, "max_players")];
  }

  // ---------------------------------------------------------------------------
  // Scenarios

  /** A successful create response with the room `abc123` sets the snapshot to
      exactly its `data` and is logged as `received`; the leave response that
      follows clears the snapshot. */
  lemma CreateThenLeave()
    ensures
      var room := Obj(map["id" := Str("abc123"), "max_players" := Num(4), "current_players" := Num(1), "is_active" := Bool(true)]);
      var created := Obj(map["event" := Str("create_room_response"), "type" := Str("success"), "data" := room]);
      var left := Obj(map["event" := Str("leave_room_response"), "type" := Str("success"), "data" := Obj(map[])]);
      var afterCreate := Classify(Decoded("create", created), None);
      && afterCreate == Outcome([Note(Received, created)], Some(room), true)
      && Classify(Decoded("leave", left), afterCreate.room) == Outcome([Note(Received, left)], None, true)
  {
    var room := Obj(map["id" := Str("abc123"), "max_players" := Num(4), "current_players" := Num(1), "is_active" := Bool(true)]);
    var created := Obj(map["event" := Str("create_room_response"), "type" := Str("success"), "data" := room]);
    var left := Obj(map["event" := Str("leave_room_response"), "type" := Str("success"), "data" := Obj(map[])]);
    CreateResponseSnapshot("create", created, None);
    LeaveResponseClears("leave", left, Some(room));
  }

  /** The text `not json` is logged as `{raw: "not json"}` and changes nothing. */
  lemma NotJson(room: Option<Value>)
    ensures Classify(Undecodable("not json"), room) == Outcome([Note(Received, Obj(map["raw" := Str("not json")]))], room, false)
  {
  }
}
