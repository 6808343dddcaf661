# test-socket-client, modelled in Dafny

test-socket-client is a browser console for exercising a room server over a
WebSocket. An operator pastes a credential token, connects, and presses
buttons that send room requests (create, create private, join, leave, list,
custom, invalid namespace). Every request sent, every frame received and
every connection event ends up in one message list on screen. The client
keeps a snapshot of the room the operator is in, updated from the server's
responses and membership broadcasts.

This project models the two files that hold that behaviour:

- `src/hooks/useWebSocket.ts`, the connection hook. It is modelled by module
  `WebSocketHook`: class `Session` holds the hook's state and its methods
  are the hook's operations and the four socket events.
  - The `onmessage` handler is the pure function `Inbound.Classify`.
  - The close report of `onclose` is module `CloseReport`.
  - `encodeURIComponent`, which puts the token into the URL, is module
    `UriComponent`, with its inverse.
- `src/App.tsx`, the console. It is modelled by module `TestConsole`: class
  `Console` holds the form fields and its methods are the button handlers.
  - The message list is `Messages.MessageLog`.
  - The fallback chains that read a login response and a token's claims
    are functions with lemmas.

The JavaScript semantics the code relies on are modelled explicitly in
modules `JsValue` and `JsText`: truthiness, property reads that throw on
`null`, `||` chains, `String(v)` in template literals, `parseInt` (with
`None` for NaN), `trim` and `includes`. A JSON value is `JsValue.Value`.

The socket is not modelled. What the client asks of it (open, send, close)
is recorded in order on `Session.wire`, and its events are method calls.
Parameters stand in for the outside world:

- the display time;
- `Date.now()` and the random digits of a request key (`SendEnv`);
- an exception thrown by the `WebSocket` constructor or by `send` (the
  `failure` parameters);
- the result of `JSON.parse` (an inbound `Frame`, and the `parsed`
  argument of `SendCustomMessage`).

The model keeps these behaviours of the code:

- An `error` event sets the status line but leaves `isConnected` as it was.
- A `close` event keeps the room snapshot and the socket handle.
- `connect` does not close a socket that is already open.
- The `joinRoom` password check lets a non-numeric password through.
  `JoinGuardAccepts` states this and `NonNumericJoinPassword` shows it.
- A refused request is a toast, not an exception. The model returns it as
  `Refused(..)` and changes nothing.

## Model

| member | source | states |
|---|---|---|
| Messages.Stamped | src/hooks/useWebSocket.ts:14-21 | every note handed to the log becomes one entry with the same kind and content and the given time, in order, none added or dropped |
| Messages.MessageLog.constructor | src/App.tsx:11 | the message list starts empty |
| Messages.MessageLog.Add | src/App.tsx:47-49 | a message is appended at the end and every earlier entry is kept in order |
| Messages.MessageLog.Clear | src/App.tsx:405-407 | clearing leaves the list empty |
| JsValue.FirstTruthyPicksFirst | src/App.tsx:60-61 | an `a \|\| b \|\| c` chain yields its first truthy operand |
| JsValue.FirstTruthyAllFalsy | src/App.tsx:60-61 | a chain whose operands are all falsy yields its last operand |
| JsValue.FirstTruthyTruthy | src/App.tsx:130 | a chain is truthy exactly when one of its operands is |
| JsValue.NumberTextReadsBack | src/hooks/useWebSocket.ts:74 | a number interpolated into a message converts without throwing, and `parseInt` reads the text back as that number |
| JsValue.Prop | src/hooks/useWebSocket.ts:64 | an object's field is read as stored, or `undefined` when absent; an array's `length` is its size; a value that is not an object, array or string has no properties |
| JsValue.OptProp | src/hooks/useWebSocket.ts:64 | `?.` on null or undefined yields `undefined` instead of throwing, and reads an object's field like `.` |
| JsValue.Spread | src/hooks/useWebSocket.ts:163 | spreading an object copies its fields, spreading an array gives each element under its decimal index, and any value that is not an object, array or string adds nothing |
| JsValue.IndexEntries | src/hooks/useWebSocket.ts:163 | spreading an array gives exactly the keys `"0"` … `"n-1"`, each mapped to its element |
| JsText.NatToStringRoundTrip | src/hooks/useWebSocket.ts:141 | reading the decimal text of a number gives the number back |
| JsText.NatToStringInjective | src/hooks/useWebSocket.ts:141 | two different numbers never print the same |
| JsText.ParseIntOfIntToString | src/App.tsx:299 | `parseInt(String(n)) == n` for every integer |
| JsText.ParseIntNaN | src/App.tsx:346 | `parseInt` gives NaN when no decimal digit follows the white space and sign (a hexadecimal letter such as in `abc` included) |
| JsText.ParseIntOfLetter | src/App.tsx:346 | a text that starts with an ASCII letter, upper or lower case, reads as NaN |
| JsText.Includes | src/hooks/useWebSocket.ts:59 | `includes` is true exactly when the substring occurs at some index |
| JsText.TrimIsSlice | src/App.tsx:386 | `trim` returns a contiguous slice of its input |
| JsText.TrimCutsOnlySpace | src/App.tsx:386 | `trim` removes only white space, on either side of the slice |
| JsText.TrimEnds | src/App.tsx:386 | neither end of a non-empty trimmed text is white space |
| JsText.TrimEmptyIffAllSpace | src/App.tsx:386-387 | a text trims to nothing exactly when it is all white space |
| UriComponent.EncodeURIComponent | src/hooks/useWebSocket.ts:38 | the encoded token holds only unreserved characters and `%` |
| UriComponent.NoDelimiters | src/hooks/useWebSocket.ts:38 | an encoded token contains no `&`, `#`, `=` or `?` |
| UriComponent.DecodeEncodedChar | src/hooks/useWebSocket.ts:38 | each percent-encoded character (one to four UTF-8 bytes) decodes back to itself, whatever follows it |
| UriComponent.UriComponentRoundTrip | src/hooks/useWebSocket.ts:38 | `decodeURIComponent(encodeURIComponent(s)) == s` for every string |
| CloseReport.ReasonText | src/hooks/useWebSocket.ts:106 | an empty reason reads `Unknown` and a non-empty reason is kept |
| CloseReport.CloseText | src/hooks/useWebSocket.ts:104-114 | every report starts with `Disconnected from server`, and is exactly that sentence when, and only when, the code is 1000 |
| CloseReport.BuildCloseMessage | src/hooks/useWebSocket.ts:104-114 | the report built by successive appends is `CloseText(code, reason)` |
| CloseReport.NormalClosureText | src/hooks/useWebSocket.ts:104-105 | code 1000 reports the fixed sentence alone, whatever the reason |
| CloseReport.OtherCodeText | src/hooks/useWebSocket.ts:105-106 | any other code reports the sentence, then the code in decimal and the reason (or `Unknown`) |
| CloseReport.CloseTextEndsWithHint | src/hooks/useWebSocket.ts:105-113 | every report but a normal closure's ends with its code's hint, and a code without a hint ends the report with `)` |
| CloseReport.HintsExclusive | src/hooks/useWebSocket.ts:107-113 | each hint ends the report exactly when the code is its own, so at most one hint appears |
| CloseReport.CloseTextDeterminesCode | src/hooks/useWebSocket.ts:104-114 | equal reports come from equal codes, so the code can be read back from the text |
| CloseReport.AbnormalClosureExample | src/hooks/useWebSocket.ts:104-108 | an abnormal closure with no reason reads `… (Code: 1006, Reason: Unknown) - Connection closed abnormally. …` |
| Inbound.Classify | src/hooks/useWebSocket.ts:48-88 | handling one frame hands one or two notes to the log, and a frame that stores no snapshot leaves it unchanged |
| Inbound.ErrorTypeFirst | src/hooks/useWebSocket.ts:52-53 | a frame of type `error` is logged as an error whatever its event, and the snapshot is kept |
| Inbound.MembershipIsBroadcast | src/hooks/useWebSocket.ts:54-58 | a `user_joined`/`user_left` event is logged as a broadcast, and the snapshot is merged exactly when the payload names a room |
| Inbound.BroadcastEventIsBroadcast | src/hooks/useWebSocket.ts:59-60 | any other event whose name contains `broadcast` is logged as a broadcast, and the snapshot is kept |
| Inbound.OtherwiseReceived | src/hooks/useWebSocket.ts:61-62 | a frame with no event, or whose event lacks `broadcast`, is logged as received first |
| Inbound.UnprocessableFrame | src/hooks/useWebSocket.ts:48-87 | text that is not JSON, JSON `null`, or an event with no `includes` gives exactly one `{raw: text}` note and keeps the snapshot |
| Inbound.NotesIgnoreSnapshot | src/hooks/useWebSocket.ts:48-88 | the notes depend on the frame alone, not on the snapshot |
| Inbound.SecondNoteOnlyForRoomList | src/hooks/useWebSocket.ts:70-82 | a second note is added only for a successful room-list response with data |
| Inbound.SnapshotChangesOnlyOn | src/hooks/useWebSocket.ts:54-69 | a snapshot is stored only on a membership broadcast naming a room, a successful create response whose data has an id, a successful join response with data, or a successful leave response |
| Inbound.LastBranch | src/hooks/useWebSocket.ts:59-83 | a frame that is not an error or a membership event, and whose event is absent, falsy or lacks `broadcast`, is handled by the response branch |
| Inbound.ResponseBranches | src/hooks/useWebSocket.ts:64-83 | what the response branch gives for each of the four response events |
| Inbound.CreateResponseSnapshot | src/hooks/useWebSocket.ts:64-65 | a successful create response is logged and replaces the snapshot with its data exactly when `data.id` is truthy |
| Inbound.JoinResponseSnapshot | src/hooks/useWebSocket.ts:66-67 | a successful join response is logged and replaces the snapshot with its data exactly when that data is truthy |
| Inbound.LeaveResponseClears | src/hooks/useWebSocket.ts:68-69 | a successful leave response is logged and clears the snapshot |
| Inbound.RoomListKeepsSnapshot | src/hooks/useWebSocket.ts:70-82 | a successful room-list response is logged, followed by the room-list note (or the raw fallback when that throws), and the snapshot is kept |
| Inbound.RoomListNoteMeaning | src/hooks/useWebSocket.ts:71-82 | with no room list, or an empty array of rooms, the note says `No open rooms available`; a non-empty array gives `Found <count> room(s)` with the rooms, or nothing when `count` cannot be converted |
| Inbound.MergeWithoutSnapshot | src/hooks/useWebSocket.ts:154-160 | without a snapshot, a broadcast creates an active one with the room id and the two counts |
| Inbound.MergeKeepsOtherFields | src/hooks/useWebSocket.ts:162-166 | with a snapshot, only the two player counts change and every other field is kept |
| Inbound.SnapshotStaysWellFormed | src/hooks/useWebSocket.ts:152-168 | the snapshot is always absent or truthy, so `!prev` in the merge means "no snapshot" |
| Inbound.RepeatedBroadcasts | src/hooks/useWebSocket.ts:54-58 | after two membership broadcasts, the counts are the second's and every other field survives both |
| Inbound.CreateThenLeave | src/hooks/useWebSocket.ts:64-69 | a create response for room `abc123` sets exactly that snapshot, and a following leave response clears it |
| Inbound.IncludesBroadcast | src/hooks/useWebSocket.ts:59 | `includes` can be asked only of a string or array event (anything else throws), and the event `broadcast` or `["broadcast"]` includes it |
| Inbound.HasRooms | src/hooks/useWebSocket.ts:71 | an array of rooms counts when it is non-empty, a string when it is non-empty, and null, undefined, a boolean or a number never counts |
| Inbound.RoomListOutcome | src/hooks/useWebSocket.ts:70-86 | a successful room-list response logs the frame and then one more received note, and leaves the snapshot unchanged |
| Inbound.NotJson | src/hooks/useWebSocket.ts:85-87 | the text `not json` is logged as `{raw: "not json"}` and changes nothing |
| WebSocketHook.ConnectCheckOrder | src/hooks/useWebSocket.ts:24-32 | a missing token is refused before the URL is looked at, and an attempt is made exactly with a token and a `ws://`/`wss://` URL |
| WebSocketHook.TokenUrlSeams | src/hooks/useWebSocket.ts:38 | the connection URL cuts into the server URL, one separator, `token=` and the encoded token |
| WebSocketHook.TokenUrlShape | src/hooks/useWebSocket.ts:38 | the separator is `&` exactly when the URL already has a `?`, and the parameter decodes back to the token with no `&` or `#` |
| WebSocketHook.RequestKeyDeterminesParts | src/hooks/useWebSocket.ts:141 | two generated keys are equal only for the same clock reading and the same random digits |
| WebSocketHook.TaggingRules | src/hooks/useWebSocket.ts:140-142 | a truthy key of the caller is never overwritten, a missing key is added when asked for, no other field changes, and tagging twice is tagging once |
| WebSocketHook.RequestKeyIsTruthy | src/hooks/useWebSocket.ts:141 | a generated key starts with `req-`, so it is truthy |
| WebSocketHook.CloseNotice | src/hooks/useWebSocket.ts:116 | the close notice has type `system`, the close report as its message, and the close code |
| WebSocketHook.Session.SendEffect | src/hooks/useWebSocket.ts:133-150 | one `sendMessage` call: without a handle or a connection nothing is sent or logged; otherwise the tagged message is transmitted on the current socket and logged as `sent`, or the exception is logged and nothing is sent; the connection state and snapshot never change |
| WebSocketHook.Session.constructor | src/hooks/useWebSocket.ts:6-12 | the hook starts disconnected with status `Disconnected`, no handle and no snapshot |
| WebSocketHook.Session.Emit | src/hooks/useWebSocket.ts:14-21 | one stamped entry is appended to the log |
| WebSocketHook.Session.Connect | src/hooks/useWebSocket.ts:23-124 | a refused call changes nothing; otherwise the status turns `Connecting`, one notice is logged and a socket is opened on the token URL, or, when creation throws, the status reads failed and the exception is logged |
| WebSocketHook.Session.OnOpen | src/hooks/useWebSocket.ts:42-46 | connected, status `✅ Connected`, one system notice logged, nothing else changed |
| WebSocketHook.Session.OnMessage | src/hooks/useWebSocket.ts:48-88 | the notes of `Classify` are logged in order and the snapshot becomes the one it gives, with the connection state unchanged |
| WebSocketHook.Session.OnError | src/hooks/useWebSocket.ts:90-98 | the status reads `❌ Connection Error`, the error notice is logged, and the connection flag, handle and snapshot are kept |
| WebSocketHook.Session.OnClose | src/hooks/useWebSocket.ts:100-117 | disconnected, and the close report with its code is logged |
| WebSocketHook.Session.Disconnect | src/hooks/useWebSocket.ts:126-131 | a held socket is closed once and dropped, and without one nothing happens, so a second call changes nothing |
| WebSocketHook.Session.SendMessage | src/hooks/useWebSocket.ts:133-150 | without a handle or a connection nothing is sent or logged; otherwise the tagged message is sent on the current socket and logged as sent, or the exception is logged and nothing is sent; while the status line reads Connected and a handle is held, a send is never refused as not connected |
| JsValue.Truthy | src/hooks/useWebSocket.ts:56 | JavaScript truthiness: `undefined`, `null`, `false`, `0`, NaN and `""` are falsy, every array and object truthy |
| JsValue.Or | src/App.tsx:60 | `a \|\| b`: the left operand when it is truthy, else the right one |
| JsValue.FirstTruthy | src/App.tsx:60-61 | a chain of `\|\|`; its meaning is stated by `FirstTruthyPicksFirst`, `FirstTruthyAllFalsy` and `FirstTruthyTruthy` |
| JsValue.ToJsString | src/hooks/useWebSocket.ts:74 | `String(v)` as a template literal applies it, `None` where it throws; `NumberTextReadsBack` states it for numbers |
| JsText.ParseInt | src/App.tsx:299 | `parseInt`: white space, optional sign, optional `0x`, the longest digit run, NaN without one; stated by `ParseIntOfIntToString` and `ParseIntNaN` |
| JsText.Trim | src/App.tsx:386 | `trim`; stated by `TrimIsSlice`, `TrimCutsOnlySpace`, `TrimEnds` and `TrimEmptyIffAllSpace` |
| Inbound.MergeBroadcast | src/hooks/useWebSocket.ts:152-168 | the merged snapshot is an object whose two player counts are the broadcast's |
| Inbound.ReceivedOutcome | src/hooks/useWebSocket.ts:61-83 | the response branch logs the frame as received first, adds at most one note, and keeps the snapshot unless it stores one |
| Inbound.RoomListNote | src/hooks/useWebSocket.ts:71-82 | the note added after a room-list response is a received `info` note |
| WebSocketHook.CheckConnect | src/hooks/useWebSocket.ts:24-38 | the checks of `connect` in order; stated by `ConnectCheckOrder` |
| WebSocketHook.TokenUrl | src/hooks/useWebSocket.ts:38 | the URL the socket is opened on; stated by `TokenUrlSeams` and `TokenUrlShape` |
| WebSocketHook.Separator | src/hooks/useWebSocket.ts:38 | `&` when the URL already has a `?`, otherwise `?`; stated by `TokenUrlShape` |
| WebSocketHook.RequestKey | src/hooks/useWebSocket.ts:141 | the generated key `req-<time>-<random>`; stated by `RequestKeyDeterminesParts` and `RequestKeyIsTruthy` |
| WebSocketHook.Tagged | src/hooks/useWebSocket.ts:140-142 | the message as sent, with the key added when asked for and missing; stated by `TaggingRules` |
| TestConsole.TokenCandidates | src/App.tsx:130 | the five places a token is looked for, `access_token` first, and the two nested ones read as `undefined` when the body has no `data` |
| TestConsole.ExtractToken | src/App.tsx:130 | the token read from a login response; stated by `ExtractTokenOrder` and `ExtractTokenFound` |
| TestConsole.Claims | src/App.tsx:60-61 | the shown claims of a token; stated by `UserIdFallback`, `UsernameFallback` and `ClaimsAreTruthy` |
| TestConsole.CreateGuardRejects | src/App.tsx:300 | the password check of both create buttons; stated by `CreateGuardAccepts` |
| TestConsole.JoinGuardRejects | src/App.tsx:347 | the password check of `joinRoom`; stated by `JoinGuardAccepts` and `NonNumericJoinPassword` |
| TestConsole.RoomData | src/App.tsx:292-305 | the create data holds the three settings as given, and a password exactly for a private room with a parsed password |
| TestConsole.JoinData | src/App.tsx:341-352 | the join data holds the room id, and a password exactly when one was typed, a number exactly when `parseInt` read one |
| TestConsole.FinalEvent | src/App.tsx:386 | the event a custom message is sent with; stated by `FinalEventEmpty` |
| TestConsole.DefaultDataText | src/App.tsx:75-88 | the two-space JSON of the default data: the create settings, an empty `room_id` for join and leave, `{}` otherwise |
| TestConsole.ExtractTokenOrder | src/App.tsx:130 | the token is the first truthy field among `access_token`, `accessToken`, `token`, `data.access_token`, `data.token` |
| TestConsole.ExtractTokenFound | src/App.tsx:130 | a token is found exactly when one of those fields holds a truthy value |
| TestConsole.UserIdFallback | src/App.tsx:60 | the user id is `user_id`, else `sub`, else `id`, else `N/A` |
| TestConsole.UsernameFallback | src/App.tsx:61 | the user name is `username`, else `name`, else `N/A` |
| TestConsole.ClaimsAreTruthy | src/App.tsx:60-61 | both shown claims are always truthy |
| TestConsole.CreateGuardAccepts | src/App.tsx:299-300 | creating a room accepts exactly the passwords that read as a number from 1000 to 9999 |
| TestConsole.JoinGuardAccepts | src/App.tsx:346-347 | joining accepts the passwords that read as 1000 to 9999, and also every password that reads as NaN |
| TestConsole.NonNumericJoinPassword | src/App.tsx:345-351 | the join password `pass` passes the check and is sent as NaN, while the create check refuses it |
| TestConsole.RoomDataPassword | src/App.tsx:292-305 | a public room carries no password, and an accepted private room carries one from 1000 to 9999 |
| TestConsole.FinalEventEmpty | src/App.tsx:386-387 | a custom message has no event exactly when `custom` is chosen with a blank name, or no event is chosen |
| TestConsole.Console.constructor | src/App.tsx:34-45 | the form starts with 4 players, bet 1000, public, empty passwords and room id, namespace `room`, event `create_room_request` and its default data; the connection starts disconnected, with status `Disconnected`, no handle, no snapshot, nothing sent and no socket created |
| TestConsole.Console.HandleEventChange | src/App.tsx:70-90 | choosing `custom` clears the custom name and keeps the data; any other event puts its default data in the box |
| TestConsole.Console.CreateRoom | src/App.tsx:291-313 | a private room with a rejected password sends nothing; otherwise the settings (with the password for a private room) are sent with a key |
| TestConsole.Console.CreatePrivateRoom | src/App.tsx:315-333 | a rejected password sends nothing; otherwise a private room with the password is sent with a key |
| TestConsole.Console.JoinRoom | src/App.tsx:335-360 | without a room id, or with a typed password out of range, nothing is sent; otherwise the room id and the parsed password are sent with a key |
| TestConsole.Console.LeaveRoom | src/App.tsx:362-374 | without a room id nothing is sent; otherwise the room id is sent with a key |
| TestConsole.Console.GetRoomList | src/App.tsx:376-383 | the room-list request with empty data is sent with a key |
| TestConsole.Console.SendCustomMessage | src/App.tsx:385-403 | with no event name or data that is not JSON, nothing is sent; otherwise the parsed data is sent in the chosen namespace with a key |
| TestConsole.Console.TestInvalidNamespace | src/App.tsx:409-415 | a request to namespace `invalid` is sent without a generated key |
| TestConsole.Console.ClearMessages | src/App.tsx:405-407 | the message list is emptied |
| TestConsole.Console.SyncRoomId | src/App.tsx:417-421 | the effect's body: a truthy snapshot id becomes the form's room id, and otherwise the room id is kept |
| TestConsole.Console.Deliver | src/App.tsx:417-421 | an inbound frame is classified and logged; the room id follows the new snapshot only when the frame stored one, and a typed room id survives every other frame; the connection state, the handle and what was sent stay as they were |
| TestConsole.PrivateRoomPayloadsAgree | src/App.tsx:315-333 | both create buttons send the same data for an accepted private room |
| TestConsole.InvalidNamespaceUntagged | src/App.tsx:409-415 | the invalid-namespace request goes out exactly as built, with no `identity_key` |
| TestConsole.ButtonRequestsTagged | src/App.tsx:307-311 | a button request sent with a key always carries the generated key |

## Left out

- Numbers are integers plus NaN. Floating point is not modelled, so a
  fractional `bet_value` and the float text of `String(n)` are not captured.
- `JSON.parse` and `JSON.stringify` are outside the model. The parse result
  is an input; the text a request serialises to, and its key order, are not
  modelled.
- The login and deposit requests are not modelled: the loop over login
  endpoints, `fetch` and `atob`. Only the field fallback chains that read
  their results are (`ExtractToken`, `Claims`).
- React itself is not modelled: rendering, the two-way bindings of the
  inputs, the `disabled` state of the buttons, toasts and `console` output.
- Stale closures (a handler seeing an older `isConnected`) are not modelled.
- The cleanup on unmount is not modelled.
- Events are not tied to the socket that raised them. An event of an older,
  replaced socket acts on the session like one of the current socket.
- Both notes of one frame get the same timestamp. The code reads the clock
  twice.
- WebSocketHook.Session.SendMessage: `sendMessage` adds the key to the
  caller's own object. The model returns the tagged copy instead, so aliasing
  of that object is not captured. Only object messages are modelled.
- Only text frames are modelled. A binary frame's data is a Blob, which the
  handler would log as `{raw: <Blob>}`; a `Frame` always carries text.
- `encodeURIComponent` on a lone surrogate throws a URIError. Dafny `char`s
  are scalar values, so that case does not arise in the model.
- A `rooms.length` that is not a number counts as "no rooms". Any other
  `length` getter is not modelled.
- Strings are sequences of code points. `length` counts UTF-16 units
  (`Utf16Length`), but other index-based string operations are not modelled
  per UTF-16 unit.
- `Date.now()`, `Math.random()` and `toLocaleTimeString()` are parameters.
