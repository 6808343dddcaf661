/** The display log of the console: the `Message` record of src/types.ts and
    the `messages` list of src/App.tsx, which every part of the client appends
    to and which the operator can clear. */
module Messages {
  import opened JsValue

  /** `Message['type']`. */
  datatype Kind = Sent | Received | Error | Broadcast

  /** One entry of the log; the timestamp is the local time text the caller supplies. */
  datatype Message = Message(kind: Kind, content: Value, timestamp: string)

  /** What the connection layer hands to its `onMessage` callback, before the
      timestamp is attached. */
  datatype Note = Note(kind: Kind, content: Value)

  /** The log entries for a run of notes handled at one moment. */
  function Stamped(notes: seq<Note>, timestamp: string): (entries: seq<Message>)
    ensures |entries| == |notes|
    ensures forall i | 0 <= i < |notes| :: entries[i] == Message(notes[i].kind, notes[i].content, timestamp)
  {
    if notes == [] then [] else [Message(notes[0].kind, notes[0].content, timestamp)] + Stamped(notes[1..], timestamp)
  }

  /** `{type: 'system', message: text}`, the content of connection notices. */
  function SystemNotice(text: string): Value {
    Obj(map["type" := Str("system"), "message" := Str(text)])
  }

  /** `{type: 'error', message: text}`, the content of reported exceptions. */
  function ErrorNotice(text: string): Value {
    Obj(map["type" := Str("error"), "message" := Str(text)])
  }

  /** The list of messages shown to the operator. */
  class MessageLog {
    var entries: seq<Message>

    constructor()
      ensures entries == []
    {
      entries := [];
    }

    /** `addMessage`: appends at the end, keeping every earlier entry in order. */
    method Add(m: Message)
      modifies this
      ensures entries == old(entries) + [m]
    {
      entries := entries + [m];
    }

    /** `clearMessages`: empties the log. */
    method Clear()
      modifies this
      ensures entries == []
    {
      entries := [];
    }
  }
}
