/** The JavaScript values the client passes around: what `JSON.parse` yields
    (the wire format of the server's messages), plus `undefined` and `NaN`,
    which the client's own code can produce. This is the shape of `Message`,
    `RoomInfo` and `WebSocketMessage` in src/types.ts, all of which carry
    untyped (`any`) payloads. Numbers are integers. */
module JsValue {
  import opened Wrappers
  import JsText

  datatype Value =
    | Undefined
    | Null
    | Bool(b: bool)
    | Num(n: int)
    | NaN
    | Str(s: string)
    | Arr(items: seq<Value>)
    | Obj(fields: map<string, Value>)

  /** JavaScript truthiness: `undefined`, `null`, `false`, `0`, `NaN` and the
      empty string are falsy, everything else (every array and object) is truthy. */
  predicate Truthy(v: Value) {
    match v
    case Undefined => false
    case Null => false
    case NaN => false
    case Bool(b) => b
    case Num(n) => n != 0
    case Str(s) => s != ""
    case Arr(_) => true
    case Obj(_) => true
  }

  /** Reading a property of null or undefined throws a TypeError. */
  predicate IsNullish(v: Value) {
    v.Undefined? || v.Null?
  }

  /** The number of UTF-16 code units of a string: its JavaScript `length`. */
  function Utf16Length(s: string): (n: nat)
    ensures |s| <= n <= 2 * |s|
  {
    if s == [] then 0 else (if s[0] as int >= 0x10000 then 2 else 1) + Utf16Length(s[1..])
  }

  /** An array's `length`, or its element at a canonical index in range. */
  function ArrayProp(items: seq<Value>, key: string): Value {
    if key == "length" then Num(|items|)
    else if JsText.IsCanonicalNumeral(key) && JsText.DigitsValue(key) < |items| then items[JsText.DigitsValue(key)]
    else Undefined
  }

  /** `v[key]` for a value that is not null or undefined: an object's own
      field, an array's `length` or element, a string's `length`. Anything
      else reads as `undefined`. */
  function Prop(v: Value, key: string): (r: Value)
    ensures v.Obj? ==> r == (if key in v.fields then v.fields[key] else Undefined)
    ensures v.Arr? && key == "length" ==> r == Num(|v.items|)
    ensures !(v.Obj? || v.Arr? || v.Str?) ==> r == Undefined
  {
    match v
    case Obj(fields) => if key in fields then fields[key] else Undefined
    case Arr(items) => ArrayProp(items, key)
    case Str(s) => if key == "length" then Num(Utf16Length(s)) else Undefined
    case _ => Undefined
  }

  /** The number `parseInt` returns: NaN when no digit was read. */
  function ParsedNumber(r: Option<int>): (v: Value)
    ensures v.Num? <==> r.Some?
  {
    match r
    case Some(n) => Num(n)
    case None => NaN
  }

  /** Optional chaining, `v?.key`. */
  function OptProp(v: Value, key: string): (r: Value)
    ensures IsNullish(v) ==> r == Undefined
    ensures v.Obj? ==> r == (if key in v.fields then v.fields[key] else Undefined)
  {
    if IsNullish(v) then Undefined else Prop(v, key)
  }

  /** The `||` operator: the left operand when it is truthy, else the right one. */
  function Or(a: Value, b: Value): Value {
    if Truthy(a) then a else b
  }

  /** `vs[0] || vs[1] || ... || vs[n-1]`, the fallback chains of the client. */
  function FirstTruthy(vs: seq<Value>): Value
    requires |vs| > 0
  {
    if |vs| == 1 then vs[0] else Or(vs[0], FirstTruthy(vs[1..]))
  }

  /** A fallback chain yields its first truthy operand ... */
  lemma {:induction false} FirstTruthyPicksFirst(vs: seq<Value>, i: nat)
    requires i < |vs| && Truthy(vs[i])
    requires forall j | 0 <= j < i :: !Truthy(vs[j])
    ensures FirstTruthy(vs) == vs[i]
  {
    if i > 0 {
      FirstTruthyPicksFirst(vs[1..], i - 1);
    }
  }

  /** ... and its last operand when every operand is falsy. */
  lemma {:induction false} FirstTruthyAllFalsy(vs: seq<Value>)
    requires |vs| > 0 && forall j | 0 <= j < |vs| :: !Truthy(vs[j])
    ensures FirstTruthy(vs) == vs[|vs| - 1]
  {
    if |vs| > 1 {
      FirstTruthyAllFalsy(vs[1..]);
    }
  }

  /** A fallback chain is truthy exactly when one of its operands is. */
  lemma {:induction false} FirstTruthyTruthy(vs: seq<Value>)
    requires |vs| > 0
    ensures Truthy(FirstTruthy(vs)) <==> exists j | 0 <= j < |vs| :: Truthy(vs[j])
  {
    if |vs| > 1 {
      FirstTruthyTruthy(vs[1..]);
      if Truthy(FirstTruthy(vs[1..])) {
        var j :| 0 <= j < |vs[1..]| && Truthy(vs[1..][j]);
        assert Truthy(vs[j + 1]);
      }
      if !Truthy(vs[0]) && exists j | 0 <= j < |vs| :: Truthy(vs[j]) {
        var j :| 0 <= j < |vs| && Truthy(vs[j]);
        assert Truthy(vs[1..][j - 1]);
      }
    }
  }

  /** `String(v)`, the conversion a template literal applies to an interpolated
      value; `None` where JavaScript throws, which happens for an object that
      carries its own (necessarily non-callable) `toString` field. Array
      elements that are null or undefined print as the empty string. */
  function ToJsString(v: Value): Option<string>
    decreases v
  {
    match v
    case Undefined => Some("undefined")
    case Null => Some("null")
    case Bool(b) => Some(if b then "true" else "false")
    case Num(n) => Some(JsText.IntToString(n))
    case NaN => Some("NaN")
    case Str(s) => Some(s)
    case Arr(items) =>
      JoinParts(seq(|items|, i requires 0 <= i < |items| =>
        if IsNullish(items[i]) then Some("") else ToJsString(items[i])))
    case Obj(fields) => if "toString" in fields then None else Some("[object Object]")
  }

  /** Joins the converted elements with commas; `None` if one of them threw. */
  function JoinParts(parts: seq<Option<string>>): Option<string> {
    if parts == [] then Some("")
    else if parts[0].None? then None
    else if |parts| == 1 then parts[0]
    else
      match JoinParts(parts[1..])
      case None => None
      case Some(rest) => Some(parts[0].value + "," + rest)
  }

  /** A number interpolated into a message reads back, with `parseInt`, as itself. */
  lemma NumberTextReadsBack(n: int)
    ensures ToJsString(Num(n)).Some? && JsText.ParseInt(ToJsString(Num(n)).value) == Some(n)
  {
    JsText.ParseIntOfIntToString(n);
  }

  /** Index keys `"0"`, `"1"`, ... of an array spread into an object. */
  function IndexEntries(items: seq<Value>): (m: map<string, Value>)
    ensures forall i | 0 <= i < |items| :: JsText.NatToString(i) in m && m[JsText.NatToString(i)] == items[i]
    ensures forall k | k in m :: JsText.IsCanonicalNumeral(k) && JsText.DigitsValue(k) < |items|
  {
    if items == [] then map[]
    else
      var n := |items| - 1;
      var m := IndexEntries(items[..n])[JsText.NatToString(n) := items[n]];
      forall i | 0 <= i < n ensures JsText.NatToString(i) != JsText.NatToString(n) {
        JsText.NatToStringRoundTrip(i);
        JsText.NatToStringRoundTrip(n);
      }
      JsText.NatToStringRoundTrip(n);
      m
  }

  /** The own enumerable fields of a value, as object spread `{...v}` copies
      them: an object's fields, an array's indexed elements, a string's
      indexed characters, and nothing for any other value. */
  function Spread(v: Value): (m: map<string, Value>)
    ensures v.Obj? ==> m == v.fields
    ensures v.Arr? ==> forall i | 0 <= i < |v.items| :: JsText.NatToString(i) in m && m[JsText.NatToString(i)] == v.items[i]
    ensures !(v.Obj? || v.Arr? || v.Str?) ==> m == map[]
  {
    match v
    case Obj(fields) => fields
    case Arr(items) => IndexEntries(items)
    case Str(s) => IndexEntries(seq(|s|, i requires 0 <= i < |s| => Str([s[i]])))
    case _ => map[]
  }
}
