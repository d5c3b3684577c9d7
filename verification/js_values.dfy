/**
 * The slice of JavaScript's dynamic values that the client inspects at run
 * time: thrown errors, JSON response bodies and their truthiness, the `in`
 * operator, optional property reads and `String(v)`.
 */
module JsValues {
  import opened Text

  /**
   * A JavaScript value. Numbers are integers (fractional numbers never reach
   * the code paths modelled with this type); `Err` is an `Error` instance
   * with its message and any further own properties assigned to it.
   */
  datatype JsValue =
    | Undefined
    | Null
    | Bool(b: bool)
    | Num(n: int)
    | Str(s: string)
    | Obj(fields: map<string, JsValue>)
    | Arr(items: seq<JsValue>)
    | Err(message: string, props: map<string, JsValue>)

  /** The property names every plain object inherits from `Object.prototype`. */
  const ObjectPrototypeKeys: set<string> := {
    "constructor", "hasOwnProperty", "isPrototypeOf", "propertyIsEnumerable",
    "toLocaleString", "toString", "valueOf", "__proto__",
    "__defineGetter__", "__defineSetter__", "__lookupGetter__", "__lookupSetter__"
  }

  /** JavaScript truthiness (`NaN` does not arise). */
  predicate Truthy(v: JsValue) {
    match v
    case Undefined => false
    case Null => false
    case Bool(b) => b
    case Num(n) => n != 0
    case Str(s) => s != ""
    case _ => true
  }

  /** `typeof v === "object" && v !== null`. */
  predicate IsObject(v: JsValue) {
    v.Obj? || v.Arr? || v.Err?
  }

  /** `v == null`: the values `??` and `?.` skip. */
  predicate Nullish(v: JsValue) {
    v.Undefined? || v.Null?
  }

  /** `k in v` for an object: own keys and the prototype chain. */
  predicate HasKey(v: JsValue, k: string)
    requires IsObject(v)
  {
    match v
    case Obj(fields) => k in fields || k in ObjectPrototypeKeys
    case Arr(_) => k == "length" || k in ObjectPrototypeKeys
    case Err(_, props) => k == "message" || k in props || k == "name" || k in ObjectPrototypeKeys
  }

  /** Reading data property `k` of a non-nullish value (inherited methods read as undefined). */
  function Get(v: JsValue, k: string): (r: JsValue)
    requires !Nullish(v)
    ensures v.Obj? ==> (r.Undefined? <==> k !in v.fields || v.fields[k].Undefined?)
    ensures v.Obj? && k in v.fields ==> r == v.fields[k]
    ensures v.Err? && k == "message" ==> r == Str(v.message)
    ensures v.Err? && k != "message" && k in v.props ==> r == v.props[k]
    ensures v.Bool? || v.Num? ==> r == Undefined
    ensures v.Str? && k == "length" ==> r == Num(JsLength(v.s))
    ensures v.Arr? && k == "length" ==> r == Num(|v.items|)
  {
    match v
    case Obj(fields) => if k in fields then fields[k] else Undefined
    case Arr(items) => if k == "length" then Num(|items|) else Undefined
    case Err(message, props) =>
      if k == "message" then Str(message)
      else if k in props then props[k]
      else if k == "name" then Str("Error")
      else Undefined
    case Str(s) => if k == "length" then Num(JsLength(s)) else Undefined
    case _ => Undefined
  }

  /** Optional chaining `v?.k`. */
  function OptGet(v: JsValue, k: string): (r: JsValue)
    ensures Nullish(v) ==> r == Undefined
    ensures !Nullish(v) ==> r == Get(v, k)
  {
    if Nullish(v) then Undefined else Get(v, k)
  }

  /** `String(v)`. */
  function ToDisplayString(v: JsValue): (r: string)
    ensures v.Str? ==> r == v.s
    ensures Truthy(v) && !v.Arr? ==> r != ""
  {
    match v
    case Undefined => "undefined"
    case Null => "null"
    case Bool(b) => if b then "true" else "false"
    case Num(n) => IntToString(n)
    case Str(s) => s
    case Obj(_) => "[object Object]"
    case Arr(items) =>
      Join(seq(|items|, i requires 0 <= i < |items| =>
        if Nullish(items[i]) then "" else ToDisplayString(items[i])), ",")
    case Err(message, _) => if message == "" then "Error" else "Error: " + message
  }

  /** `new Error(v)`: an undefined argument leaves the message empty; no other own property is set. */
  function NewError(v: JsValue): (e: JsValue)
    ensures e.Err? && e.props == map[]
    ensures v.Str? ==> e.message == v.s
    ensures v.Undefined? ==> e.message == ""
  {
    Err(if v.Undefined? then "" else ToDisplayString(v), map[])
  }
}

/** Extracting a user-facing message from whatever was thrown (lib/utils). */
module ErrorMessages {
  import opened JsValues

  const UnknownError := "An unknown error occurred"

  /** The `hasUserMessage` guard: an object whose `userMessage` is a string. */
  predicate HasUserMessage(e: JsValue) {
    IsObject(e) && HasKey(e, "userMessage") && Get(e, "userMessage").Str?
  }

  /** The `hasStringMessage` guard: only the presence of `message` is checked. */
  predicate HasStringMessage(e: JsValue) {
    IsObject(e) && HasKey(e, "message")
  }

  /** The `hasStatus` guard. */
  predicate HasStatus(e: JsValue) {
    IsObject(e) && HasKey(e, "status")
  }

  /** The `hasErrorCode` guard. */
  predicate HasErrorCode(e: JsValue) {
    IsObject(e) && HasKey(e, "errorCode")
  }

  /**
   * `getErrorMessage`: a string `userMessage` first (on an `Error` too),
   * then an `Error`'s message, then a thrown string, then a fixed fallback.
   */
  function GetErrorMessage(e: JsValue): (r: string)
    ensures e.Obj? && "userMessage" in e.fields && e.fields["userMessage"].Str? ==>
      r == e.fields["userMessage"].s
    ensures e.Err? && "userMessage" in e.props && e.props["userMessage"].Str? ==>
      r == e.props["userMessage"].s
    ensures e.Err? && ("userMessage" !in e.props || !e.props["userMessage"].Str?) ==> r == e.message
    ensures e.Str? ==> r == e.s
    ensures e.Obj? && ("userMessage" !in e.fields || !e.fields["userMessage"].Str?) ==> r == UnknownError
    ensures !IsObject(e) && !e.Str? ==> r == UnknownError
  {
    if HasUserMessage(e) then Get(e, "userMessage").s
    else if e.Err? then e.message
    else if e.Str? then e.s
    else UnknownError
  }

  /** Every `Error` passes the `hasStringMessage` guard and none passes `hasStatus` or `hasErrorCode`. */
  lemma ErrorGuards(e: JsValue)
    requires e.Err?
    ensures HasStringMessage(e)
    ensures HasStatus(e) <==> "status" in e.props
    ensures HasErrorCode(e) <==> "errorCode" in e.props
  {
  }

  /** A plain object passes `hasStringMessage` exactly when it owns a `message` key, whatever its value. */
  lemma StringMessageIsPresenceOnly(fields: map<string, JsValue>)
    ensures HasStringMessage(Obj(fields)) <==> "message" in fields
  {
  }
}
