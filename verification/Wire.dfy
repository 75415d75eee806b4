/** JSON messages as Python sees them, and the parts of Python the decoders lean on. */
module Wire {

  import opened Wrappers

  datatype Json =
    | Null
    | Bool(b: bool)
    | Int(n: int)
    | Float(r: real)
    | NonFinite
    | Str(s: string)
    | Arr(items: seq<Json>)
    | Obj(fields: map<string, Json>)

  /** Library behaviour the model leaves open: parsing an integer out of text, `str(...)` of a value
  that is not text, base64 decoding and lenient UTF-8 decoding. */
  datatype Python = Python(
    parseInt: string -> Option<int>,
    show: Json -> string,
    unbase64: string -> Option<seq<int>>,
    utf8: seq<int> -> string)

  /** `value.get(key)`. */
  function Get(value: Json, key: string): Json
    requires value.Obj?
  {
    if key in value.fields then value.fields[key] else Null
  }

  predicate Truthy(j: Json) {
    match j
    case Null => false
    case Bool(b) => b
    case Int(n) => n != 0
    case Float(r) => r != 0.0
    case NonFinite => true
    case Str(s) => s != ""
    case Arr(items) => items != []
    case Obj(fields) => fields != map[]
  }

  /** `j or default`. */
  function Or(j: Json, default: Json): Json {
    if Truthy(j) then j else default
  }

  function Truncate(r: real): int {
    if r >= 0.0 then r.Floor else -(-r).Floor
  }

  /** `int(j)`; None where Python raises. */
  function ToInt(j: Json, py: Python): Option<int> {
    match j
    case Bool(b) => Some(if b then 1 else 0)
    case Int(n) => Some(n)
    case Float(r) => Some(Truncate(r))
    case Str(s) => py.parseInt(s)
    case _ => None
  }

  /** The falsy values of Python that JSON can carry. */
  lemma FalsyExactly(j: Json)
    ensures !Truthy(j) <==>
      j in {Null, Bool(false), Int(0), Float(0.0), Str(""), Arr([]), Obj(map[])}
  {}

  /** `int` of a number cuts its fraction off, towards zero; a boolean is 0 or 1, and text is parsed. */
  lemma ToIntExactly(r: real, b: bool, s: string, py: Python)
    ensures
      var n := ToInt(Float(r), py).value;
      && ToInt(Float(r), py).Some?
      && (r >= 0.0 ==> n as real <= r < n as real + 1.0)
      && (r <= 0.0 ==> n as real - 1.0 < r <= n as real)
    ensures ToInt(Bool(b), py) == Some(1) <==> b
    ensures ToInt(Bool(b), py) == Some(0) <==> !b
    ensures ToInt(Str(s), py) == py.parseInt(s)
  {}

  function Show(j: Json, py: Python): string {
    if j.Str? then j.s else py.show(j)
  }

  const ROUTABLE := {"exec_result", "read_result", "write_result", "error"}

  /** The request a message answers, if it is one that gets routed. */
  function Answers(msg: Json): Option<string> {
    if msg.Obj? && Get(msg, "type").Str? && Get(msg, "type").s in ROUTABLE
       && Get(msg, "id").Str? && Get(msg, "id").s != ""
    then Some(Get(msg, "id").s)
    else None
  }

  /** `msg` is a reply to the request `id`: one of the four types that are routed, carrying that id. */
  predicate IsReply(msg: Json, id: string) {
    && msg.Obj? && id != "" && Get(msg, "id") == Str(id)
    && (|| Get(msg, "type") == Str("exec_result") || Get(msg, "type") == Str("read_result")
        || Get(msg, "type") == Str("write_result") || Get(msg, "type") == Str("error"))
  }

  lemma AnswersExactly(msg: Json, id: string)
    ensures Answers(msg) == Some(id) <==> IsReply(msg, id)
  {}
}
