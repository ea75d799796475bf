/**
 * The dynamically typed values that flow through the log, and the foreign
 * codecs the core calls but whose source is not part of this model.
 */
module Values {

  type Bytes = seq<bv8>

  datatype Option<+T> = None | Some(value: T)

  /** The errors the core raises or lets through. */
  datatype Error =
    | TypeError(detail: string)   // a property of undefined, a missing method, a bad argument
    | SyntaxError(detail: string) // `JSON.parse` of text that is not JSON
    | Thrown(message: string)     // an `Error` thrown on purpose
    | Stalled(detail: string)     // an `await` that never settles: the caller never gets past it

  datatype Result<+T> = Ok(value: T) | Err(error: Error)

  /**
   * A JavaScript value as it appears in an operation appended to the log.
   * Numbers are integers here: the only number the core computes is a
   * millisecond timestamp.
   */
  datatype Js =
    | Undefined
    | Null
    | Bool(b: bool)
    | Num(n: int)
    | Str(s: string)
    | Buf(bytes: Bytes)
    | Obj(fields: map<string, Js>)

  /** JavaScript truthiness, as used by `if (x)` and `x?.k`. A Buffer is an object, so it is truthy even when empty. */
  predicate Truthy(v: Js)
  {
    match v
    case Undefined => false
    case Null => false
    case Bool(b) => b
    case Num(n) => n != 0
    case Str(s) => s != ""
    case Buf(_) => true
    case Obj(_) => true
  }

  /** `undefined` and `null`: reading a property of one of these throws. */
  predicate Nullish(v: Js)
  {
    v.Undefined? || v.Null?
  }

  /** Property read `v.k` (or `v?.k`): absent properties read as `undefined`. */
  function Prop(v: Js, k: string): (r: Js)
    ensures !v.Obj? ==> r == Undefined
    ensures v.Obj? && k !in v.fields ==> r == Undefined
  {
    if v.Obj? && k in v.fields then v.fields[k] else Undefined
  }

  /**
   * Library functions called by the core whose source is not part of this
   * model. They are deterministic but otherwise unconstrained, except where
   * the value says they can fail.
   */
  datatype Codecs = Codecs(
    hexDecode: string -> Bytes,   // Buffer.from(s, "hex")
    stringify: Js -> Bytes,       // Buffer.from(JSON.stringify(v)), for every v but undefined
    parseJson: Js -> Option<Js>,  // JSON.parse(data.toString("utf-8")); None when the text is not JSON
    utf8: string -> Bytes,        // b4a.from(s)
    z32Encode: Js -> string)      // z32.encode(v)

  /**
   * `Buffer.from(JSON.stringify(v))`: `JSON.stringify(undefined)` is
   * `undefined`, which `Buffer.from` refuses; every other value here has a
   * JSON text.
   */
  function Serialize(codecs: Codecs, v: Js): (r: Result<Bytes>)
    ensures r.Ok? <==> v != Undefined
    ensures r.Ok? ==> r.value == codecs.stringify(v)
  {
    if v == Undefined then Err(TypeError("Buffer.from: the argument is undefined"))
    else Ok(codecs.stringify(v))
  }

  /** `JSON.parse(data.toString("utf-8"))`, which throws a SyntaxError on text that is not JSON. */
  function ParseJson(codecs: Codecs, data: Js): (r: Result<Js>)
    ensures r.Ok? <==> codecs.parseJson(data).Some?
    ensures r.Ok? ==> r.value == codecs.parseJson(data).value
  {
    match codecs.parseJson(data)
    case Some(v) => Ok(v)
    case None => Err(SyntaxError("JSON.parse: the content is not JSON"))
  }

  /**
   * `b4a.isBuffer(key) ? key : b4a.from(key)`: a Buffer is kept, a string is
   * UTF-8 encoded, anything else is refused by `Buffer.from`.
   */
  function ToBuffer(codecs: Codecs, key: Js): (r: Result<Bytes>)
    ensures key.Buf? ==> r == Ok(key.bytes)
    ensures key.Str? ==> r == Ok(codecs.utf8(key.s))
    ensures r.Ok? <==> key.Buf? || key.Str?
  {
    match key
    case Buf(b) => Ok(b)
    case Str(s) => Ok(codecs.utf8(s))
    case _ => Err(TypeError("b4a.from: unsupported argument"))
  }

  /** The `{ type, record }` object every built-in operation is appended as. */
  function Operation(kind: string, record: Js): (op: Js)
    ensures Prop(op, "type") == Str(kind) && Prop(op, "record") == record
  {
    Obj(map["type" := Str(kind), "record" := record])
  }

  /** The operation `addWriter` and `removeWriter` append: `{ type, record: { key } }` with `key` a Buffer. */
  function WriterOperation(kind: string, key: Bytes): (op: Js)
    ensures Prop(op, "type") == Str(kind) && Prop(Prop(op, "record"), "key") == Buf(key)
  {
    Operation(kind, Obj(map["key" := Buf(key)]))
  }
}
