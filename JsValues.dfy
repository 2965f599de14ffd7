/** The slice of JavaScript semantics the source-map gatherer depends on: values
    produced by `JSON.parse`, truthiness, property reads (which throw on `null`
    and fall back to inherited prototype methods), and error objects whose
    `toString()` becomes a result's `errorMessage`. */
module JsValues {

  import opened Wrappers

  /** A value as `JSON.parse` builds it. Numbers are kept integral. */
  datatype Json =
    | JNull
    | JBool(b: bool)
    | JNumber(n: int)
    | JString(s: string)
    | JArray(items: seq<Json>)
    | JObject(props: map<string, Json>)

  /** JavaScript truthiness of a JSON value: `null`, `false`, `0` and `""` are falsy. */
  predicate Truthy(v: Json) {
    match v
    case JNull => false
    case JBool(b) => b
    case JNumber(n) => n != 0
    case JString(s) => s != ""
    case JArray(_) => true
    case JObject(_) => true
  }

  /** What reading `v[key]` yields when it does not throw. */
  datatype Property = Undefined | Defined(value: Json) | BuiltinMethod

  /** Truthiness of a property read: a missing property is `undefined` (falsy),
      an inherited method is a function object (truthy). */
  predicate PropertyTruthy(p: Property) {
    match p
    case Undefined => false
    case Defined(v) => Truthy(v)
    case BuiltinMethod => true
  }

  /** Methods every non-null value inherits from `Object.prototype`. */
  const ObjectPrototypeMethods: set<string> :=
    {"constructor", "hasOwnProperty", "isPrototypeOf", "propertyIsEnumerable",
     "toLocaleString", "toString", "valueOf"}

  /** Methods arrays inherit from `Array.prototype`. */
  const ArrayPrototypeMethods: set<string> :=
    {"at", "concat", "copyWithin", "entries", "every", "fill", "filter", "find",
     "findIndex", "findLast", "findLastIndex", "flat", "flatMap", "forEach",
     "includes", "indexOf", "join", "keys", "lastIndexOf", "map", "pop", "push",
     "reduce", "reduceRight", "reverse", "shift", "slice", "some", "sort",
     "splice", "unshift", "values"}

  /** The error objects the gatherer's `catch` blocks see. */
  datatype JsError =
    | Error(message: string)
    | TypeError(message: string)
    | SyntaxError(message: string)
      /** A Node.js error that carries a code, such as `ERR_INVALID_ARG_TYPE`. */
    | CodedTypeError(code: string, message: string)
  {
    function Name(): string {
      match this
      case Error(_) => "Error"
      case TypeError(_) => "TypeError"
      case SyntaxError(_) => "SyntaxError"
      case CodedTypeError(_, _) => "TypeError"
    }

    /** `toString()`: the name, then `": "` and the message when there is one;
        Node's coded errors put the code in brackets after the name. */
    function ToString(): (s: string)
      ensures Name() <= s
    {
      if CodedTypeError? then Name() + " [" + code + "]: " + message
      else if message == "" then Name()
      else Name() + ": " + message
    }
  }

  /** The text of an error with a non-empty message is its name, a colon and the message. */
  lemma ErrorText(e: JsError)
    requires e.message != ""
    ensures e.Error? ==> e.ToString() == "Error: " + e.message
    ensures e.TypeError? ==> e.ToString() == "TypeError: " + e.message
    ensures e.SyntaxError? ==> e.ToString() == "SyntaxError: " + e.message
  {
    assert "Error" + ": " + e.message == "Error: " + e.message;
    assert "TypeError" + ": " + e.message == "TypeError: " + e.message;
    assert "SyntaxError" + ": " + e.message == "SyntaxError: " + e.message;
  }

  /** The TypeError V8 raises for reading property `key` of `null`. */
  function NullPropertyRead(key: string): JsError {
    TypeError("Cannot read properties of null (reading '" + key + "')")
  }

  /** `v[key]` for a property name that is not an array index: `null` throws;
      an object's own property wins; otherwise an inherited method, else `undefined`.
      Properties of primitives other than inherited methods (such as `length`)
      are not modelled. */
  function GetProperty(v: Json, key: string): (r: Result<Property, JsError>)
    ensures r.Failure? <==> v.JNull?
    ensures r.Success? && r.value.Defined? ==> v.JObject? && key in v.props && r.value.value == v.props[key]
    ensures v.JObject? && key in v.props ==> r == Success(Defined(v.props[key]))
  {
    match v
    case JNull => Failure(NullPropertyRead(key))
    case JObject(props) =>
      if key in props then Success(Defined(props[key]))
      else if key in ObjectPrototypeMethods then Success(BuiltinMethod)
      else Success(Undefined)
    case JArray(_) =>
      if key in ArrayPrototypeMethods || key in ObjectPrototypeMethods then Success(BuiltinMethod)
      else Success(Undefined)
    case _ =>
      if key in ObjectPrototypeMethods then Success(BuiltinMethod) else Success(Undefined)
  }
}
