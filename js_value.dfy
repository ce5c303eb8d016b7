/**
 * The JavaScript values the library inspects, and the small part of the
 * language's semantics it relies on: `typeof`, truthiness, `Array.isArray`,
 * `Object.prototype.hasOwnProperty` and property reads.
 */
module JsValues {

  /**
   * A JavaScript value. A function value is known only by an identity; what
   * it computes is supplied by the host (see module Runtime). Numbers are
   * kept as integers: the library only asks for their type and truthiness.
   * Arrays are dense (no holes) and carry no named properties.
   */
  datatype JsValue =
    | Undefined
    | Null
    | Bool(b: bool)
    | Num(n: int)
    | Str(s: string)
    | Fn(id: nat)
    | Arr(elems: seq<JsValue>)
    | Obj(props: map<string, JsValue>)

  /** The three property names a rule declaration may carry. */
  datatype Field = Regex | RegexFlags | SanitiseFunction
  {
    function Name(): string
    {
      match this
      case Regex => "regex"
      case RegexFlags => "regexFlags"
      case SanitiseFunction => "sanitiseFunction"
    }
  }

  /** The `typeof` operator. */
  function TypeOf(v: JsValue): (tag: string)
    ensures tag in {"undefined", "object", "boolean", "number", "string", "function"}
    ensures tag == "object" <==> v.Null? || v.Arr? || v.Obj?
    ensures tag == "string" <==> v.Str?
    ensures tag == "function" <==> v.Fn?
  {
    match v
    case Undefined => "undefined"
    case Null => "object"
    case Bool(_) => "boolean"
    case Num(_) => "number"
    case Str(_) => "string"
    case Fn(_) => "function"
    case Arr(_) => "object"
    case Obj(_) => "object"
  }

  /** JavaScript truthiness, as used by `if (x)`. */
  predicate Truthy(v: JsValue)
  {
    match v
    case Undefined => false
    case Null => false
    case Bool(b) => b
    case Num(n) => n != 0
    case Str(s) => s != ""
    case Fn(_) => true
    case Arr(_) => true
    case Obj(_) => true
  }

  /** `Array.isArray`. */
  predicate IsArray(v: JsValue)
  {
    v.Arr?
  }

  /**
   * `Object.prototype.hasOwnProperty.call(v, f)` for one of the rule field
   * names. In this model only `Obj` values carry named properties: an `Arr`
   * is a dense array with no named properties, and a string's own
   * properties (indices and `length`) never include these names. A
   * JavaScript array or function given such a property is not represented.
   * On `null` and `undefined` the call throws, so they are excluded here and
   * each caller handles them itself.
   */
  predicate HasOwnProperty(v: JsValue, f: Field)
    requires !v.Null? && !v.Undefined?
  {
    v.Obj? && f.Name() in v.props
  }

  /** The property read `v[f]`; a missing property reads as `undefined`. */
  function Get(v: JsValue, f: Field): JsValue
  {
    if v.Obj? && f.Name() in v.props then v.props[f.Name()] else Undefined
  }
}
