/**
 * Values shared by every part of the backend model: optional values, the
 * JSON-like payload values a request carries, Python truthiness over them,
 * the per-request "workspace_id" attribute and the claims of a token.
 */
module Common {

  datatype Option<+T> = None | Some(value: T)

  /** The outcome of an operation that can raise. */
  datatype Result<+T, +E> = Ok(value: T) | Err(error: E)

  /** A value of a decoded JSON request body or query string. */
  datatype Value = Null | Str(s: string) | Num(n: int) | Bool(b: bool) | List(items: seq<string>)

  /** Python truthiness of a payload value (`if value:`). */
  predicate Truthy(v: Value)
  {
    match v
    case Null => false
    case Str(s) => s != ""
    case Num(n) => n != 0
    case Bool(b) => b
    case List(xs) => xs != []
  }

  /** A request body or query dictionary. */
  type Payload = map<string, Value>

  /** `d.get(k)`: the stored value, or None when the key is absent. */
  function Get(d: Payload, k: string): Value
  {
    if k in d then d[k] else Null
  }

  /** The text of a value, when it is a string. */
  function AsText(v: Value): Option<string>
  {
    if v.Str? then Some(v.s) else None
  }

  /** Truthiness of an optional identifier (`if workspace_id:`): None and "" are falsy. */
  predicate TruthyId(w: Option<string>)
  {
    w.Some? && w.value != ""
  }

  /** The identifier as a payload value (None becomes JSON null). */
  function IdValue(w: Option<string>): Value
  {
    if w.Some? then Str(w.value) else Null
  }

  /**
   * The `workspace_id` attribute that the middleware or a token issuer
   * attaches to an object at run time: `Unset` when `hasattr` is false,
   * otherwise the attached value, which may itself be None.
   */
  datatype WorkspaceAttr = Unset | Set(value: Option<string>)

  /** The value `getattr(obj, 'workspace_id', None)` reads. */
  function AttrValue(a: WorkspaceAttr): Option<string>
  {
    if a.Set? then a.value else None
  }

  /** The claims of a token; a claim's value may be JSON null. */
  type Claims = map<string, Option<string>>

  /** `claims.get(k)`: an absent claim and a null claim both read as None. */
  function Claim(c: Claims, k: string): Option<string>
  {
    if k in c then c[k] else None
  }

  /** HTTP status codes the endpoints answer with. */
  const Ok200 := 200
  const Created201 := 201
  const Accepted202 := 202
  const BadRequest400 := 400
  const Unauthorized401 := 401
  const Forbidden403 := 403
  const NotFound404 := 404
  const MethodNotAllowed405 := 405
  const NotAcceptable406 := 406
  /** An uncaught exception, which the framework turns into a server error. */
  const ServerError500 := 500
}
