/**
 * Recognition of the upstream ("Hitman") error body inside an untyped
 * rejected value, as a caught exception arrives in the error handler.
 */
module ApiErrors {
  import opened Options

  /**
   * An untyped JavaScript value. Objects carry their own properties and
   * whether `Error.prototype` is on their prototype chain (`instanceof Error`).
   * Numbers are integers here.
   */
  datatype JsValue =
    | Null
    | Undefined
    | Num(n: int)
    | Str(s: string)
    | Bool(b: bool)
    | Obj(props: map<string, JsValue>, isError: bool)

  /** `typeof v`. */
  function TypeOf(v: JsValue): string
  {
    match v
    case Null => "object"
    case Undefined => "undefined"
    case Num(_) => "number"
    case Str(_) => "string"
    case Bool(_) => "boolean"
    case Obj(_, _) => "object"
  }

  /** JavaScript truthiness (`!!v`). */
  predicate Truthy(v: JsValue)
  {
    match v
    case Null => false
    case Undefined => false
    case Num(n) => n != 0
    case Str(s) => s != ""
    case Bool(b) => b
    case Obj(_, _) => true
  }

  /**
   * `v?.name` for an own property: `undefined` when `v` is null or undefined,
   * when `v` is a primitive, or when the property is missing.
   */
  function Get(v: JsValue, name: string): JsValue
  {
    if v.Obj? && name in v.props then v.props[name] else Undefined
  }

  /** `error.response?.data`. */
  function ResponseData(error: JsValue): JsValue
  {
    Get(Get(error, "response"), "data")
  }

  /** The recognised error body. `details` is whatever the body holds under that name. */
  datatype ApiError = ApiError(
    httpStatusCode: int,
    code: string,
    message: string,
    fingerprint: string,
    details: JsValue)

  /** The four names the recognizer checks. */
  const Required := ["httpStatusCode", "code", "message", "fingerprint"]

  /** The type each required field must have, by `typeof`. */
  function RequiredType(name: string): string
  {
    if name == "httpStatusCode" then "number" else "string"
  }

  /**
   * `isHitmanApiError`, written as the source's sequence of `typeof` and
   * truthiness tests; it holds exactly for an object whose `response.data` is
   * an object with the four typed fields.
   */
  function IsHitmanApiError(error: JsValue): (r: bool)
    ensures r <==>
      && error.Obj?
      && ResponseData(error).Obj?
      && Get(ResponseData(error), "httpStatusCode").Num?
      && Get(ResponseData(error), "code").Str?
      && Get(ResponseData(error), "message").Str?
      && Get(ResponseData(error), "fingerprint").Str?
  {
    if TypeOf(error) != "object" || error == Null then false
    else
      var data := ResponseData(error);
      if !Truthy(data) || TypeOf(data) != "object" then false
      else
        && TypeOf(Get(data, "httpStatusCode")) == "number"
        && TypeOf(Get(data, "code")) == "string"
        && TypeOf(Get(data, "message")) == "string"
        && TypeOf(Get(data, "fingerprint")) == "string"
  }

  /** The error body the recognizer accepts, read out of `error.response.data`. */
  function AsApiError(error: JsValue): (r: Option<ApiError>)
    ensures r.Some? <==> IsHitmanApiError(error)
    ensures r.Some? ==>
      var data := ResponseData(error);
      && Get(data, "httpStatusCode") == Num(r.value.httpStatusCode)
      && Get(data, "code") == Str(r.value.code)
      && Get(data, "message") == Str(r.value.message)
      && Get(data, "fingerprint") == Str(r.value.fingerprint)
      && Get(data, "details") == r.value.details
  {
    if !IsHitmanApiError(error) then None
    else
      var data := ResponseData(error);
      Some(ApiError(
        Get(data, "httpStatusCode").n,
        Get(data, "code").s,
        Get(data, "message").s,
        Get(data, "fingerprint").s,
        Get(data, "details")))
  }

  /** The properties of an error body, over any `extra` ones. */
  function BodyProps(d: ApiError, extra: map<string, JsValue>): map<string, JsValue>
  {
    extra["httpStatusCode" := Num(d.httpStatusCode)]["code" := Str(d.code)]
      ["message" := Str(d.message)]["fingerprint" := Str(d.fingerprint)]["details" := d.details]
  }

  /** A rejected request carrying the error body `props` as `response.data`. */
  function Rejection(props: map<string, JsValue>, isError: bool): JsValue
  {
    Obj(map["response" := Obj(map["data" := Obj(props, false)], false)], isError)
  }

  /** Every well-typed body is recognised and read back unchanged; extra fields do not matter. */
  lemma RecognizeRoundTrip(d: ApiError, extra: map<string, JsValue>, isError: bool)
    ensures AsApiError(Rejection(BodyProps(d, extra), isError)) == Some(d)
  {
    var e := Rejection(BodyProps(d, extra), isError);
    assert ResponseData(e) == Obj(BodyProps(d, extra), false);
  }

  /** A body with one required field of the wrong type, or missing, is rejected. */
  lemma {:induction false} PartialMatchRejected(d: ApiError, extra: map<string, JsValue>, k: nat, v: JsValue, isError: bool)
    requires k < |Required|
    requires TypeOf(v) != RequiredType(Required[k])
    ensures !IsHitmanApiError(Rejection(BodyProps(d, extra)[Required[k] := v], isError))
    ensures !IsHitmanApiError(Rejection(BodyProps(d, extra) - {Required[k]}, isError))
  {
    var name := Required[k];
    var e1 := Rejection(BodyProps(d, extra)[name := v], isError);
    var e2 := Rejection(BodyProps(d, extra) - {name}, isError);
    assert Get(ResponseData(e1), name) == v;
    assert Get(ResponseData(e2), name) == Undefined;
  }

  /** Non-objects and `null` are never recognised, nor is an object without an object `response.data`. */
  lemma NotObjectRejected(error: JsValue)
    requires !error.Obj? || !ResponseData(error).Obj?
    ensures !IsHitmanApiError(error)
  {
  }
}
