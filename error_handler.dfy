/**
 * The global API error handler: which notification a rejected request
 * produces, and the keyed "error details" panel behind its button.
 */
module ErrorHandler {
  import opened Options
  import opened ApiErrors

  datatype Level = ErrorLevel | InfoLevel

  /** One line of a recognised error's notification body. */
  datatype Part = MessageLine(text: string) | FingerprintLine(fingerprint: string)

  datatype Description =
    | Lines(parts: seq<Part>)
    | Plain(value: JsValue)
    | DetailsPanel(code: string, message: string, fingerprint: string, details: Option<JsValue>)

  /**
   * One call to the notification API. `key` is `None` when the caller gives
   * none; `showDetails` is the error a "Show Details" button would open.
   */
  datatype Notice = Notice(
    level: Level,
    key: Option<string>,
    title: string,
    description: Description,
    duration: int,
    placement: string,
    showDetails: Option<ApiError>)

  const DetailsKey := "error-details"
  const Fallback := "An unexpected error occurred"

  /** The body lines of a recognised error: its message, then its fingerprint when non-empty. */
  function DescriptionParts(d: ApiError): (parts: seq<Part>)
    ensures |parts| >= 1 && parts[0] == MessageLine(d.message)
    ensures (exists i :: 0 <= i < |parts| && parts[i].FingerprintLine?) <==> d.fingerprint != ""
    ensures forall i :: 0 <= i < |parts| && parts[i].FingerprintLine? ==>
      parts[i].fingerprint == d.fingerprint
  {
    var parts := [MessageLine(d.message)];
    if Truthy(Str(d.fingerprint)) then
      var withFingerprint := parts + [FingerprintLine(d.fingerprint)];
      assert withFingerprint[1].FingerprintLine?;
      withFingerprint
    else parts
  }

  /** `error.message` of an `Error` instance; `Error.prototype.message` is the empty string. */
  function ErrorMessage(error: JsValue): JsValue
  {
    if error.Obj? && "message" in error.props then error.props["message"] else Str("")
  }

  /** The notification `handleApiError` emits for a rejected value. */
  function ErrorNotice(error: JsValue): (n: Notice)
    ensures n.level == ErrorLevel && n.title == "Error" && n.placement == "topRight"
    ensures n.key.None?
    ensures n.duration == (if IsHitmanApiError(error) then 6 else 4)
    ensures n.showDetails.Some? <==> IsHitmanApiError(error) && Truthy(Get(ResponseData(error), "details"))
    ensures n.showDetails.Some? ==> AsApiError(error) == n.showDetails
    ensures IsHitmanApiError(error) ==> n.description == Lines(DescriptionParts(AsApiError(error).value))
    ensures !IsHitmanApiError(error) && error.Obj? && error.isError ==>
      n.description == Plain(ErrorMessage(error))
    ensures !IsHitmanApiError(error) && !(error.Obj? && error.isError) ==>
      n.description == Plain(Str(Fallback))
  {
    match AsApiError(error)
    case Some(d) =>
      Notice(ErrorLevel, None, "Error", Lines(DescriptionParts(d)), 6, "topRight",
        if Truthy(d.details) then Some(d) else None)
    case None =>
      var message := if error.Obj? && error.isError then ErrorMessage(error) else Str(Fallback);
      Notice(ErrorLevel, None, "Error", Plain(message), 4, "topRight", None)
  }

  /** The panel `showErrorDetails` opens: never auto-closing, under the fixed key. */
  function DetailsNotice(d: ApiError): (n: Notice)
    ensures n.level == InfoLevel && n.key == Some(DetailsKey) && n.duration == 0
    ensures n.description.DetailsPanel?
    ensures n.description.code == d.code && n.description.message == d.message
    ensures n.description.fingerprint == d.fingerprint
    ensures n.description.details.Some? <==> Truthy(d.details)
    ensures n.description.details.Some? ==> n.description.details.value == d.details
  {
    Notice(InfoLevel, Some(DetailsKey), "Error Details",
      DetailsPanel(d.code, d.message, d.fingerprint, if Truthy(d.details) then Some(d.details) else None),
      0, "topRight", None)
  }

  /** `notification.destroy(key)`: every displayed notice under `key` goes, the rest keep their order. */
  function WithoutKey(shown: seq<Notice>, key: string): (r: seq<Notice>)
    ensures |r| <= |shown|
    ensures forall i :: 0 <= i < |r| ==> r[i].key != Some(key) && r[i] in shown
    ensures forall i :: 0 <= i < |shown| && shown[i].key != Some(key) ==> shown[i] in r
  {
    if shown == [] then []
    else
      var rest := WithoutKey(shown[1..], key);
      assert forall i :: 1 <= i < |shown| ==> shown[i] == shown[1..][i - 1];
      if shown[0].key == Some(key) then rest else [shown[0]] + rest
  }

  /** Destroying a key keeps every other notice exactly as often as it was displayed. */
  lemma {:induction false} WithoutKeyCounts(shown: seq<Notice>, key: string)
    ensures forall n :: multiset(WithoutKey(shown, key))[n] == (if n.key == Some(key) then 0 else multiset(shown)[n])
  {
    if shown != [] {
      WithoutKeyCounts(shown[1..], key);
      assert shown == [shown[0]] + shown[1..];
    }
  }

  /** Destroying a key acts on each part of the display separately, so the survivors keep their relative order. */
  lemma {:induction false} WithoutKeyConcat(a: seq<Notice>, b: seq<Notice>, key: string)
    ensures WithoutKey(a + b, key) == WithoutKey(a, key) + WithoutKey(b, key)
  {
    if a == [] {
      assert a + b == b;
    } else {
      var ab := a + b;
      assert ab != [] && ab[0] == a[0] && ab[1..] == a[1..] + b;
      WithoutKeyConcat(a[1..], b, key);
      if a[0].key == Some(key) {
        assert WithoutKey(ab, key) == WithoutKey(ab[1..], key);
      } else {
        assert WithoutKey(ab, key) == [a[0]] + WithoutKey(ab[1..], key);
        assert WithoutKey(a, key) == [a[0]] + WithoutKey(a[1..], key);
      }
    }
  }

  /** The notification area: every notice emitted so far, and those still displayed. */
  class Notifier {
    var emitted: seq<Notice>
    var shown: seq<Notice>

    constructor ()
      ensures emitted == [] && shown == []
    {
      emitted := [];
      shown := [];
    }

    /** `handleApiError`: exactly one error notice per call. */
    method HandleApiError(error: JsValue)
      modifies this
      ensures emitted == old(emitted) + [ErrorNotice(error)]
      ensures shown == old(shown) + [ErrorNotice(error)]
    {
      var n := ErrorNotice(error);
      emitted := emitted + [n];
      shown := shown + [n];
    }

    /** `showErrorDetails`: close any open details panel, then open the new one. */
    method ShowErrorDetails(d: ApiError)
      modifies this
      ensures emitted == old(emitted) + [DetailsNotice(d)]
      ensures shown == WithoutKey(old(shown), DetailsKey) + [DetailsNotice(d)]
      ensures forall i :: 0 <= i < |shown| - 1 ==> shown[i].key != Some(DetailsKey)
      ensures shown[|shown| - 1] == DetailsNotice(d)
    {
      shown := WithoutKey(shown, DetailsKey);
      var n := DetailsNotice(d);
      emitted := emitted + [n];
      shown := shown + [n];
    }
  }

  /** The upstream error from the handler's test suite, with and without `details`. */
  const SampleError := ApiError(400, "invalid.request_body", "Empty or invalid request body",
    "b466d36cfec1fe03", Str("Some detailed error message"))

  /** The handler's tests for a recognised error carrying `details`: longer duration, a "Show Details" action. */
  lemma HandlerScenariosWithDetails()
    ensures ErrorNotice(Rejection(BodyProps(SampleError, map[]), false)).duration == 6
    ensures ErrorNotice(Rejection(BodyProps(SampleError, map[]), false)).showDetails == Some(SampleError)
  {
    RecognizeRoundTrip(SampleError, map[], false);
  }

  /** The handler's test for a recognised error without `details`: no action. */
  lemma HandlerScenariosWithoutDetails()
    ensures ErrorNotice(Rejection(BodyProps(SampleError.(details := Undefined), map[]), false)).showDetails.None?
  {
    RecognizeRoundTrip(SampleError.(details := Undefined), map[], false);
  }

  /** The handler's tests for errors it does not recognise: an `Error`'s message, else the fallback text. */
  lemma HandlerScenariosUnrecognised()
    ensures ErrorNotice(Obj(map["message" := Str("Network error")], true)) ==
      Notice(ErrorLevel, None, "Error", Plain(Str("Network error")), 4, "topRight", None)
    ensures ErrorNotice(Obj(map["someField" := Str("someValue")], false)).description == Plain(Str(Fallback))
    ensures ErrorNotice(Obj(map["response" := Obj(map[], false)], false)).description == Plain(Str(Fallback))
  {
  }
}
