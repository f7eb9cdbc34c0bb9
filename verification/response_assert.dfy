/** `ResponseAssert`: AssertJ checks on an HTTP response. Each check first
    requires a non-null response, then either passes (returning the assert
    object, so checks chain) or throws, which ends the chain. */
module ResponseAssert {
  import opened Wrappers
  import opened JavaTypes

  /** The parts of a RestAssured `Response` the checks read: the status
      code, the body as a string, the content type and the headers. */
  datatype Response = Response(statusCode: Int32, body: string, contentType: string, headers: map<string, string>)

  datatype ResponseFailure =
    | ActualIsNull
    | StatusCodeMismatch(expectedStatus: Int32, actualStatus: Int32)
    | BodyMissing(expectedText: string, body: string)
    | ContentTypeMissing(expectedType: string, contentType: string)
    | HeaderMismatch(name: string, expectedValue: string, actualValue: Option<string>)
    | NotSuccess(status: Int32)
    | NotClientError(status: Int32)

  /** `sub` occurs in `s` starting at index `i`. */
  predicate OccursAt(s: string, sub: string, i: int) {
    0 <= i <= |s| - |sub| && s[i..i + |sub|] == sub
  }

  /** `String.contains`, by scanning the start positions from the left. */
  function Contains(s: string, sub: string): bool
    decreases |s|
  {
    if |sub| <= |s| && s[..|sub|] == sub then true
    else if |s| == 0 then false
    else Contains(s[1..], sub)
  }

  /** The scan finds an occurrence exactly when there is one. */
  lemma {:induction false} ContainsIff(s: string, sub: string)
    ensures Contains(s, sub) <==> exists i :: OccursAt(s, sub, i)
    decreases |s|
  {
    if |sub| <= |s| && s[..|sub|] == sub {
      assert OccursAt(s, sub, 0);
    } else if |s| > 0 {
      ContainsIff(s[1..], sub);
      if Contains(s[1..], sub) {
        var i :| OccursAt(s[1..], sub, i);
        assert s[1..][i..i + |sub|] == s[i + 1..i + 1 + |sub|];
        assert OccursAt(s, sub, i + 1);
      }
      if i :| OccursAt(s, sub, i) {
        assert i != 0;
        assert s[1..][i - 1..i - 1 + |sub|] == s[i..i + |sub|];
        assert OccursAt(s[1..], sub, i - 1);
      }
    }
  }

  /** `hasStatusCode`, ResponseAssert.java:19-28. */
  function HasStatusCode(actual: Option<Response>, expected: Int32): (r: Outcome<ResponseFailure>)
    ensures r.Pass? <==> actual.Some? && actual.value.statusCode == expected
    ensures actual.None? ==> r == Fail(ActualIsNull)
  {
    if actual.None? then Fail(ActualIsNull)
    else if actual.value.statusCode != expected then Fail(StatusCodeMismatch(expected, actual.value.statusCode))
    else Pass
  }

  /** `hasBodyContaining`, ResponseAssert.java:33-42. */
  function HasBodyContaining(actual: Option<Response>, expected: string): (r: Outcome<ResponseFailure>)
    ensures r.Pass? <==> actual.Some? && exists i :: OccursAt(actual.value.body, expected, i)
    ensures actual.None? ==> r == Fail(ActualIsNull)
  {
    if actual.None? then Fail(ActualIsNull)
    else
      ContainsIff(actual.value.body, expected);
      if !Contains(actual.value.body, expected) then Fail(BodyMissing(expected, actual.value.body))
      else Pass
  }

  /** `hasContentType`, ResponseAssert.java:47-56: a substring test, so
      "json" matches "application/json; charset=utf-8". */
  function HasContentType(actual: Option<Response>, expected: string): (r: Outcome<ResponseFailure>)
    ensures r.Pass? <==> actual.Some? && exists i :: OccursAt(actual.value.contentType, expected, i)
    ensures actual.None? ==> r == Fail(ActualIsNull)
  {
    if actual.None? then Fail(ActualIsNull)
    else
      ContainsIff(actual.value.contentType, expected);
      if !Contains(actual.value.contentType, expected) then Fail(ContentTypeMissing(expected, actual.value.contentType))
      else Pass
  }

  /** `hasHeader`, ResponseAssert.java:61-70: `value.equals(header(name))`,
      which is false for an absent header. */
  function HasHeader(actual: Option<Response>, name: string, value: string): (r: Outcome<ResponseFailure>)
    ensures r.Pass? <==> actual.Some? && name in actual.value.headers && actual.value.headers[name] == value
    ensures actual.None? ==> r == Fail(ActualIsNull)
    ensures actual.Some? && name !in actual.value.headers ==> r == Fail(HeaderMismatch(name, value, None))
  {
    if actual.None? then Fail(ActualIsNull)
    else
      var header := if name in actual.value.headers then Some(actual.value.headers[name]) else None;
      if header != Some(value) then Fail(HeaderMismatch(name, value, header))
      else Pass
  }

  /** `isSuccess`, ResponseAssert.java:75-84. */
  function IsSuccess(actual: Option<Response>): (r: Outcome<ResponseFailure>)
    ensures r.Pass? <==> actual.Some? && 200 <= actual.value.statusCode < 300
    ensures actual.None? ==> r == Fail(ActualIsNull)
  {
    if actual.None? then Fail(ActualIsNull)
    else if actual.value.statusCode < 200 || actual.value.statusCode >= 300 then Fail(NotSuccess(actual.value.statusCode))
    else Pass
  }

  /** `isClientError`, ResponseAssert.java:89-98. */
  function IsClientError(actual: Option<Response>): (r: Outcome<ResponseFailure>)
    ensures r.Pass? <==> actual.Some? && 400 <= actual.value.statusCode < 500
    ensures actual.None? ==> r == Fail(ActualIsNull)
  {
    if actual.None? then Fail(ActualIsNull)
    else if actual.value.statusCode < 400 || actual.value.statusCode >= 500 then Fail(NotClientError(actual.value.statusCode))
    else Pass
  }

  /** No response is both a success and a client error, and each of the two
      range checks agrees with the exact status it covers. */
  lemma StatusClassesExclusive(actual: Option<Response>, code: Int32)
    ensures !(IsSuccess(actual).Pass? && IsClientError(actual).Pass?)
    ensures HasStatusCode(actual, code).Pass? && 200 <= code < 300 ==> IsSuccess(actual).Pass?
    ensures HasStatusCode(actual, code).Pass? && 400 <= code < 500 ==> IsClientError(actual).Pass?
  {
  }

  /** One link of a chain `assertThat(response).check1().check2()...`. */
  datatype Check =
    | StatusCode(expected: Int32)
    | BodyContaining(text: string)
    | ContentType(text: string)
    | Header(name: string, value: string)
    | Success
    | ClientError

  function Run(actual: Option<Response>, check: Check): (r: Outcome<ResponseFailure>)
    ensures actual.None? ==> r == Fail(ActualIsNull)
  {
    match check
    case StatusCode(e) => HasStatusCode(actual, e)
    case BodyContaining(t) => HasBodyContaining(actual, t)
    case ContentType(t) => HasContentType(actual, t)
    case Header(n, v) => HasHeader(actual, n, v)
    case Success => IsSuccess(actual)
    case ClientError => IsClientError(actual)
  }

  /** A chain of checks: each returns the same assert object, and the first
      failure throws. */
  function Chain(actual: Option<Response>, checks: seq<Check>): Outcome<ResponseFailure>
    decreases |checks|
  {
    if checks == [] then Pass else AndThen(Run(actual, checks[0]), Chain(actual, checks[1..]))
  }

  /** A chain passes exactly when every check in it passes. */
  lemma {:induction false} ChainPassesIffAll(actual: Option<Response>, checks: seq<Check>)
    ensures Chain(actual, checks).Pass? <==> forall i :: 0 <= i < |checks| ==> Run(actual, checks[i]).Pass?
    decreases |checks|
  {
    if checks != [] {
      ChainPassesIffAll(actual, checks[1..]);
      assert forall i :: 1 <= i < |checks| ==> checks[i] == checks[1..][i - 1];
    }
  }

  /** A failing chain reports the failure of its first failing check. */
  lemma {:induction false} ChainFirstFailure(actual: Option<Response>, checks: seq<Check>, k: nat)
    requires k < |checks| && Run(actual, checks[k]).Fail?
    requires forall j :: 0 <= j < k ==> Run(actual, checks[j]).Pass?
    ensures Chain(actual, checks) == Run(actual, checks[k])
    decreases k
  {
    if k > 0 {
      assert Run(actual, checks[0]).Pass?;
      assert forall j :: 0 <= j < k - 1 ==> checks[1..][j] == checks[j + 1];
      ChainFirstFailure(actual, checks[1..], k - 1);
    }
  }

  /** Every non-empty chain on a null response fails with the null check. */
  lemma NullResponseFailsFirst(checks: seq<Check>)
    requires checks != []
    ensures Chain(None, checks) == Fail(ActualIsNull)
  {
    ChainFirstFailure(None, checks, 0);
  }
}
