// The gateway's view of an HTTP exchange: the incoming request, the error
// response a filter writes, and the outcome of one filter.

module Http {
  import opened Common

  /** Header name to its list of values. Header names are compared without
    * regard to ASCII case, so the map is keyed by the lower-cased name and
    * every lookup and update below folds the name it is given. */
  type Headers = map<string, seq<string>>

  datatype Request = Request(
    verb: string,
    path: string,
    headers: Headers,
    remoteAddress: Option<string>)   // host address of the peer, if known

  /** The key a header name is stored under: its ASCII lower case, letter
    * by letter (the same string as `ToLower`, see `HeaderKeyIsLowerCase`). */
  function HeaderKey(name: string): (k: string)
    ensures |k| == |name| && forall i :: 0 <= i < |name| ==> k[i] == LowerChar(name[i])
  {
    seq(|name|, i requires 0 <= i < |name| => LowerChar(name[i]))
  }

  lemma HeaderKeyIsLowerCase(name: string)
    ensures HeaderKey(name) == ToLower(name)
  {
    assert forall i :: 0 <= i < |name| ==> HeaderKey(name)[i] == ToLower(name)[i];
  }

  /** HttpHeaders.containsKey. */
  predicate Has(h: Headers, name: string)
  {
    HeaderKey(name) in h
  }

  /** HttpHeaders.getFirst: the first value, or null (None). */
  function GetFirst(h: Headers, name: string): (r: Option<string>)
    ensures r.Some? <==> Has(h, name) && |h[HeaderKey(name)]| > 0
    ensures r.Some? ==> r.value == h[HeaderKey(name)][0]
  {
    var k := HeaderKey(name);
    if k in h && |h[k]| > 0 then Some(h[k][0]) else None
  }

  /** HttpHeaders.put: the header now holds exactly `values`; a header whose
    * name differs from `name` in more than letter case is left alone. */
  function Put(h: Headers, name: string, values: seq<string>): (h': Headers)
    ensures Has(h', name) && h'[HeaderKey(name)] == values
    ensures forall n :: HeaderKey(n) != HeaderKey(name) ==>
      (Has(h', n) <==> Has(h, n)) && (Has(h, n) ==> h'[HeaderKey(n)] == h[HeaderKey(n)])
  {
    h[HeaderKey(name) := values]
  }

  /** ServerHttpRequest.Builder.header(name, value): the header now holds
    * exactly that one value, whatever it held before. */
  function WithHeader(r: Request, name: string, value: string): (r': Request)
    ensures r'.verb == r.verb && r'.path == r.path && r'.remoteAddress == r.remoteAddress
    ensures GetFirst(r'.headers, name) == Some(value) && r'.headers[HeaderKey(name)] == [value]
    ensures forall n :: HeaderKey(n) != HeaderKey(name) ==>
      (Has(r'.headers, n) <==> Has(r.headers, n))
      && (Has(r.headers, n) ==> r'.headers[HeaderKey(n)] == r.headers[HeaderKey(n)])
  {
    r.(headers := Put(r.headers, name, [value]))
  }

  /** Two spellings of a name that differ only in ASCII letter case denote
    * the same header: a value set under one is read back under the other. */
  lemma HeaderNamesIgnoreCase(r: Request, a: string, b: string, value: string)
    requires |a| == |b| && forall i :: 0 <= i < |a| ==> LowerChar(a[i]) == LowerChar(b[i])
    ensures Has(WithHeader(r, a, value).headers, b)
    ensures GetFirst(WithHeader(r, a, value).headers, b) == Some(value)
  {
    assert HeaderKey(a) == HeaderKey(b);
  }

  datatype Response = Response(status: nat, headers: seq<(string, string)>, body: string)

  const BodyPrefix: string := "{\"success\":false,\"message\":\""
  const BodySuffix: string := "\"}"

  /** The JSON error body every gateway filter writes:
    * `{"success":false,"message":"<message>"}`, the message inserted as is. */
  function ErrorBody(message: string): string
  {
    BodyPrefix + message + BodySuffix
  }

  /** Reads the message back out of an error body. */
  function MessageOf(body: string): (r: Option<string>)
    ensures r.Some? ==> |BodyPrefix| + |BodySuffix| <= |body|
  {
    if |BodyPrefix| + |BodySuffix| <= |body|
       && StartsWith(body, BodyPrefix) && EndsWith(body, BodySuffix)
    then Some(body[|BodyPrefix|..|body| - |BodySuffix|])
    else None
  }

  lemma ErrorBodyRoundTrip(message: string)
    ensures MessageOf(ErrorBody(message)) == Some(message)
  {
    var b := ErrorBody(message);
    assert b[..|BodyPrefix|] == BodyPrefix;
    assert b[|b| - |BodySuffix|..] == BodySuffix;
    assert b[|BodyPrefix|..|b| - |BodySuffix|] == message;
  }

  /** An error response of a filter: the status, a JSON content type and the
    * error body. */
  function JsonError(status: nat, message: string): (r: Response)
    ensures r.status == status && ("Content-Type", "application/json") in r.headers
    ensures MessageOf(r.body) == Some(message)
  {
    ErrorBodyRoundTrip(message);
    Response(status, [("Content-Type", "application/json")], ErrorBody(message))
  }

  /** What a gateway filter does with a request: pass it (possibly rewritten)
    * down the chain, answer it itself, or throw. */
  datatype FilterResult =
    | Forward(request: Request)
    | Reject(response: Response)
    | Crash(exception: string)
}
