/** The dashboard's HTTP client (frontend/src/apis/http.ts): header composition,
    body encoding, base-URL choice and the status rule that turns a response into
    an `ApiResponseError`. The network call itself, the cookie read and the
    JSON parsing of responses are not part of this model: the cookie's token and
    the build-time base URL are parameters, and `JSON.stringify` is kept as an
    uninterpreted tag on the body. */
module Http {
  import opened Wrappers
  import opened Assoc
  import opened FetchHeaders
  import opened Decimal
  import opened JsonModel

  datatype Verb = GET | POST | PUT | PATCH | DELETE

  // ---------------------------------------------------------------- errors

  const DefaultErrorMessage: string := "Oops! Something went wrong"
  const FallbackErrorMessage: string := "Something went wrong!"
  const DefaultErrorCode: int := 400
  const UndefinedStatusCode: int := 501

  datatype ApiResponseError = ApiResponseError(name: string, message: string, code: int)

  /** `new ApiResponseError(message, code)`: an empty message becomes the default
      text and an omitted code becomes 400. */
  function NewApiResponseError(message: string, code: Option<int>): (e: ApiResponseError)
    ensures e.name == "ApiResponseError"
    ensures e.message != ""
    ensures message != "" ==> e.message == message
    ensures message == "" ==> e.message == DefaultErrorMessage
    ensures code.Some? ==> e.code == code.value
    ensures code.None? ==> e.code == DefaultErrorCode
  {
    ApiResponseError("ApiResponseError", if message == "" then DefaultErrorMessage else message, code.GetOr(DefaultErrorCode))
  }

  /** The test `/^(2|3)[0-9][0-9]$/` applied to a string. */
  predicate MatchesStatusPattern(s: string) {
    |s| == 3 && (s[0] == '2' || s[0] == '3') && IsDigit(s[1]) && IsDigit(s[2])
  }

  /** `String(httpStatusCode)`; an absent status prints as "undefined". */
  function StatusText(status: Option<int>): string {
    match status
    case Some(n) => IntToString(n)
    case None => "undefined"
  }

  /** The pattern test on the printed status accepts exactly 200..399, the
      successful (2xx) and redirection (3xx) classes of section 15 of RFC 9110. */
  lemma {:induction false} StatusPatternExactly2xx3xx(s: int)
    ensures MatchesStatusPattern(IntToString(s)) <==> 200 <= s <= 399
  {
    if s >= 0 {
      ThreeDigits(s);
      var t := NatToString(s);
      if |t| == 3 {
        assert t[0] == DigitChar(s / 100);
        assert DigitValue(t[0]) == s / 100;
      }
    }
  }

  lemma StatusTextPattern(status: Option<int>)
    ensures MatchesStatusPattern(StatusText(status)) <==> status.Some? && 200 <= status.value <= 399
  {
    if status.Some? {
      StatusPatternExactly2xx3xx(status.value);
    }
  }

  /** `handleError(httpStatusCode, response)`: the error it throws, if any.
      `message` is `response?.message`. */
  function HandleError(status: Option<int>, message: Option<string>): (r: Option<ApiResponseError>)
    ensures r.None? <==> status.Some? && 200 <= status.value <= 399
    ensures r.Some? ==> r.value.code == status.GetOr(UndefinedStatusCode)
    ensures r.Some? && message.Some? && message.value != "" ==> r.value.message == message.value
    ensures r.Some? && (message.None? || message.value == "") ==> r.value.message == FallbackErrorMessage
  {
    StatusTextPattern(status);
    if !MatchesStatusPattern(StatusText(status)) then
      var text := if message.Some? && message.value != "" then message.value else FallbackErrorMessage;
      Some(NewApiResponseError(text, Some(status.GetOr(UndefinedStatusCode))))
    else None
  }

  /** Four-digit and negative statuses are always errors, and a thrown error's
      message is never the constructor's own default. */
  lemma HandleErrorOutsideRange(s: int, message: Option<string>)
    requires s < 0 || s >= 1000
    ensures HandleError(Some(s), message).Some?
    ensures HandleError(Some(s), message).value.code == s
    ensures HandleError(Some(s), message).value.message != DefaultErrorMessage || message == Some(DefaultErrorMessage)
  {
  }

  // ---------------------------------------------------------------- bodies

  /** A request body as a caller hands it over: a JSON-able value, or a
      multipart form (its file parts are not modelled). */
  datatype Payload = JsonValue(value: Json) | MultipartForm(fields: seq<(string, string)>)

  /** What `fetch` is given as `body`: nothing, the caller's object as is, or the
      text `JSON.stringify` makes of it (kept as an uninterpreted tag). */
  datatype SentBody = NoBody | AsIs(payload: Payload) | JsonText(payload: Payload)

  /** The payload a sent body was made from. */
  function SentPayload(b: SentBody): Option<Payload> {
    match b
    case NoBody => None
    case AsIs(p) => Some(p)
    case JsonText(p) => Some(p)
  }

  /** `getBody(body, hasFiles)`: the body unchanged with files, its JSON text
      otherwise (`JSON.stringify(undefined)` is `undefined`, so no body). */
  function GetBody(body: Option<Payload>, hasFiles: bool): (r: SentBody)
    ensures SentPayload(r) == body
    ensures r.JsonText? <==> body.Some? && !hasFiles
    ensures r.AsIs? <==> body.Some? && hasFiles
  {
    match body
    case None => NoBody
    case Some(p) => if hasFiles then AsIs(p) else JsonText(p)
  }

  // ---------------------------------------------------------------- URLs

  /** The build environment: `API_URL` and `API_MOCK_URL` are both read from
      `NEXT_PUBLIC_API_URL`, which may be unset. */
  datatype Env = Env(nextPublicApiUrl: Option<string>)

  function ApiUrl(env: Env): Option<string> {
    env.nextPublicApiUrl
  }

  function ApiMockUrl(env: Env): Option<string> {
    env.nextPublicApiUrl
  }

  /** JavaScript's `+` on a possibly undefined string. */
  function JsText(o: Option<string>): string {
    match o
    case Some(s) => s
    case None => "undefined"
  }

  datatype UrlOptions = UrlOptions(baseURL: Option<string>, isMockedURL: Option<bool>)

  /** `getURL(url, options)`: the mock base when `isMockedURL`, else a non-empty
      `baseURL`, else `API_URL`; then the path appended. */
  function GetURL(url: string, options: UrlOptions, env: Env): (r: string)
    ensures |r| >= |url| && r[|r| - |url|..] == url
    ensures options.isMockedURL == Some(true) ==> r == JsText(ApiMockUrl(env)) + url
    ensures options.isMockedURL != Some(true) && options.baseURL.Some? && options.baseURL.value != "" ==>
      r == options.baseURL.value + url
    ensures options.isMockedURL != Some(true) && (options.baseURL.None? || options.baseURL.value == "") ==>
      r == JsText(ApiUrl(env)) + url
  {
    var base :=
      if options.isMockedURL == Some(true) then JsText(ApiMockUrl(env))
      else if options.baseURL.Some? && options.baseURL.value != "" then options.baseURL.value
      else JsText(ApiUrl(env));
    base + url
  }

  /** Since both constants come from the same variable, asking for the mock base
      gives the same URL as asking for nothing, whatever `baseURL` says. */
  lemma MockedEqualsDefault(url: string, baseURL: Option<string>, env: Env)
    ensures GetURL(url, UrlOptions(baseURL, Some(true)), env) == GetURL(url, UrlOptions(None, None), env)
  {
  }

  // ---------------------------------------------------------------- headers

  /** Appending every `(name, value)` of `extra`, in order, as `forEach` does. */
  function AppendAll(es: seq<Entry>, extra: seq<Entry>): seq<Entry>
    decreases |extra|
  {
    if extra == [] then es
    else
      var last := extra[|extra| - 1];
      AppendEntry(AppendAll(es, extra[..|extra| - 1]), Lower(last.0), last.1)
  }

  /** The value of a header after the caller's value, if any, has been appended
      to the one already there. */
  function MergedValue(prior: Option<string>, added: Option<string>): Option<string> {
    match added
    case None => prior
    case Some(v) => Some(Combined(prior, v))
  }

  /** Appending anything keeps a header list well formed. */
  lemma {:induction false} AppendAllWellFormed(es: seq<Entry>, extra: seq<Entry>)
    requires WellFormed(es)
    ensures WellFormed(AppendAll(es, extra))
    decreases |extra|
  {
    if extra != [] {
      var last := extra[|extra| - 1];
      AppendAllWellFormed(es, extra[..|extra| - 1]);
      LowerIdempotent(last.0);
      AppendEntryFacts(AppendAll(es, extra[..|extra| - 1]), Lower(last.0), last.1, "");
    }
  }

  /** Appending a well-formed header list into another combines the two per name. */
  lemma {:induction false} AppendAllLookup(es: seq<Entry>, extra: seq<Entry>, n: string)
    requires WellFormed(es) && WellFormed(extra)
    ensures Lookup(AppendAll(es, extra), n) == MergedValue(Lookup(es, n), Lookup(extra, n))
    decreases |extra|
  {
    if extra != [] {
      var init, last := extra[..|extra| - 1], extra[|extra| - 1];
      assert extra == init + [last];
      assert WellFormed(init) by {
        assert forall i :: 0 <= i < |init| ==> init[i] == extra[i];
      }
      AppendAllLookup(es, init, n);
      AppendAllWellFormed(es, init);
      assert Lower(last.0) == last.0;
      AppendEntryFacts(AppendAll(es, init), last.0, last.1, n);
      LookupSnoc(init, last, n);
      if last.0 == n {
        assert Lookup(init, n).None?;
      }
    }
  }

  /** The names already present keep their places at the front. */
  lemma {:induction false} AppendAllKeepsPrefix(es: seq<Entry>, extra: seq<Entry>)
    ensures |AppendAll(es, extra)| >= |es| && Keys(AppendAll(es, extra))[..|es|] == Keys(es)
    decreases |extra|
  {
    if extra != [] {
      var init, last := extra[..|extra| - 1], extra[|extra| - 1];
      AppendAllKeepsPrefix(es, init);
      var before := AppendAll(es, init);
      var after := AppendEntry(before, Lower(last.0), last.1);
      assert Keys(after)[..|before|] == Keys(before);
      assert Keys(after)[..|es|] == Keys(before)[..|es|];
    }
  }

  const AcceptName: string := "accept"
  const ContentTypeName: string := "content-type"
  const AuthorizationName: string := "authorization"
  const JsonMediaType: string := "application/json"

  lemma DefaultNamesLowered()
    ensures Lower("Accept") == AcceptName
    ensures Lower("Content-Type") == ContentTypeName
    ensures Lower("Authorization") == AuthorizationName
  {
  }

  /** The two defaults, `Accept` then `Content-Type`. */
  function DefaultHeaders(): seq<Entry> {
    AppendEntry(AppendEntry([], AcceptName, JsonMediaType), ContentTypeName, JsonMediaType)
  }

  /** A cookie value JavaScript treats as true: present and non-empty. */
  predicate HasToken(token: Option<string>) {
    token.Some? && token.value != ""
  }

  /** The header list `getHeader` returns, for the caller's header list, the
      `hasFiles` flag and the cookie's token. */
  function HeaderSpec(caller: seq<Entry>, hasFiles: bool, token: Option<string>): seq<Entry> {
    var kept := KeptHeaders(caller, hasFiles);
    if HasToken(token) then AppendEntry(kept, AuthorizationName, "Token " + token.value) else kept
  }

  /** The defaults with the caller's headers appended, `Content-Type` dropped for files. */
  function KeptHeaders(caller: seq<Entry>, hasFiles: bool): seq<Entry> {
    var merged := AppendAll(DefaultHeaders(), caller);
    if hasFiles then Remove(merged, ContentTypeName) else merged
  }

  /** `getHeader(headers, hasFiles)`. A `null` caller list is skipped; an omitted
      one defaults to an empty `Headers`, which appends nothing either. */
  method GetHeader(headers: Headers?, hasFiles: bool, token: Option<string>) returns (h: Headers)
    requires headers != null ==> headers.Valid()
    ensures fresh(h) && h.Valid()
    ensures h.entries == HeaderSpec(if headers == null then [] else headers.entries, hasFiles, token)
  {
    DefaultNamesLowered();
    h := new Headers();
    h.Append("Accept", JsonMediaType);
    h.Append("Content-Type", JsonMediaType);
    assert h.entries == DefaultHeaders();
    var caller: seq<Entry> := if headers == null then [] else headers.entries;
    if headers != null {
      var i := 0;
      while i < |caller|
        invariant 0 <= i <= |caller|
        invariant h.Valid() && fresh(h)
        invariant h.entries == AppendAll(DefaultHeaders(), caller[..i])
      {
        assert caller[..i + 1][..i] == caller[..i];
        h.Append(caller[i].0, caller[i].1);
        i := i + 1;
      }
      assert caller[..i] == caller;
    }
    assert h.entries == AppendAll(DefaultHeaders(), caller);
    if hasFiles {
      h.Delete("Content-Type");
    }
    assert h.entries == KeptHeaders(caller, hasFiles);
    if HasToken(token) {
      h.Append("Authorization", "Token " + token.value);
    }
  }

  /** `Accept: application/json` is always sent; a caller's `Accept` is combined
      with it, never substituted. */
  lemma AcceptAlwaysSent(caller: seq<Entry>, hasFiles: bool, token: Option<string>)
    requires WellFormed(caller)
    ensures Lookup(HeaderSpec(caller, hasFiles, token), AcceptName) ==
      MergedValue(Some(JsonMediaType), Lookup(caller, AcceptName))
    ensures WellFormed(HeaderSpec(caller, hasFiles, token))
  {
    SpecFacts(caller, hasFiles, token, AcceptName);
  }

  /** `Content-Type` is absent exactly when files are sent, even if the caller
      supplied one; otherwise it is the JSON type combined with the caller's. */
  lemma ContentTypeAbsentIffFiles(caller: seq<Entry>, hasFiles: bool, token: Option<string>)
    requires WellFormed(caller)
    ensures Lookup(HeaderSpec(caller, hasFiles, token), ContentTypeName).None? <==> hasFiles
    ensures !hasFiles ==>
      (Lookup(HeaderSpec(caller, hasFiles, token), ContentTypeName) ==
       MergedValue(Some(JsonMediaType), Lookup(caller, ContentTypeName)))
  {
    SpecFacts(caller, hasFiles, token, ContentTypeName);
  }

  /** The token is sent exactly when the cookie holds one; it is appended after
      everything else, so with no caller `Authorization` it is the last entry. */
  lemma AuthorizationIffToken(caller: seq<Entry>, hasFiles: bool, token: Option<string>)
    requires WellFormed(caller)
    ensures Lookup(HeaderSpec(caller, hasFiles, token), AuthorizationName) ==
      if HasToken(token)
      then Some(Combined(Lookup(caller, AuthorizationName), "Token " + token.value))
      else Lookup(caller, AuthorizationName)
    ensures HasToken(token) && Lookup(caller, AuthorizationName).None? ==>
      var spec := HeaderSpec(caller, hasFiles, token);
      spec[|spec| - 1] == (AuthorizationName, "Token " + token.value)
  {
    SpecFacts(caller, hasFiles, token, AuthorizationName);
  }

  /** Any other caller header is passed through as given. */
  lemma OtherHeadersPassThrough(caller: seq<Entry>, hasFiles: bool, token: Option<string>, n: string)
    requires WellFormed(caller)
    requires n != AcceptName && n != ContentTypeName && n != AuthorizationName
    ensures Lookup(HeaderSpec(caller, hasFiles, token), n) == Lookup(caller, n)
  {
    SpecFacts(caller, hasFiles, token, n);
  }

  /** `Accept` stays the first header. */
  lemma AcceptComesFirst(caller: seq<Entry>, hasFiles: bool, token: Option<string>)
    requires WellFormed(caller)
    ensures |HeaderSpec(caller, hasFiles, token)| >= 1 && HeaderSpec(caller, hasFiles, token)[0].0 == AcceptName
  {
    SpecFacts(caller, hasFiles, token, AcceptName);
  }

  /** The value each header name ends up with, stated name by name: the
      reference the composed header list is checked against. */
  function ExpectedHeader(caller: seq<Entry>, hasFiles: bool, token: Option<string>, n: string): Option<string> {
    if n == AuthorizationName && HasToken(token) then Some(Combined(Lookup(caller, n), "Token " + token.value))
    else if n == ContentTypeName && hasFiles then None
    else if n == AcceptName || n == ContentTypeName then MergedValue(Some(JsonMediaType), Lookup(caller, n))
    else Lookup(caller, n)
  }

  /** The two defaults with the caller's headers appended: well formed, `accept`
      first, and each name read as the caller's value merged into the default. */
  lemma MergedFacts(caller: seq<Entry>, n: string)
    requires WellFormed(caller)
    ensures var merged := AppendAll(DefaultHeaders(), caller);
      && WellFormed(merged)
      && |merged| >= 1 && merged[0].0 == AcceptName
      && Lookup(merged, n) ==
         if n == AcceptName || n == ContentTypeName then MergedValue(Some(JsonMediaType), Lookup(caller, n))
         else Lookup(caller, n)
  {
    var d := DefaultHeaders();
    DefaultsFacts(n);
    AppendAllWellFormed(d, caller);
    AppendAllLookup(d, caller, n);
    AppendAllKeepsPrefix(d, caller);
    assert Keys(AppendAll(d, caller))[0] == Keys(d)[0];
  }

  /** The defaults are `accept` then `content-type`, both JSON. */
  lemma DefaultsFacts(n: string)
    ensures DefaultHeaders() == [(AcceptName, JsonMediaType), (ContentTypeName, JsonMediaType)]
    ensures WellFormed(DefaultHeaders())
    ensures Lookup(DefaultHeaders(), n) == if n == AcceptName || n == ContentTypeName then Some(JsonMediaType) else None
  {
    var d := [(AcceptName, JsonMediaType), (ContentTypeName, JsonMediaType)];
    assert AppendEntry([], AcceptName, JsonMediaType) == [(AcceptName, JsonMediaType)];
    assert Lookup([(AcceptName, JsonMediaType)], ContentTypeName).None?;
    assert DefaultHeaders() == d;
    assert Lower(AcceptName) == AcceptName && Lower(ContentTypeName) == ContentTypeName;
  }

  /** Removing a name other than the first keeps the first entry in place. */
  lemma RemoveKeepsHead(es: seq<Entry>, name: string)
    requires |es| >= 1 && es[0].0 != name
    ensures |Remove(es, name)| >= 1 && Remove(es, name)[0] == es[0]
  {
    assert Remove(es, name) == [es[0]] + Remove(es[1..], name);
  }

  lemma KeptFacts(caller: seq<Entry>, hasFiles: bool, n: string)
    requires WellFormed(caller)
    ensures WellFormed(KeptHeaders(caller, hasFiles))
    ensures |KeptHeaders(caller, hasFiles)| >= 1 && KeptHeaders(caller, hasFiles)[0].0 == AcceptName
    ensures Lookup(KeptHeaders(caller, hasFiles), n) ==
      if n == ContentTypeName && hasFiles then None
      else if n == AcceptName || n == ContentTypeName then MergedValue(Some(JsonMediaType), Lookup(caller, n))
      else Lookup(caller, n)
  {
    MergedFacts(caller, n);
    var merged := AppendAll(DefaultHeaders(), caller);
    if hasFiles {
      DeleteFacts(merged, ContentTypeName, n);
      RemoveKeepsHead(merged, ContentTypeName);
    }
  }

  /** Appending the token to a well-formed list that starts with `accept`. */
  lemma AppendTokenFacts(kept: seq<Entry>, t: string, n: string)
    requires WellFormed(kept) && |kept| >= 1 && kept[0].0 == AcceptName
    ensures var spec := AppendEntry(kept, AuthorizationName, t);
      && WellFormed(spec)
      && |spec| >= 1 && spec[0].0 == AcceptName
      && Lookup(spec, n) == (if n == AuthorizationName then Some(Combined(Lookup(kept, n), t)) else Lookup(kept, n))
      && (Lookup(kept, AuthorizationName).None? ==> spec[|spec| - 1] == (AuthorizationName, t))
  {
    DefaultNamesLowered();
    LowerIdempotent("Authorization");
    AppendEntryFacts(kept, AuthorizationName, t, n);
    var spec := AppendEntry(kept, AuthorizationName, t);
    assert Keys(spec)[0] == Keys(kept)[0];
  }

  /** The composed header list agrees with `ExpectedHeader` on every name, is well
      formed, starts with `Accept` and, when the token is the only
      `Authorization`, ends with it. */
  lemma SpecFacts(caller: seq<Entry>, hasFiles: bool, token: Option<string>, n: string)
    requires WellFormed(caller)
    ensures WellFormed(HeaderSpec(caller, hasFiles, token))
    ensures |HeaderSpec(caller, hasFiles, token)| >= 1 && HeaderSpec(caller, hasFiles, token)[0].0 == AcceptName
    ensures Lookup(HeaderSpec(caller, hasFiles, token), n) == ExpectedHeader(caller, hasFiles, token, n)
    ensures n == AuthorizationName && HasToken(token) && Lookup(caller, n).None? ==>
      var spec := HeaderSpec(caller, hasFiles, token);
      spec[|spec| - 1] == (AuthorizationName, "Token " + token.value)
  {
    KeptFacts(caller, hasFiles, n);
    if HasToken(token) {
      KeptFacts(caller, hasFiles, AuthorizationName);
      AppendTokenFacts(KeptHeaders(caller, hasFiles), "Token " + token.value, n);
    }
  }

  // ---------------------------------------------------------------- requests

  /** `HTTPOptions`; `null` headers stand for none given. An omitted options
      object reads like one with every field undefined. */
  datatype HttpOptions = HttpOptions(baseURL: Option<string>, isMockedURL: Option<bool>, headers: Headers?, hasFiles: Option<bool>)

  const NoOptions: HttpOptions := HttpOptions(None, None, null, None)

  /** The request `fetch` is asked to send. */
  datatype Request = Request(verb: Verb, url: string, headers: seq<Entry>, body: SentBody)

  function CallerHeaders(options: HttpOptions): seq<Entry>
    reads options.headers
  {
    if options.headers == null then [] else options.headers.entries
  }

  /** `http.get`: never passes `hasFiles`, so the JSON content type is always sent. */
  method FetchGet(url: string, options: HttpOptions, env: Env, token: Option<string>) returns (r: Request)
    requires options.headers != null ==> options.headers.Valid()
    ensures r.verb == GET && r.body == NoBody
    ensures r.url == GetURL(url, UrlOptions(options.baseURL, options.isMockedURL), env)
    ensures r.headers == HeaderSpec(CallerHeaders(options), false, token)
  {
    var h := GetHeader(options.headers, false, token);
    r := Request(GET, GetURL(url, UrlOptions(options.baseURL, options.isMockedURL), env), h.entries, NoBody);
  }

  /** `http.post`, `http.put`, `http.patch` and `http.delete`, which differ only
      in the verb: the header list and the body both follow `hasFiles`. */
  method FetchWithBody(verb: Verb, url: string, body: Option<Payload>, options: HttpOptions, env: Env, token: Option<string>)
    returns (r: Request)
    requires verb != GET
    requires options.headers != null ==> options.headers.Valid()
    ensures r.verb == verb
    ensures r.url == GetURL(url, UrlOptions(options.baseURL, options.isMockedURL), env)
    ensures r.headers == HeaderSpec(CallerHeaders(options), options.hasFiles == Some(true), token)
    ensures r.body == GetBody(body, options.hasFiles == Some(true))
  {
    var hasFiles := options.hasFiles == Some(true);
    var h := GetHeader(options.headers, hasFiles, token);
    r := Request(verb, GetURL(url, UrlOptions(options.baseURL, options.isMockedURL), env), h.entries, GetBody(body, hasFiles));
  }

  /** A request without files declares the JSON body type (combined with the
      caller's own `Content-Type`, if any) and JSON-encodes its body; a file upload
      declares none, and the body then goes out as the caller built it. */
  lemma ContentTypeOfRequests(caller: seq<Entry>, token: Option<string>, body: Payload)
    requires WellFormed(caller)
    ensures Lookup(caller, ContentTypeName).None? ==> Lookup(HeaderSpec(caller, false, token), ContentTypeName) == Some(JsonMediaType)
    ensures Lookup(caller, ContentTypeName).Some? ==>
      Lookup(HeaderSpec(caller, false, token), ContentTypeName) == Some(JsonMediaType + ", " + Lookup(caller, ContentTypeName).value)
    ensures GetBody(Some(body), false) == JsonText(body)
    ensures Lookup(HeaderSpec(caller, true, token), ContentTypeName).None? && GetBody(Some(body), true) == AsIs(body)
  {
    ContentTypeAbsentIffFiles(caller, false, token);
    ContentTypeAbsentIffFiles(caller, true, token);
  }
}
