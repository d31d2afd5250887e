/** A call a request function makes on the HTTP client: verb, target and body.
    None of the modelled request functions passes options, so every call goes out
    with the default options. */
module Endpoint {
  import opened Wrappers
  import opened JsonModel
  import opened SearchParams
  import Http

  datatype ApiCall = ApiCall(verb: Http.Verb, target: Target, body: Option<Json>)

  /** A GET call, which has no body. */
  function GetCall(t: Target): (c: ApiCall)
    ensures c.verb == Http.GET && c.target == t && c.body.None?
  {
    ApiCall(Http.GET, t, None)
  }

  /** The request the HTTP client would send for `call`. */
  method Send(call: ApiCall, encode: string -> string, env: Http.Env, token: Option<string>) returns (r: Http.Request)
    ensures r.verb == call.verb
    ensures r.url == Http.GetURL(Render(call.target, encode), Http.UrlOptions(None, None), env)
    ensures call.verb == Http.GET ==> r.headers == Http.HeaderSpec([], false, token) && r.body == Http.NoBody
    ensures call.verb != Http.GET ==>
      && r.headers == Http.HeaderSpec([], false, token)
      && r.body == if call.body.Some? then Http.JsonText(Http.JsonValue(call.body.value)) else Http.NoBody
  {
    var url := Render(call.target, encode);
    if call.verb == Http.GET {
      r := Http.FetchGet(url, Http.NoOptions, env, token);
    } else {
      var payload := if call.body.Some? then Some(Http.JsonValue(call.body.value)) else None;
      r := Http.FetchWithBody(call.verb, url, payload, Http.NoOptions, env, token);
    }
  }
}
