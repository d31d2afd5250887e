/** Request functions for social events
    (frontend/src/apis/requests/socialEvent.requests.ts). */
module SocialEventRequests {
  import opened Wrappers
  import opened JsonModel
  import opened Decimal
  import opened Assoc
  import opened SearchParams
  import opened Endpoint
  import Http

  const BaseUrl: string := "/api/social-events"

  function CreateSocialEvent(data: Json): (c: ApiCall)
    ensures c.verb == Http.POST && c.target == Target(BaseUrl, None) && c.body == Some(data)
  {
    ApiCall(Http.POST, Target(BaseUrl, None), Some(data))
  }

  /** `fetchSocialEvent(page, limit)`: both keys, always. */
  function FetchSocialEvent(page: int, limit: int): (c: ApiCall)
    ensures c.verb == Http.GET && c.target.path == BaseUrl
    ensures c.target.query == Some([("page", IntToString(page)), ("limit", IntToString(limit))])
  {
    GetCall(Target(BaseUrl, Some([("page", IntToString(page)), ("limit", IntToString(limit))])))
  }

  /** An optional argument as a query pair: present iff the argument is defined. */
  function OptionalPair(name: string, value: Option<string>): seq<Param> {
    if value.Some? then [(name, value.value)] else []
  }

  function OptionalIntText(n: Option<int>): Option<string> {
    if n.Some? then Some(IntToString(n.value)) else None
  }

  /** The query `fetchSocialEventTransactions` builds. */
  function TransactionsQuery(page: Option<int>, limit: Option<int>, isValid: Option<bool>): seq<Param> {
    OptionalPair("page", OptionalIntText(page))
      + OptionalPair("limit", OptionalIntText(limit))
      + OptionalPair("isValid", if isValid.Some? then Some(BoolToString(isValid.value)) else None)
  }

  /** `fetchSocialEventTransactions(eventId, page?, limit?, isValid?)`: starts from
      an empty query and appends each argument that is not `undefined`. */
  method FetchSocialEventTransactions(eventId: string, page: Option<int>, limit: Option<int>, isValid: Option<bool>)
    returns (c: ApiCall)
    ensures c.verb == Http.GET && c.body.None?
    ensures c.target == Target(BaseUrl + "/" + eventId + "/transactions", Some(TransactionsQuery(page, limit, isValid)))
  {
    var query := new URLSearchParams([]);
    if page.Some? {
      query.Append("page", IntToString(page.value));
    }
    ghost var a := OptionalPair("page", OptionalIntText(page));
    assert query.pairs == a;
    if limit.Some? {
      query.Append("limit", IntToString(limit.value));
    }
    ghost var b := OptionalPair("limit", OptionalIntText(limit));
    assert query.pairs == a + b;
    if isValid.Some? {
      query.Append("isValid", BoolToString(isValid.value));
    } else {
      assert a + b == a + b + [];
    }
    c := GetCall(Target(BaseUrl + "/" + eventId + "/transactions", Some(query.pairs)));
  }

  function DefinedNames(page: Option<int>, limit: Option<int>, isValid: Option<bool>): seq<string> {
    (if page.Some? then ["page"] else []) + (if limit.Some? then ["limit"] else []) + (if isValid.Some? then ["isValid"] else [])
  }

  /** The keys present are exactly the defined arguments, in the order page,
      limit, isValid; `isValid = false` is kept and sent as "false". */
  lemma TransactionsQueryKeys(page: Option<int>, limit: Option<int>, isValid: Option<bool>)
    ensures Keys(TransactionsQuery(page, limit, isValid)) == DefinedNames(page, limit, isValid)
    ensures TransactionsQuery(None, None, Some(false)) == [("isValid", "false")]
    ensures TransactionsQuery(None, None, None) == []
  {
    var a := OptionalPair("page", OptionalIntText(page));
    var b := OptionalPair("limit", OptionalIntText(limit));
    var d := OptionalPair("isValid", if isValid.Some? then Some(BoolToString(isValid.value)) else None);
    KeysConcat(a + b, d);
    KeysConcat(a, b);
  }

  /** Each defined filter reads back from its pair: the page first, the limit
      next, the validity flag last. */
  lemma TransactionsQueryValues(page: Option<int>, limit: Option<int>, isValid: Option<bool>)
    ensures page.Some? ==> ParseInt(TransactionsQuery(page, limit, isValid)[0].1) == Some(page.value)
    ensures page.None? && limit.Some? ==> ParseInt(TransactionsQuery(page, limit, isValid)[0].1) == Some(limit.value)
    ensures page.Some? && limit.Some? ==>
      |TransactionsQuery(page, limit, isValid)| >= 2 && ParseInt(TransactionsQuery(page, limit, isValid)[1].1) == Some(limit.value)
    ensures isValid.Some? ==>
      var q := TransactionsQuery(page, limit, isValid);
      |q| >= 1 && q[|q| - 1] == ("isValid", BoolToString(isValid.value))
  {
    if page.Some? {
      IntToStringRoundTrip(page.value);
    }
    if limit.Some? {
      IntToStringRoundTrip(limit.value);
    }
  }

  /** With no optional argument the URL ends in a bare `?`. */
  lemma TransactionsBarePath(eventId: string, encode: string -> string)
    ensures Render(Target(BaseUrl + "/" + eventId + "/transactions", Some(TransactionsQuery(None, None, None))), encode)
      == "/api/social-events/" + eventId + "/transactions?"
  {
    var q := TransactionsQuery(None, None, None);
    assert q == [];
    assert Serialize(q, encode) == [];
    var path := BaseUrl + "/" + eventId + "/transactions";
    assert Render(Target(path, Some(q)), encode) == path + "?" + [];
    assert path + "?" + [] == "/api/social-events/" + eventId + "/transactions?";
  }

  /** `toggleSocialEventTransactionActiveStatus`: a PATCH of `{isValid}`. */
  function ToggleSocialEventTransactionActiveStatus(transactionId: string, isValid: bool): (c: ApiCall)
    ensures c.verb == Http.PATCH
    ensures c.target == Target(BaseUrl + "/transactions/" + transactionId + "/mark-as-valid", None)
    ensures c.body == Some(JObject([("isValid", JBool(isValid))]))
  {
    ApiCall(Http.PATCH, Target(BaseUrl + "/transactions/" + transactionId + "/mark-as-valid", None), Some(JObject([("isValid", JBool(isValid))])))
  }
}
