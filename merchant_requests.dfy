/** Request functions for merchants (frontend/src/apis/requests/merchant.requests.ts). */
module MerchantRequests {
  import opened Wrappers
  import opened JsonModel
  import opened Decimal
  import opened SearchParams
  import opened Endpoint
  import Http
  import Display
  import Assoc

  const BaseUrl: string := "/api/merchants"
  const AddCategoryPath: string := "/api/merchant-category/add-category"
  const CategoriesPath: string := "/api/merchant-category"

  /** `/api/merchants/<id>`, shared by update, fetch-one and remove. */
  function MerchantPath(id: string): (p: string)
    ensures |p| == |BaseUrl| + 1 + |id|
    ensures p[..|BaseUrl| + 1] == BaseUrl + "/" && p[|BaseUrl| + 1..] == id
  {
    BaseUrl + "/" + id
  }

  /** The id can be read back off a merchant path, so different merchants never
      share one. */
  lemma MerchantPathInjective(a: string, b: string)
    ensures MerchantPath(a) == MerchantPath(b) ==> a == b
  {
    if MerchantPath(a) == MerchantPath(b) {
      assert a == MerchantPath(a)[|BaseUrl| + 1..];
    }
  }

  function CreateMerchant(data: Json): (c: ApiCall)
    ensures c.verb == Http.POST && c.target == Target(BaseUrl, None) && c.body == Some(data)
  {
    ApiCall(Http.POST, Target(BaseUrl, None), Some(data))
  }

  function UpdateMerchant(merchantId: string, data: Json): (c: ApiCall)
    ensures c.verb == Http.PUT && c.target == Target(MerchantPath(merchantId), None) && c.body == Some(data)
  {
    ApiCall(Http.PUT, Target(MerchantPath(merchantId), None), Some(data))
  }

  function FetchMerchant(id: string): (c: ApiCall)
    ensures c.verb == Http.GET && c.target == Target(MerchantPath(id), None) && c.body.None?
  {
    GetCall(Target(MerchantPath(id), None))
  }

  function RemoveMerchant(merchantId: string): (c: ApiCall)
    ensures c.verb == Http.DELETE && c.target == Target(MerchantPath(merchantId), None) && c.body.None?
  {
    ApiCall(Http.DELETE, Target(MerchantPath(merchantId), None), None)
  }

  /** The query `fetchMerchants` builds: `page`, `limit`, then `search` when given. */
  function MerchantsQuery(page: int, limit: int, search: Option<string>): seq<Param> {
    [("page", IntToString(page)), ("limit", IntToString(limit))]
      + if Display.IsEmpty(search) then [] else [("search", search.value)]
  }

  /** `fetchMerchants(page, limit, search)`. */
  method FetchMerchants(page: int, limit: int, search: Option<string>) returns (c: ApiCall)
    ensures c.verb == Http.GET && c.body.None?
    ensures c.target == Target(BaseUrl, Some(MerchantsQuery(page, limit, search)))
  {
    var query := new URLSearchParams([("page", IntToString(page)), ("limit", IntToString(limit))]);
    if !Display.IsEmpty(search) {
      query.Append("search", search.value);
    } else {
      assert query.pairs == query.pairs + [];
    }
    c := GetCall(Target(BaseUrl, Some(query.pairs)));
  }

  /** The query starts with `page` and `limit`, which read back as the numbers
      given, and has a last `search` pair exactly when a non-empty search is given. */
  lemma MerchantsQueryShape(page: int, limit: int, search: Option<string>)
    ensures var q := MerchantsQuery(page, limit, search);
      && 2 <= |q| <= 3
      && q[0].0 == "page" && ParseInt(q[0].1) == Some(page)
      && q[1].0 == "limit" && ParseInt(q[1].1) == Some(limit)
      && (|q| == 3 <==> !Display.IsEmpty(search))
      && (|q| == 3 ==> q[2] == ("search", search.value))
      && Assoc.Lookup(q, "page") == Some(IntToString(page))
  {
    IntToStringRoundTrip(page);
    IntToStringRoundTrip(limit);
  }

  /** The toggles send one boolean key equal to `status`; only the active toggle
      is a POST. */
  function ToggleMerchantActiveStatus(merchantId: string, status: bool): (c: ApiCall)
    ensures c.verb == Http.POST && c.target == Target(MerchantPath(merchantId) + "/toggle-status", None)
    ensures c.body == Some(JObject([("isActive", JBool(status))]))
  {
    ApiCall(Http.POST, Target(MerchantPath(merchantId) + "/toggle-status", None), Some(JObject([("isActive", JBool(status))])))
  }

  function ToggleMerchantVerifiedStatus(merchantId: string, status: bool): (c: ApiCall)
    ensures c.verb == Http.PUT && c.target == Target(MerchantPath(merchantId) + "/verified-toggler", None)
    ensures c.body == Some(JObject([("isVerified", JBool(status))]))
  {
    ApiCall(Http.PUT, Target(MerchantPath(merchantId) + "/verified-toggler", None), Some(JObject([("isVerified", JBool(status))])))
  }

  function ToggleMerchantOnlineStatus(merchantId: string, status: bool): (c: ApiCall)
    ensures c.verb == Http.PUT && c.target == Target(MerchantPath(merchantId) + "/online-toggler", None)
    ensures c.body == Some(JObject([("isOnline", JBool(status))]))
  {
    ApiCall(Http.PUT, Target(MerchantPath(merchantId) + "/online-toggler", None), Some(JObject([("isOnline", JBool(status))])))
  }

  function ToggleFeaturedMerchant(merchantId: string, status: bool): (c: ApiCall)
    ensures c.verb == Http.PUT && c.target == Target(MerchantPath(merchantId) + "/featured-toggler", None)
    ensures c.body == Some(JObject([("isFeatured", JBool(status))]))
  {
    ApiCall(Http.PUT, Target(MerchantPath(merchantId) + "/featured-toggler", None), Some(JObject([("isFeatured", JBool(status))])))
  }

  /** `addCategoryToMerchant`: a fixed path and both ids as given. */
  function AddCategoryToMerchant(merchantId: string, categoryId: string): (c: ApiCall)
    ensures c.verb == Http.POST && c.target == Target(AddCategoryPath, None)
    ensures c.body == Some(JObject([("merchantId", JStr(merchantId)), ("categoryId", JStr(categoryId))]))
  {
    ApiCall(Http.POST, Target(AddCategoryPath, None), Some(JObject([("merchantId", JStr(merchantId)), ("categoryId", JStr(categoryId))])))
  }

  function GetMerchantCategory(): (c: ApiCall)
    ensures c.verb == Http.GET && c.target == Target(CategoriesPath, None)
  {
    GetCall(Target(CategoriesPath, None))
  }
}
