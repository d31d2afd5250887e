/** Request functions for merchant store locations
    (frontend/src/apis/requests/merchantStoreLocation.requests.ts). */
module StoreLocationRequests {
  import opened Wrappers
  import opened JsonModel
  import opened Decimal
  import opened SearchParams
  import opened Endpoint
  import Http

  const BaseUrl: string := "/api/merchants"
  const DefaultPage: int := 1
  const DefaultLimit: int := 10

  /** `/api/merchants/<merchantId>/store`, where a merchant's stores are listed and created. */
  function MerchantStoresPath(merchantId: string): string {
    BaseUrl + "/" + merchantId + "/store"
  }

  function CreateMerchantStoreLocation(merchantId: string, data: Json): (c: ApiCall)
    ensures c.verb == Http.POST && c.target == Target(MerchantStoresPath(merchantId), None)
    ensures c.body == Some(data)
  {
    ApiCall(Http.POST, Target(MerchantStoresPath(merchantId), None), Some(data))
  }

  /** `fetchMerchantStoreLocations(merchantId, page = 1, limit = 10)`; an omitted
      argument is `None`. */
  function FetchMerchantStoreLocations(merchantId: string, page: Option<int>, limit: Option<int>): (c: ApiCall)
    ensures c.verb == Http.GET && c.body.None? && c.target.path == MerchantStoresPath(merchantId)
    ensures c.target.query == Some([("page", IntToString(page.GetOr(DefaultPage))), ("limit", IntToString(limit.GetOr(DefaultLimit)))])
  {
    var query := [("page", IntToString(page.GetOr(DefaultPage))), ("limit", IntToString(limit.GetOr(DefaultLimit)))];
    GetCall(Target(MerchantStoresPath(merchantId), Some(query)))
  }

  /** With both arguments omitted the query asks for page 1 of 10, and it never
      holds any key but `page` and `limit`, in that order. */
  lemma StoreLocationsDefaults(merchantId: string, page: Option<int>, limit: Option<int>)
    ensures var q := FetchMerchantStoreLocations(merchantId, page, limit).target.query.value;
      && |q| == 2 && q[0].0 == "page" && q[1].0 == "limit"
      && ParseInt(q[0].1) == Some(if page.Some? then page.value else 1)
      && ParseInt(q[1].1) == Some(if limit.Some? then limit.value else 10)
    ensures FetchMerchantStoreLocations(merchantId, None, None).target.query == Some([("page", "1"), ("limit", "10")])
  {
    IntToStringRoundTrip(page.GetOr(DefaultPage));
    IntToStringRoundTrip(limit.GetOr(DefaultLimit));
    SmallDecimals();
  }

  /** Fetching one store uses the plural `stores` segment... */
  function FetchMerchantStoreLocation(storeId: string): (c: ApiCall)
    ensures c.verb == Http.GET && c.target == Target("/api/merchants/stores/" + storeId, None)
  {
    GetCall(Target("/api/merchants/stores/" + storeId, None))
  }

  /** ...while removing one uses the singular `store`. */
  function RemoveMerchantStoreLocation(storeId: string): (c: ApiCall)
    ensures c.verb == Http.DELETE && c.target == Target(BaseUrl + "/store/" + storeId, None) && c.body.None?
  {
    ApiCall(Http.DELETE, Target(BaseUrl + "/store/" + storeId, None), None)
  }

  /** The fetch-one and remove paths of a store never coincide. */
  lemma FetchAndRemoveDiffer(a: string, b: string)
    ensures FetchMerchantStoreLocation(a).target.path != RemoveMerchantStoreLocation(b).target.path
  {
    var p, q := FetchMerchantStoreLocation(a).target.path, RemoveMerchantStoreLocation(b).target.path;
    assert p[20] == 's';
    assert q[20] == '/';
  }

  function ToggleMerchantStoreLocationActiveStatus(storeId: string, status: bool): (c: ApiCall)
    ensures c.verb == Http.PUT && c.target == Target(BaseUrl + "/stores/" + storeId + "/active-toggler", None)
    ensures c.body == Some(JObject([("isActive", JBool(status))]))
  {
    ApiCall(Http.PUT, Target(BaseUrl + "/stores/" + storeId + "/active-toggler", None), Some(JObject([("isActive", JBool(status))])))
  }

  function ToggleMerchantStoreLocationVerifiedStatus(storeId: string, status: bool): (c: ApiCall)
    ensures c.verb == Http.PUT && c.target == Target(BaseUrl + "/stores/" + storeId + "/verified-toggler", None)
    ensures c.body == Some(JObject([("isVerified", JBool(status))]))
  {
    ApiCall(Http.PUT, Target(BaseUrl + "/stores/" + storeId + "/verified-toggler", None), Some(JObject([("isVerified", JBool(status))])))
  }
}
