/** Request functions for subjects and topics
    (frontend/src/apis/requests/subjects.requests.ts). These endpoints use the
    backend's 0-based `page_offset`/`limit` convention. */
module SubjectRequests {
  import opened Wrappers
  import opened JsonModel
  import opened Decimal
  import opened SearchParams
  import opened Endpoint
  import Http
  import Pagination

  const SubjectBase: string := "/v1/api/subject/"

  /** `RequestSubject`: a subject's or topic's id and name. */
  datatype SubjectInput = SubjectInput(id: string, name: string)

  /** The object as `JSON.stringify` receives it, keys in declaration order. */
  function SubjectJson(data: SubjectInput): Json {
    JObject([("_id", JStr(data.id)), ("name", JStr(data.name))])
  }

  /** The query both list endpoints build. */
  function OffsetQuery(offset: int, limit: int): (q: seq<Param>)
    ensures q == [(Pagination.SmallOffsetQueryParam, IntToString(offset)), ("limit", IntToString(limit))]
  {
    [("page_offset", IntToString(offset)), ("limit", IntToString(limit))]
  }

  function CreateSubject(data: SubjectInput): (c: ApiCall)
    ensures c.verb == Http.POST && c.target == Target(SubjectBase + "create/", None)
    ensures c.body == Some(SubjectJson(data))
  {
    ApiCall(Http.POST, Target(SubjectBase + "create/", None), Some(SubjectJson(data)))
  }

  function FetchSubjects(offset: int, limit: int): (c: ApiCall)
    ensures c.verb == Http.GET && c.target == Target(SubjectBase, Some(OffsetQuery(offset, limit)))
  {
    GetCall(Target(SubjectBase, Some(OffsetQuery(offset, limit))))
  }

  /** Only the name travels in the body; the id is in the path alone. */
  function UpdateSubject(data: SubjectInput): (c: ApiCall)
    ensures c.verb == Http.PUT && c.target == Target(SubjectBase + data.id + "/update/", None)
    ensures c.body == Some(JObject([("name", JStr(data.name))]))
  {
    ApiCall(Http.PUT, Target(SubjectBase + data.id + "/update/", None), Some(JObject([("name", JStr(data.name))])))
  }

  function RemoveSubject(id: string): (c: ApiCall)
    ensures c.verb == Http.DELETE && c.target == Target(SubjectBase + id + "/delete/", None) && c.body.None?
  {
    ApiCall(Http.DELETE, Target(SubjectBase + id + "/delete/", None), None)
  }

  /** The whole object is posted, id included. */
  function CreateTopic(subjectId: string, data: SubjectInput): (c: ApiCall)
    ensures c.verb == Http.POST && c.target == Target(SubjectBase + subjectId + "/topic/create/", None)
    ensures c.body == Some(SubjectJson(data))
  {
    ApiCall(Http.POST, Target(SubjectBase + subjectId + "/topic/create/", None), Some(SubjectJson(data)))
  }

  function FetchTopics(subjectId: string, offset: int, limit: int): (c: ApiCall)
    ensures c.verb == Http.GET
    ensures c.target == Target(SubjectBase + subjectId + "/topics/", Some(OffsetQuery(offset, limit)))
  {
    GetCall(Target(SubjectBase + subjectId + "/topics/", Some(OffsetQuery(offset, limit))))
  }

  function UpdateTopic(data: SubjectInput): (c: ApiCall)
    ensures c.verb == Http.PUT && c.target == Target(SubjectBase + "topic/" + data.id + "/update/", None)
    ensures c.body == Some(JObject([("name", JStr(data.name))]))
  {
    ApiCall(Http.PUT, Target(SubjectBase + "topic/" + data.id + "/update/", None), Some(JObject([("name", JStr(data.name))])))
  }

  function RemoveTopic(id: string): (c: ApiCall)
    ensures c.verb == Http.DELETE && c.target == Target(SubjectBase + "topic/" + id + "/delete/", None) && c.body.None?
  {
    ApiCall(Http.DELETE, Target(SubjectBase + "topic/" + id + "/delete/", None), None)
  }

  /** An update never puts the id in the body, whatever the id is, so two updates
      of the same name send the same body. */
  lemma UpdateBodyIgnoresId(a: SubjectInput, b: SubjectInput)
    requires a.name == b.name
    ensures UpdateSubject(a).body == UpdateSubject(b).body && UpdateTopic(a).body == UpdateTopic(b).body
    ensures a.id != b.id ==> UpdateSubject(a).target != UpdateSubject(b).target
  {
    var n := |SubjectBase|;
    var pa, pb := SubjectBase + a.id + "/update/", SubjectBase + b.id + "/update/";
    assert pa[n..|pa| - 8] == a.id;
    assert pb[n..|pb| - 8] == b.id;
  }

  /** The subjects table asks for page `k` of size `size` with offset
      `k * size`. The server reads the offset and limit back from the query and
      reports that same page index, so a table page round-trips. */
  lemma {:induction false} SubjectsPageRoundTrip(k: nat, size: int, count: nat)
    requires size >= 1
    ensures var q := FetchSubjects(k * size, size).target.query.value;
      && q[0].0 == Pagination.SmallOffsetQueryParam
      && ParseInt(q[0].1) == Some(k * size)
      && ParseInt(q[1].1) == Some(size)
      && Pagination.PageInfoOf(Pagination.Paginator(k * size, size, count)).index == k
  {
    IntToStringRoundTrip(k * size);
    IntToStringRoundTrip(size);
    Pagination.IndexRoundTrip(k, size, count);
  }
}
