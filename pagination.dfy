/** Limit/offset pagination metadata (`CustomPagination` in core/api/pagination.py):
    the paginator's `offset`, `limit` and `count` become an `index`, optional `next`
    and `previous` offsets and a page count, written into the caller's response
    dictionary under `data["data"]["pagination"]`. */
module Pagination {
  import opened Wrappers
  import opened Assoc
  import opened JsonModel

  /** `SmallPagination`: ten rows per page unless the request asks otherwise, the
      offset read from the `page_offset` query parameter, starting at 0. */
  const SmallDefaultLimit: int := 10
  const SmallOffsetQueryParam: string := "page_offset"
  const SmallPageOffset: nat := 0

  /** What the paginator knows once it has paginated a query set. The framework
      clamps the offset and the limit into range before this point and the count
      is a row count. */
  datatype Paginator = Paginator(offset: nat, limit: int, count: nat)

  predicate ValidPaginator(p: Paginator) {
    p.limit >= 1
  }

  /** The `pagination` dictionary of one response. */
  datatype PageInfo = PageInfo(
    index: int,
    next: Option<int>,
    previous: Option<int>,
    limit: int,
    offset: int,
    count: int,
    pages: int)

  /** `math.ceil(a / b)`, taken exactly: the least `q` with `q * b >= a`. */
  function CeilDiv(a: nat, b: int): (q: nat)
    requires b >= 1
    ensures q * b >= a
    ensures q > 0 ==> (q - 1) * b < a
  {
    if a % b == 0 then a / b else a / b + 1
  }

  /** The fields `get_paginated_response` computes. */
  function PageInfoOf(p: Paginator): (info: PageInfo)
    requires ValidPaginator(p)
    ensures info.limit == p.limit && info.offset == p.offset && info.count == p.count
    ensures info.next.Some? <==> p.count > p.offset + p.limit
    ensures info.next.Some? ==> info.next.value == p.offset + p.limit < p.count
    ensures info.previous.Some? <==> p.offset >= p.limit
    ensures info.previous.Some? ==> info.previous.value == p.offset - p.limit >= 0
    ensures info.pages * p.limit >= p.count
    ensures p.count > 0 ==> (info.pages - 1) * p.limit < p.count
    ensures p.count == 0 ==> info.pages == 0
    ensures info.index * p.limit >= p.offset
    ensures p.offset > 0 ==> (info.index - 1) * p.limit < p.offset
  {
    PageInfo(
      CeilDiv(p.offset, p.limit),
      if p.count > p.offset + p.limit then Some(p.offset + p.limit) else None,
      if p.offset >= p.limit then Some(p.offset - p.limit) else None,
      p.limit,
      p.offset,
      p.count,
      CeilDiv(p.count, p.limit))
  }

  function OptionalInt(o: Option<int>): Json {
    match o
    case Some(v) => JInt(v)
    case None => JNull
  }

  /** The dictionary literal, with its keys in the order the source writes them. */
  function PageInfoJson(info: PageInfo): (j: Json)
    ensures j.JObject? && Keys(j.members) ==
      ["index", "next", "previous", "limit", "offset", "count", "pages"]
  {
    JObject([
      ("index", JInt(info.index)),
      ("next", OptionalInt(info.next)),
      ("previous", OptionalInt(info.previous)),
      ("limit", JInt(info.limit)),
      ("offset", JInt(info.offset)),
      ("count", JInt(info.count)),
      ("pages", JInt(info.pages))])
  }

  /** Each key of the literal holds the matching field; a missing offset is
      `None`. */
  lemma PageInfoJsonValues(info: PageInfo)
    ensures var ms := PageInfoJson(info).members;
      && Lookup(ms, "index") == Some(JInt(info.index))
      && Lookup(ms, "next") == Some(if info.next.Some? then JInt(info.next.value) else JNull)
      && Lookup(ms, "previous") == Some(if info.previous.Some? then JInt(info.previous.value) else JNull)
      && Lookup(ms, "limit") == Some(JInt(info.limit))
      && Lookup(ms, "offset") == Some(JInt(info.offset))
      && Lookup(ms, "count") == Some(JInt(info.count))
      && Lookup(ms, "pages") == Some(JInt(info.pages))
  {
    var ms := PageInfoJson(info).members;
    var ks := Keys(ms);
    assert UniqueKeys(ms) by {
      forall a, b | 0 <= a < b < |ms|
        ensures ms[a].0 != ms[b].0
      {
        assert ms[a].0 == ks[a] && ms[b].0 == ks[b];
      }
    }
    LookupAllAt(ms);
    assert ms[0].0 == "index" && ms[1].0 == "next" && ms[2].0 == "previous" && ms[3].0 == "limit";
    assert ms[4].0 == "offset" && ms[5].0 == "count" && ms[6].0 == "pages";
  }

  /** What Python raises when `data["data"]["pagination"] = ...` cannot be done. */
  datatype PyError = KeyError(key: string) | TypeError

  /** The whole response dictionary after the assignment, or the exception. */
  function WithPagination(members: seq<(string, Json)>, info: PageInfo): Result<seq<(string, Json)>, PyError> {
    match Lookup(members, "data")
    case None => Failure(KeyError("data"))
    case Some(inner) =>
      if inner.JObject? then
        Success(Put(members, "data", JObject(Put(inner.members, "pagination", PageInfoJson(info)))))
      else Failure(TypeError)
  }

  /** A Python dictionary, updated in place. */
  class PyDict {
    var members: seq<(string, Json)>

    constructor (members: seq<(string, Json)>)
      ensures this.members == members
    {
      this.members := members;
    }
  }

  /** The value handed to `get_paginated_response`. The list views pass a
      dictionary; the `advanced_search` actions, which no URL configuration
      routes to, would pass the serializer's list
      (core/api/views/subject_views.py:52 and 280, question_views.py:51). */
  datatype PyObject = DictObject(dict: PyDict) | ListObject(items: seq<Json>)

  /** `CustomPagination.get_paginated_response`: inserts the pagination fields into
      `data["data"]` and returns the same object. Indexing a list with the string
      `"data"` raises TypeError, so every call with a list fails. */
  method GetPaginatedResponse(p: Paginator, data: PyObject) returns (r: Result<PyObject, PyError>)
    requires ValidPaginator(p)
    modifies if data.DictObject? then {data.dict} else {}
    ensures data.ListObject? ==> r == Failure(TypeError)
    ensures data.DictObject? && WithPagination(old(data.dict.members), PageInfoOf(p)).Failure? ==>
      r == Failure(WithPagination(old(data.dict.members), PageInfoOf(p)).error) && unchanged(data.dict)
    ensures data.DictObject? && WithPagination(old(data.dict.members), PageInfoOf(p)).Success? ==>
      r == Success(data) && data.dict.members == WithPagination(old(data.dict.members), PageInfoOf(p)).value
  {
    if data.ListObject? {
      return Failure(TypeError);
    }
    var d := data.dict;
    var info := PageInfoOf(p);
    var inner := Lookup(d.members, "data");
    if inner.None? {
      return Failure(KeyError("data"));
    }
    if !inner.value.JObject? {
      return Failure(TypeError);
    }
    d.members := Put(d.members, "data", JObject(Put(inner.value.members, "pagination", PageInfoJson(info))));
    r := Success(data);
  }

  /** Only the key `pagination` changes under `data["data"]`; every other key there
      (`subjects`, `topics`, ...) and every sibling of `data` (`message`, ...) keeps
      its value. */
  lemma NothingElseChanges(members: seq<(string, Json)>, info: PageInfo, k: string, k': string)
    requires WithPagination(members, info).Success?
    ensures var after := WithPagination(members, info).value;
      && Lookup(after, "data").Some?
      && Lookup(after, "data").value.JObject?
      && Lookup(Lookup(after, "data").value.members, "pagination") == Some(PageInfoJson(info))
      && (k != "pagination" ==>
            Lookup(Lookup(after, "data").value.members, k) == Lookup(Lookup(members, "data").value.members, k))
      && (k' != "data" ==> Lookup(after, k') == Lookup(members, k'))
  {
    var inner := Lookup(members, "data").value;
    var newInner := JObject(Put(inner.members, "pagination", PageInfoJson(info)));
    LookupPut(members, "data", newInner, "data");
    LookupPut(members, "data", newInner, k');
    LookupPut(inner.members, "pagination", PageInfoJson(info), "pagination");
    LookupPut(inner.members, "pagination", PageInfoJson(info), k);
  }

  /** A well-formed response keeps unique keys at both levels; the outer keys stay
      the same. */
  lemma KeysAfterInsert(members: seq<(string, Json)>, info: PageInfo)
    requires WithPagination(members, info).Success?
    ensures Keys(WithPagination(members, info).value) == Keys(members)
    ensures UniqueKeys(members) ==> UniqueKeys(WithPagination(members, info).value)
  {
    var inner := Lookup(members, "data").value;
    var newInner := JObject(Put(inner.members, "pagination", PageInfoJson(info)));
    if UniqueKeys(members) {
      PutUnique(members, "data", newInner);
    }
  }

  /** The offset of page `k` (what the subjects table sends, `pageIndex * pageSize`)
      gives back index `k`. */
  lemma {:induction false} IndexRoundTrip(k: nat, limit: int, count: nat)
    requires limit >= 1
    ensures PageInfoOf(Paginator(k * limit, limit, count)).index == k
  {
    MulLess(k, 0, limit);
    MulLess(k - 1, k, limit);
    CeilDivUnique(k * limit, limit, k);
  }

  /** The two bounds in `CeilDiv`'s contract single out its result. */
  lemma CeilDivUnique(a: nat, b: int, q: nat)
    requires b >= 1 && q * b >= a && (q > 0 ==> (q - 1) * b < a)
    ensures CeilDiv(a, b) == q
  {
    var r := CeilDiv(a, b);
    MulLess(q as int - 1, r, b);
    MulLess(r as int - 1, q, b);
  }

  lemma MulLess(a: int, b: int, c: int)
    requires c >= 1
    ensures a < b <==> a * c < b * c
  {
    assert b * c - a * c == (b - a) * c;
  }

  /** Ceiling division grows with the numerator. */
  lemma CeilDivMonotone(a: nat, b: nat, d: int)
    requires d >= 1 && a <= b
    ensures CeilDiv(a, d) <= CeilDiv(b, d)
  {
    var qa, qb := CeilDiv(a, d), CeilDiv(b, d);
    if qa > 0 {
      MulLess(qa - 1, qb, d);
    }
  }

  /** Any offset inside the collection lies on one of its pages. */
  lemma IndexWithinPages(p: Paginator)
    requires ValidPaginator(p) && p.offset <= p.count
    ensures 0 <= PageInfoOf(p).index <= PageInfoOf(p).pages
  {
    CeilDivMonotone(p.offset, p.count, p.limit);
  }

  /** When both neighbours exist they are two pages apart, either side of the
      current offset. */
  lemma NeighboursTwoPagesApart(p: Paginator)
    requires ValidPaginator(p)
    requires PageInfoOf(p).next.Some? && PageInfoOf(p).previous.Some?
    ensures PageInfoOf(p).next.value - PageInfoOf(p).previous.value == 2 * p.limit
    ensures PageInfoOf(p).previous.value < p.offset < PageInfoOf(p).next.value
  {
  }

  /** An offset strictly inside the first page has no previous page even though it
      is not at the start. */
  lemma NoPreviousInsideFirstPage(p: Paginator)
    requires ValidPaginator(p) && 0 < p.offset < p.limit
    ensures PageInfoOf(p).previous.None?
    ensures PageInfoOf(p).index == 1
  {
  }

  /** The first page with `SmallPagination`'s defaults. */
  lemma SmallPaginationFirstPage(count: nat)
    ensures var info := PageInfoOf(Paginator(SmallPageOffset, SmallDefaultLimit, count));
      && info.index == 0
      && info.previous.None?
      && (info.next.Some? <==> count > 10)
      && info.pages == CeilDiv(count, 10)
  {
  }
}
