/**
 * The collection endpoint of the incident API: listing with pagination and sorting, and
 * creation with a required-field pre-check. The database is the in-memory collection and
 * order of the Listing module; each handler is one sequential step.
 */
module IncidentsRoute {
  import opened Wrappers
  import opened JsString
  import opened IncidentModel
  import opened Listing

  /**
   * The query parameters of a list request. `page` and `limit` are the already parsed
   * integers; `None` stands for a parameter that is absent or empty.
   */
  datatype ListQuery = ListQuery(page: Option<int>, limit: Option<int>, sortField: Option<string>, sortOrder: Option<string>)

  /** The parameters after defaults are filled in. */
  datatype ListParams = ListParams(page: int, limit: int, sortField: string, sortOrder: string)

  const DefaultPage := 1
  const DefaultLimit := 10
  const DefaultSortField := "createdAt"
  const DefaultSortOrder := "desc"

  /** JavaScript `v || d` for a string parameter: an absent or empty value is replaced. */
  function OrDefault(v: Option<string>, d: string): (r: string)
    ensures v.Some? && v.value != "" ==> r == v.value
    ensures v.None? || v.value == "" ==> r == d
  {
    if v.Some? && v.value != "" then v.value else d
  }

  function ParamsOf(q: ListQuery): (p: ListParams)
    ensures p.page == (if q.page.Some? then q.page.value else DefaultPage)
    ensures p.limit == (if q.limit.Some? then q.limit.value else DefaultLimit)
    ensures p.sortField == OrDefault(q.sortField, DefaultSortField)
    ensures p.sortOrder == OrDefault(q.sortOrder, DefaultSortOrder)
  {
    ListParams(q.page.GetOr(DefaultPage), q.limit.GetOr(DefaultLimit),
               OrDefault(q.sortField, DefaultSortField), OrDefault(q.sortOrder, DefaultSortOrder))
  }

  /** A request without parameters lists the first ten records, newest first. */
  lemma DefaultListParams()
    ensures ParamsOf(ListQuery(None, None, None, None)) == ListParams(1, 10, "createdAt", "desc")
    ensures IsDescending(ParamsOf(ListQuery(None, None, None, None)).sortOrder)
  {
  }

  /** The number of records before the requested page. */
  function Skip(page: int, limit: int): (r: int)
    ensures page == 1 ==> r == 0
    ensures page >= 1 && limit >= 0 ==> r >= 0
    ensures page < 1 && limit > 0 ==> r < 0
  {
    (page - 1) * limit
  }

  /** The sort direction: `-1` (descending) for exactly `"desc"`, `1` for every other value. */
  function IsDescending(sortOrder: string): bool {
    sortOrder == "desc"
  }

  /** `Math.ceil(total / limit)`. */
  function TotalPages(total: nat, limit: int): (n: nat)
    requires limit > 0
    ensures total <= n * limit
    ensures n == 0 || (n - 1) * limit < total
    ensures total == 0 <==> n == 0
  {
    var n := (total + limit - 1) / limit;
    assert (total + limit - 1) == n * limit + (total + limit - 1) % limit;
    n
  }

  datatype Pagination = Pagination(total: int, page: int, totalPages: int, limit: int)

  datatype ListResponse = Listed(incidents: seq<Incident>, pagination: Pagination) | ListFailed(error: string)

  function ListStatus(r: ListResponse): int {
    if r.Listed? then 200 else 500
  }

  /**
   * `GET /api/incidents`. `view` is the order in which the database returns the collection
   * for the requested sort: a sorted permutation of it (see Listing.IsSortedView). A page
   * below 1 makes the skip negative, which the database rejects, and the handler answers 500.
   */
  function List(collection: seq<Incident>, q: ListQuery, view: seq<Incident>): (r: ListResponse)
    requires ParamsOf(q).limit > 0
    requires IsSortedView(collection, ParamsOf(q).sortField, IsDescending(ParamsOf(q).sortOrder), view)
    ensures r.Listed? <==> ParamsOf(q).page >= 1
    ensures ListStatus(r) == (if ParamsOf(q).page >= 1 then 200 else 500)
    ensures r.ListFailed? ==> r.error == "Failed to fetch incidents"
    ensures r.Listed? ==> r.pagination.total == |collection|
                          && r.pagination.page == ParamsOf(q).page
                          && r.pagination.limit == ParamsOf(q).limit
                          && r.pagination.totalPages == TotalPages(|collection|, ParamsOf(q).limit)
    ensures r.Listed? ==> |r.incidents| <= ParamsOf(q).limit
    ensures r.Listed? ==> r.incidents == Window(view, Skip(ParamsOf(q).page, ParamsOf(q).limit), ParamsOf(q).limit)
  {
    var p := ParamsOf(q);
    var skip := Skip(p.page, p.limit);
    if skip < 0 then ListFailed("Failed to fetch incidents")
    else Listed(Window(view, skip, p.limit), Pagination(|collection|, p.page, TotalPages(|collection|, p.limit), p.limit))
  }

  /** Every listed page is in the requested order. */
  lemma ListedPageSorted(collection: seq<Incident>, q: ListQuery, view: seq<Incident>)
    requires ParamsOf(q).limit > 0 && ParamsOf(q).page >= 1
    requires IsSortedView(collection, ParamsOf(q).sortField, IsDescending(ParamsOf(q).sortOrder), view)
    ensures SortedBy(List(collection, q, view).incidents, ParamsOf(q).sortField, IsDescending(ParamsOf(q).sortOrder))
  {
    var p := ParamsOf(q);
    WindowSorted(view, Skip(p.page, p.limit), p.limit, p.sortField, IsDescending(p.sortOrder));
  }

  /** The query for page `page` with everything else fixed. */
  function PageQuery(page: int, limit: int, field: string, order: string): ListQuery {
    ListQuery(Some(page), Some(limit), Some(field), Some(order))
  }

  /**
   * The records of pages 1 to `n`, one after another. Every page is a request of its own, and
   * the database may order records with equal keys differently from one request to the next,
   * so page `k` is taken from its own order `views[k - 1]`.
   */
  function PagesUpTo(collection: seq<Incident>, limit: int, field: string, order: string,
                     views: seq<seq<Incident>>, n: nat): seq<Incident>
    requires limit > 0 && n <= |views|
    requires forall k :: 0 <= k < n ==> IsSortedView(collection, PageSortField(field), PageDescending(order), views[k])
  {
    if n == 0 then []
    else
      assert IsSortedView(collection, PageSortField(field), PageDescending(order), views[n - 1]);
      PagesUpTo(collection, limit, field, order, views, n - 1)
      + List(collection, PageQuery(n, limit, field, order), views[n - 1]).incidents
  }

  function Min(a: int, b: int): int {
    if a < b then a else b
  }

  /** Page `n` is the window after the first `(n - 1) * limit` records. */
  lemma PageIsWindow(collection: seq<Incident>, limit: int, field: string, order: string,
                     view: seq<Incident>, n: nat)
    requires limit > 0 && n > 0
    requires IsSortedView(collection, PageSortField(field), PageDescending(order), view)
    ensures List(collection, PageQuery(n, limit, field, order), view).incidents == Window(view, (n - 1) * limit, limit)
  {
  }

  /** A prefix followed by the window right after it is a longer prefix. */
  lemma PrefixThenWindow(view: seq<Incident>, skip: nat, limit: nat)
    ensures view[..Min(skip, |view|)] + Window(view, skip, limit) == view[..Min(skip + limit, |view|)]
  {
  }

  /**
   * When the requests for pages 1 to `n` all see the same order, the pages together are
   * exactly the first `n * limit` records of that order.
   */
  lemma {:induction false} PagesUpToIsPrefix(collection: seq<Incident>, limit: int, field: string, order: string,
                                             views: seq<seq<Incident>>, view: seq<Incident>, n: nat)
    requires limit > 0 && n <= |views|
    requires IsSortedView(collection, PageSortField(field), PageDescending(order), view)
    requires forall k :: 0 <= k < n ==> views[k] == view
    ensures PagesUpTo(collection, limit, field, order, views, n) == view[..Min(n * limit, |view|)]
  {
    if n > 0 {
      PagesUpToIsPrefix(collection, limit, field, order, views, view, n - 1);
      var skip := (n - 1) * limit;
      assert skip + limit == n * limit;
      PageIsWindow(collection, limit, field, order, view, n);
      PrefixThenWindow(view, skip, limit);
    }
  }

  /** The field and direction a page request for `field` and `order` sorts by. */
  function PageSortField(field: string): string {
    OrDefault(Some(field), DefaultSortField)
  }

  function PageDescending(order: string): bool {
    IsDescending(OrDefault(Some(order), DefaultSortOrder))
  }

  /** Orders of a collection without ties, sorted alike, are all one order. */
  lemma ViewsAgree(collection: seq<Incident>, field: string, descending: bool, byId: bool, views: seq<seq<Incident>>)
    requires NoTies(collection, field, byId)
    requires forall k :: 0 <= k < |views| ==>
               multiset(views[k]) == multiset(collection) && SortedWith(views[k], field, descending, byId)
    ensures forall k :: 0 <= k < |views| ==> views[k] == views[0]
  {
    forall k | 0 <= k < |views| ensures views[k] == views[0] {
      SortedUnique(collection, field, descending, byId, views[k], views[0]);
    }
  }

  /** Pages taken from one order of the whole collection give it back, each record once. */
  lemma PagesOfOneOrder(collection: seq<Incident>, limit: int, field: string, order: string, views: seq<seq<Incident>>)
    requires limit > 0 && TotalPages(|collection|, limit) <= |views|
    requires forall k :: 0 <= k < |views| ==>
               views[k] == views[0] && IsSortedView(collection, PageSortField(field), PageDescending(order), views[k])
    ensures |views| > 0 ==> PagesUpTo(collection, limit, field, order, views, TotalPages(|collection|, limit)) == views[0]
    ensures multiset(PagesUpTo(collection, limit, field, order, views, TotalPages(|collection|, limit))) == multiset(collection)
  {
    var n := TotalPages(|collection|, limit);
    if |views| == 0 {
      assert |collection| == 0;
    } else {
      var view := views[0];
      assert |view| == |multiset(view)| == |collection|;
      PagesUpToIsPrefix(collection, limit, field, order, views, view, n);
      assert Min(n * limit, |view|) == |view|;
      assert view[..|view|] == view;
    }
  }

  /**
   * When no two records share a key under the sort field, the order is determined, and the
   * pages 1 to totalPages partition the collection: laid end to end they give the database's
   * order, each record exactly once, with no overlap and no gap, whatever order each request
   * may have seen.
   */
  lemma PagesPartition(collection: seq<Incident>, limit: int, field: string, order: string, views: seq<seq<Incident>>)
    requires limit > 0 && TotalPages(|collection|, limit) <= |views|
    requires NoTies(collection, PageSortField(field), false)
    requires forall k :: 0 <= k < |views| ==> IsSortedView(collection, PageSortField(field), PageDescending(order), views[k])
    ensures |views| > 0 ==> PagesUpTo(collection, limit, field, order, views, TotalPages(|collection|, limit)) == views[0]
    ensures multiset(PagesUpTo(collection, limit, field, order, views, TotalPages(|collection|, limit))) == multiset(collection)
  {
    ViewsAgree(collection, PageSortField(field), PageDescending(order), false, views);
    PagesOfOneOrder(collection, limit, field, order, views);
  }

  /**
   * With ties the pages need not partition the collection: two records that differ only in
   * their identifier, listed one per page by priority, may come back as the same record on
   * both pages, the other one never shown.
   */
  lemma TiesBreakPagination(a: Incident, b: Incident)
    requires b == a.(id := a.id + "x")
    ensures IsSortedView([a, b], "priority", true, [a, b]) && IsSortedView([a, b], "priority", true, [b, a])
    ensures PageSortField("priority") == "priority" && PageDescending("desc")
    ensures PagesUpTo([a, b], 1, "priority", "desc", [[a, b], [b, a]], TotalPages(2, 1)) == [a, a]
    ensures multiset([a, a]) != multiset([a, b])
  {
    assert a != b by { assert |a.id| != |b.id|; }
    TiedOrders(a, b);
    TiedPages(a, b);
    assert multiset([a, a])[b] == 0;
  }

  lemma TiedOrders(a: Incident, b: Incident)
    requires a.priority == b.priority
    ensures IsSortedView([a, b], "priority", true, [a, b]) && IsSortedView([a, b], "priority", true, [b, a])
  {
    assert multiset([a, b]) == multiset([b, a]);
    StrLeReflexive(PriorityName(a.priority));
  }

  lemma TiedPages(a: Incident, b: Incident)
    requires IsSortedView([a, b], "priority", true, [a, b]) && IsSortedView([a, b], "priority", true, [b, a])
    ensures PagesUpTo([a, b], 1, "priority", "desc", [[a, b], [b, a]], TotalPages(2, 1)) == [a, a]
  {
    assert TotalPages(2, 1) == 2;
    TwoPages([a, b], 1, "priority", "desc", [[a, b], [b, a]]);
    assert Window([a, b], 0, 1) == [a];
    assert Window([b, a], 1, 1) == [a];
  }

  /** Pages 1 and 2 are the first window of the first order and the second window of the second. */
  lemma TwoPages(collection: seq<Incident>, limit: int, field: string, order: string, views: seq<seq<Incident>>)
    requires limit > 0 && 2 <= |views|
    requires forall k :: 0 <= k < 2 ==> IsSortedView(collection, PageSortField(field), PageDescending(order), views[k])
    ensures PagesUpTo(collection, limit, field, order, views, 2) == Window(views[0], 0, limit) + Window(views[1], limit, limit)
  {
    PageIsWindow(collection, limit, field, order, views[0], 1);
    PageIsWindow(collection, limit, field, order, views[1], 2);
    assert PagesUpTo(collection, limit, field, order, views, 1) == Window(views[0], 0, limit);
  }

  /**
   * The corrected listing sorts by `{ [sortField]: direction, _id: 1 }`. Identifiers are
   * distinct in every reachable store, so this order has no ties, and the pages 1 to
   * totalPages partition the collection for every sort field, whatever order each request
   * may have seen.
   */
  lemma TieBrokenPagesPartition(collection: seq<Incident>, limit: int, field: string, order: string, views: seq<seq<Incident>>)
    requires limit > 0 && TotalPages(|collection|, limit) <= |views|
    requires StoreInvariant(collection)
    requires forall k :: 0 <= k < |views| ==>
               IsSortedView(collection, PageSortField(field), PageDescending(order), views[k])
               && SortedWith(views[k], PageSortField(field), PageDescending(order), true)
    ensures |views| > 0 ==> PagesUpTo(collection, limit, field, order, views, TotalPages(|collection|, limit)) == views[0]
    ensures multiset(PagesUpTo(collection, limit, field, order, views, TotalPages(|collection|, limit))) == multiset(collection)
  {
    ViewsAgree(collection, PageSortField(field), PageDescending(order), true, views);
    PagesOfOneOrder(collection, limit, field, order, views);
  }

  /** Pages past the last one are empty. */
  lemma PagesPastTheEndEmpty(collection: seq<Incident>, q: ListQuery, view: seq<Incident>)
    requires ParamsOf(q).limit > 0 && ParamsOf(q).page > TotalPages(|collection|, ParamsOf(q).limit)
    requires IsSortedView(collection, ParamsOf(q).sortField, IsDescending(ParamsOf(q).sortOrder), view)
    ensures List(collection, q, view).Listed? && List(collection, q, view).incidents == []
  {
    assert |view| == |multiset(view)| == |collection|;
    var p := ParamsOf(q);
    var n := TotalPages(|collection|, p.limit);
    MulMonotone(p.page - 1, n, p.limit);
  }

  lemma MulMonotone(a: int, b: int, c: int)
    requires a >= b && c >= 0
    ensures a * c >= b * c
  {
    assert a * c - b * c == (a - b) * c;
  }

  datatype PostResponse = Created(incident: Incident) | BadRequest(error: string) | PostFailed(error: string)

  function PostStatus(r: PostResponse): int {
    match r
    case Created(_) => 201
    case BadRequest(_) => 400
    case PostFailed(_) => 500
  }

  /** JavaScript truthiness of a string field: present and non-empty. */
  predicate Truthy(v: Option<string>) {
    v.Some? && v.value != ""
  }

  /** A body the schema accepts also passes the pre-check. */
  lemma AcceptableIsTruthy(f: Fields)
    requires Acceptable(f)
    ensures Truthy(f.customerName) && Truthy(f.description)
  {
    assert Trim("") == "";
  }

  /**
   * `POST /api/incidents`: 400 when `customerName` or `description` is falsy, without touching
   * the store; otherwise the record is created from the body and appended (201), unless the
   * schema rejects it, which surfaces as a thrown error and a 500.
   */
  function Post(store: seq<Incident>, body: Fields, id: string, now: int): (out: (PostResponse, seq<Incident>))
    ensures out.0.BadRequest? <==> !Truthy(body.customerName) || !Truthy(body.description)
    ensures out.0.BadRequest? ==> out.0.error == "Customer name and description are required"
    ensures out.0.Created? <==> Acceptable(body)
    ensures out.0.Created? ==> Create(body, id, now) == Ok(out.0.incident) && out.1 == store + [out.0.incident]
    ensures out.0.PostFailed? ==> out.0.error == "Failed to create incident"
    ensures !out.0.Created? ==> out.1 == store
  {
    if !Truthy(body.customerName) || !Truthy(body.description) then
      (BadRequest("Customer name and description are required"), store)
    else
      match Create(body, id, now)
      case Ok(incident) => (Created(incident), store + [incident])
      case Err(_) =>
        assert !Acceptable(body);
        (PostFailed("Failed to create incident"), store)
  }

  /** What holds of every reachable store: valid records with distinct identifiers. */
  predicate StoreInvariant(store: seq<Incident>) {
    && (forall k :: 0 <= k < |store| ==> Valid(store[k]))
    && (forall j, k :: 0 <= j < k < |store| ==> store[j].id != store[k].id)
  }

  /** Creation with a fresh identifier keeps the store invariant. */
  lemma PostPreservesInvariant(store: seq<Incident>, body: Fields, id: string, now: int)
    requires StoreInvariant(store)
    requires forall k :: 0 <= k < |store| ==> store[k].id != id
    ensures StoreInvariant(Post(store, body, id, now).1)
  {
  }

  /**
   * A name of only spaces passes the pre-check (it is truthy) but is empty once trimmed, so
   * the schema's required validator rejects it and the answer is 500, not 400.
   */
  lemma BlankNameIsServerError(store: seq<Incident>, body: Fields, id: string, now: int)
    requires body.customerName == Some("  ") && Truthy(body.description)
    ensures PostStatus(Post(store, body, id, now).0) == 500
    ensures Post(store, body, id, now).1 == store
  {
    assert TrimStart("  ") == "" by {
      assert "  "[1..] == " " && " "[1..] == "";
    }
    assert Trim("  ") == "";
  }
}
