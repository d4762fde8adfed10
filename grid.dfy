/**
 * The incident table's logic: which column header shows a sort arrow, the "Showing X to Y
 * of Z results" range, when the Previous and Next buttons are enabled and which page they
 * request, and the badge colour of each priority and status.
 */
module IncidentGrid {
  import opened IncidentModel
  import opened Listing
  import opened IncidentsRoute

  /** The two sort orders the page can request (`"asc" | "desc"`). */
  datatype SortOrder = Asc | Desc

  function OrderName(o: SortOrder): string {
    match o
    case Asc => "asc"
    case Desc => "desc"
  }

  datatype SortIcon = NoIcon | ChevronUp | ChevronDown

  /** `renderSortIcon`: only the column being sorted by shows an arrow, up when ascending. */
  function RenderSortIcon(sortField: string, sortOrder: SortOrder, field: string): (icon: SortIcon)
    ensures icon == NoIcon <==> field != sortField
    ensures icon == ChevronUp <==> field == sortField && sortOrder == Asc
    ensures icon == ChevronDown <==> field == sortField && sortOrder == Desc
  {
    if sortField != field then NoIcon
    else if sortOrder.Asc? then ChevronUp
    else ChevronDown
  }

  /** The column headers that can be clicked to sort, left to right. */
  const SortableColumns: seq<string> := ["customerName", "description", "priority", "status", "createdAt"]

  /** The arrow between the sortable columns: at most one of them shows one. */
  lemma AtMostOneSortIcon(sortField: string, sortOrder: SortOrder)
    ensures forall i, j :: 0 <= i < j < |SortableColumns| ==>
              RenderSortIcon(sortField, sortOrder, SortableColumns[i]) == NoIcon
              || RenderSortIcon(sortField, sortOrder, SortableColumns[j]) == NoIcon
  {
  }

  /** Every sortable column names a field every record has, so clicking it really reorders. */
  lemma SortableColumnsAreStoredFields(i: Incident)
    ensures forall k :: 0 <= k < |SortableColumns| ==> KeyOf(i, SortableColumns[k]) != Missing
  {
  }

  /** The first position shown, counting from 1. */
  function RangeStart(p: Pagination): (r: int)
    ensures r - 1 == Skip(p.page, p.limit)
    ensures p.page >= 1 && p.limit >= 0 ==> r >= 1
  {
    (p.page - 1) * p.limit + 1
  }

  /** The last position shown: the end of the page, cut off at the total. */
  function RangeEnd(p: Pagination): (r: int)
    ensures r <= p.total && r <= p.page * p.limit
    ensures r == p.total || r == p.page * p.limit
  {
    if p.page * p.limit < p.total then p.page * p.limit else p.total
  }

  /** The range never reaches past the total and never spans more than one page. */
  lemma RangeWithinPage(p: Pagination)
    ensures RangeEnd(p) <= p.total
    ensures RangeEnd(p) - RangeStart(p) + 1 <= p.limit
  {
  }

  /**
   * For a page the list endpoint answered, the range names exactly the positions of the
   * records on the page: as many as are shown, and the same ones.
   */
  lemma RangeMatchesListing(collection: seq<Incident>, q: ListQuery, view: seq<Incident>)
    requires ParamsOf(q).limit > 0 && ParamsOf(q).page >= 1
    requires IsSortedView(collection, ParamsOf(q).sortField, IsDescending(ParamsOf(q).sortOrder), view)
    requires ParamsOf(q).page <= TotalPages(|collection|, ParamsOf(q).limit)
    ensures var r := List(collection, q, view);
            && 1 <= RangeStart(r.pagination) <= RangeEnd(r.pagination) + 1 <= |view| + 1
            && r.incidents == view[RangeStart(r.pagination) - 1..RangeEnd(r.pagination)]
  {
    assert |view| == |multiset(view)| == |collection|;
    var r := List(collection, q, view);
    var p := ParamsOf(q);
    var skip := Skip(p.page, p.limit);
    assert RangeStart(r.pagination) - 1 == skip;
    assert skip + p.limit == p.page * p.limit;
    MulMonotone(p.page, 1, p.limit);
    assert skip < |view| by {
      MulMonotone(TotalPages(|collection|, p.limit) - 1, p.page - 1, p.limit);
    }
  }

  /** An empty collection reads "Showing 1 to 0 of 0 results": the range is empty. */
  lemma EmptyCollectionRange(limit: int)
    requires limit > 0
    ensures RangeStart(Pagination(0, 1, 0, limit)) == 1 && RangeEnd(Pagination(0, 1, 0, limit)) == 0
  {
  }

  predicate PreviousDisabled(p: Pagination) {
    p.page <= 1
  }

  predicate NextDisabled(p: Pagination) {
    p.page >= p.totalPages
  }

  /** The page the Previous button requests. */
  function PreviousPage(p: Pagination): int {
    p.page - 1
  }

  /** The page the Next button requests. */
  function NextPage(p: Pagination): int {
    p.page + 1
  }

  /**
   * From a page in range, an enabled button requests a page that is again in range, and the
   * first and last pages disable the button that would leave the range.
   */
  lemma NavigationStaysInRange(p: Pagination)
    requires 1 <= p.page <= p.totalPages
    ensures !PreviousDisabled(p) ==> PreviousPage(p) == p.page - 1 && 1 <= PreviousPage(p) <= p.totalPages
    ensures !NextDisabled(p) ==> NextPage(p) == p.page + 1 && 1 <= NextPage(p) <= p.totalPages
    ensures PreviousDisabled(p) <==> p.page == 1
    ensures NextDisabled(p) <==> p.page == p.totalPages
    ensures p.page == 1 ==> PreviousDisabled(p)
    ensures p.page == p.totalPages ==> NextDisabled(p)
  {
  }

  datatype Badge = Red | Yellow | Green | Blue | Gray

  /** high is red, medium yellow, anything else (low) green. */
  function PriorityBadge(p: Priority): Badge {
    if p == High then Red else if p == Medium then Yellow else Green
  }

  /** open is blue, in-progress yellow, resolved green, anything else (closed) gray. */
  function StatusBadge(s: Status): Badge {
    if s == Open then Blue else if s == InProgress then Yellow else if s == Resolved then Green else Gray
  }

  /** The badge colours tell every priority apart, and every status apart. */
  lemma BadgesDistinguishValues()
    ensures forall p, q :: PriorityBadge(p) == PriorityBadge(q) ==> p == q
    ensures forall s, t :: StatusBadge(s) == StatusBadge(t) ==> s == t
    ensures PriorityBadge(High) == Red && PriorityBadge(Medium) == Yellow && PriorityBadge(Low) == Green
    ensures StatusBadge(Open) == Blue && StatusBadge(InProgress) == Yellow
    ensures StatusBadge(Resolved) == Green && StatusBadge(Closed) == Gray
  {
  }
}
