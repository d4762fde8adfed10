/**
 * The incident management page: the state it owns (the rows shown, the pagination summary,
 * the sort, whether the form is open and which record is being edited) and the handlers that
 * change it. Each handler that talks to the API returns the request it issues.
 */
module HomePage {
  import opened Wrappers
  import opened IncidentModel
  import opened IncidentsRoute
  import opened IncidentGrid

  datatype Verb = GET | POST | PUT | DELETE

  /** An HTTP request to the API: verb, path and JSON body (empty when there is none). */
  datatype Request = Request(verb: Verb, path: string, body: map<string, string>)

  const CollectionPath := "/api/incidents"

  function ItemPath(id: string): string {
    CollectionPath + "/" + id
  }

  /** The order after clicking the header of `field`: the same column flips, another starts descending. */
  function NextSortOrder(currentField: string, currentOrder: SortOrder, field: string): (o: SortOrder)
    ensures field != currentField ==> o == Desc
    ensures field == currentField ==> o != currentOrder
  {
    if field == currentField then (if currentOrder == Asc then Desc else Asc) else Desc
  }

  /** Clicking the same header twice restores the order. */
  lemma SortToggleTwice(field: string, order: SortOrder)
    ensures NextSortOrder(field, NextSortOrder(field, order, field), field) == order
  {
  }

  /** The query string of the list request built from the page's state. */
  function QueryFor(p: Pagination, sortField: string, sortOrder: SortOrder): ListQuery {
    ListQuery(Some(p.page), Some(p.limit), Some(sortField), Some(OrderName(sortOrder)))
  }

  /**
   * The endpoint reads back what the page asked for: its page, its limit, its sort field (an
   * empty one falls back to createdAt), and descending exactly when the arrow shown points down.
   */
  lemma QueryRoundTrip(p: Pagination, sortField: string, sortOrder: SortOrder)
    ensures ParamsOf(QueryFor(p, sortField, sortOrder)).page == p.page
    ensures ParamsOf(QueryFor(p, sortField, sortOrder)).limit == p.limit
    ensures ParamsOf(QueryFor(p, sortField, sortOrder)).sortField == (if sortField == "" then DefaultSortField else sortField)
    ensures IsDescending(ParamsOf(QueryFor(p, sortField, sortOrder)).sortOrder)
            <==> RenderSortIcon(sortField, sortOrder, sortField) == ChevronDown
  {
  }

  const InitialPagination := Pagination(0, 1, 1, 10)

  class Home {
    var incidents: seq<Incident>
    var pagination: Pagination
    var sortField: string
    var sortOrder: SortOrder
    var isFormOpen: bool
    var editingIncident: Option<Incident>

    /** The state on first render. */
    constructor ()
      ensures incidents == []
      ensures pagination == Pagination(0, 1, 1, 10)
      ensures sortField == "createdAt" && sortOrder == Desc
      ensures !isFormOpen && editingIncident == None
      ensures ParamsOf(Query()) == ParamsOf(ListQuery(None, None, None, None))
    {
      InitialQueryIsDefault();
      incidents := [];
      pagination := InitialPagination;
      sortField := "createdAt";
      sortOrder := Desc;
      isFormOpen := false;
      editingIncident := None;
    }

    /**
     * The list request `fetchIncidents` sends for the current state; the page sends it again
     * whenever the page number, the sort field or the sort order changes.
     */
    function Query(): ListQuery
      reads this
    {
      QueryFor(pagination, sortField, sortOrder)
    }

    /** `fetchIncidents` on a successful answer: the rows and the summary are replaced. */
    method ApplyFetched(response: ListResponse)
      requires response.Listed?
      modifies this
      ensures incidents == response.incidents && pagination == response.pagination
      ensures sortField == old(sortField) && sortOrder == old(sortOrder)
      ensures isFormOpen == old(isFormOpen) && editingIncident == old(editingIncident)
    {
      incidents := response.incidents;
      pagination := response.pagination;
    }

    /**
     * `handleSubmit`: PUT to the record's path while editing, POST to the collection
     * otherwise, with the form's values as the body. Once the request completes
     * (`delivered`), the form closes and nothing is being edited; a request that throws
     * leaves the state as it was.
     */
    method HandleSubmit(formData: map<string, string>, delivered: bool) returns (request: Request)
      modifies this
      ensures old(editingIncident).Some? ==> request == Request(PUT, ItemPath(old(editingIncident).value.id), formData)
      ensures old(editingIncident).None? ==> request == Request(POST, CollectionPath, formData)
      ensures delivered ==> !isFormOpen && editingIncident == None
      ensures !delivered ==> isFormOpen == old(isFormOpen) && editingIncident == old(editingIncident)
      ensures incidents == old(incidents) && pagination == old(pagination)
      ensures sortField == old(sortField) && sortOrder == old(sortOrder)
    {
      if editingIncident.Some? {
        request := Request(PUT, ItemPath(editingIncident.value.id), formData);
      } else {
        request := Request(POST, CollectionPath, formData);
      }
      if delivered {
        isFormOpen := false;
        editingIncident := None;
      }
    }

    /** `handleEdit`: the record becomes the one being edited and the form opens. */
    method HandleEdit(incident: Incident)
      modifies this
      ensures editingIncident == Some(incident) && isFormOpen
      ensures incidents == old(incidents) && pagination == old(pagination)
      ensures sortField == old(sortField) && sortOrder == old(sortOrder)
    {
      editingIncident := Some(incident);
      isFormOpen := true;
    }

    /** The "Create New Incident" button: the form opens; what was being edited stays. */
    method OpenForm()
      modifies this
      ensures isFormOpen && editingIncident == old(editingIncident)
      ensures incidents == old(incidents) && pagination == old(pagination)
      ensures sortField == old(sortField) && sortOrder == old(sortOrder)
    {
      isFormOpen := true;
    }

    /** `handleDelete`: a DELETE to the record's path; the page's own state is untouched. */
    method HandleDelete(id: string) returns (request: Request)
      ensures request == Request(DELETE, ItemPath(id), map[])
    {
      request := Request(DELETE, ItemPath(id), map[]);
    }

    /** `handleSort`: the clicked field becomes the sort field, with the order NextSortOrder gives. */
    method HandleSort(field: string)
      modifies this
      ensures sortField == field
      ensures sortOrder == NextSortOrder(old(sortField), old(sortOrder), field)
      ensures pagination == old(pagination) && incidents == old(incidents)
      ensures isFormOpen == old(isFormOpen) && editingIncident == old(editingIncident)
      ensures ParamsOf(Query()).sortField == (if field == "" then DefaultSortField else field)
      ensures ParamsOf(Query()).page == old(pagination).page
    {
      sortOrder := if field == sortField then (if sortOrder == Asc then Desc else Asc) else Desc;
      sortField := field;
    }

    /** `handlePageChange`: only the page number of the summary changes. */
    method HandlePageChange(newPage: int)
      modifies this
      ensures pagination == old(pagination).(page := newPage)
      ensures pagination.total == old(pagination).total && pagination.limit == old(pagination).limit
      ensures pagination.totalPages == old(pagination).totalPages
      ensures incidents == old(incidents) && sortField == old(sortField) && sortOrder == old(sortOrder)
      ensures isFormOpen == old(isFormOpen) && editingIncident == old(editingIncident)
      ensures ParamsOf(Query()).page == newPage && ParamsOf(Query()).limit == old(pagination).limit
    {
      pagination := pagination.(page := newPage);
    }
  }

  /** The initial state asks the endpoint for its defaults: page 1 of 10, newest first. */
  lemma InitialQueryIsDefault()
    ensures ParamsOf(QueryFor(InitialPagination, "createdAt", Desc)) == ParamsOf(ListQuery(None, None, None, None))
  {
  }
}
