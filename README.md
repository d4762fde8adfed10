# Incident app: a verified model of its rules

The incident app lists, creates and edits incident records: a customer name, a
description, a priority (low, medium, high) and a status (open, in-progress, resolved,
closed), with creation and update timestamps. This project models the app's rule sets in
Dafny and proves what each of them promises:

- the **schema** of a record: enum values and their defaults, trimming, required text,
  length bounds counted in UTF-16 code units as JavaScript counts them, and timestamps
  (`incident.dfy`, with the JavaScript string facts in `js_string.dfy`);
- the standalone **field validator** (`validation.dfy`);
- the **collection endpoint**: defaults of the list query, skip, sort direction, total
  pages, the page slice of the sorted collection, and the required-field pre-check of
  creation with its 400/201/500 answers (`route.dfy`). The database is replaced by an
  in-memory sequence; its sort is any order that is sorted by the key and a permutation of
  the collection (`listing.dfy`), because the database fixes no order between equal keys;
- the **table**'s sort arrows, result range, Previous/Next buttons and badge colours
  (`grid.dfy`);
- the **form**'s initial values, its single-field change and its submission (`form.dfy`);
- the **page**'s own state and its handlers, as a class whose methods update its fields
  (`page.dfy`).

`wrappers.dfy` holds the `Option` and `Result` types.

Cross-file properties proved:

- When no two records share a key under the sort field, pages 1 to totalPages laid end to
  end are the sorted collection, each record once. This holds even though every page is a
  request of its own. With ties it can fail (see "## Findings").
- The grid's "Showing X to Y" range names exactly the records of the page the endpoint
  answered.
- The page's query is read back by the endpoint as sent.
- An untouched create form is refused by the pre-check.
- The fields of an unedited edit form pass the creation schema and give back the record the
  form was filled from. The form is then sent as a PUT to the item endpoint, which is not
  part of this model.

## Behaviour of the code worth knowing

- A body that passes the pre-check but fails the schema (a name of only spaces, an unlisted
  priority, a description too short) ends in the handler's catch and is answered 500, not
  with a client error.
- An unknown `sortField` is passed through to the database. If the database accepts the name
  as a path, no record has that field, or, for `__v` (the version key every created record
  holds as 0), every record holds the same value. Either way every order of the collection
  is a possible answer (`Listing.UnknownFieldAnyOrder`). Names the database refuses are
  listed under "## Left out".
- The sort has no tie-breaker, and every page is a request of its own. Records with equal
  keys may come back in a different order on each request, so one record can appear on two
  pages while another appears on none (see "## Findings").
- The query parameters are not checked. A page below 1 gives a negative skip, which the
  database refuses, so the answer is 500.
- The validator checks lengths only. It does not check that a field is present and does not
  trim. Its messages are fixed strings, the same as the schema's.
- An empty collection reports `totalPages` 0. The page's initial state has 1.
- The page mounts the form without a `key`, and the form computes its values once, when it
  is first shown. Clicking Edit on record B while the form is open for record A keeps A's
  values, and the next submit sends them as a PUT to B's path. Clicking "Create New
  Incident" while editing keeps the record being edited (`Home.OpenForm`), so the next
  submit is still a PUT to that record.

## Model

| member | source | states |
|---|---|---|
| `JsString.TrimIsInfix` | app/lib/models/incident.ts:18 | trimming removes a whitespace prefix and a whitespace suffix (the ECMAScript whitespace and line terminators) and nothing else; the result starts and ends with non-whitespace |
| `JsString.TrimIdempotent` | app/lib/models/incident.ts:25 | trimming a stored (trimmed) value again changes nothing |
| `JsString.TrimShortens` | app/lib/models/incident.ts:18 | the trimmed value is never longer than the raw one |
| `JsString.Trim` | app/lib/models/incident.ts:18 | `String.prototype.trim`: the leading and the trailing ECMAScript whitespace removed; what it keeps is stated by TrimIsInfix, TrimIdempotent and TrimShortens |
| `JsString.Utf16Length` | app/lib/validation.ts:11 | JavaScript `length`: one code unit per character up to U+FFFF, two above; its bounds are stated by Utf16LengthBounds |
| `JsString.Utf16LengthBounds` | app/lib/validation.ts:11 | `length` counts UTF-16 code units: between the number of characters and twice that, equal to it without astral characters |
| `IncidentModel.ParsePriority` | app/lib/models/incident.ts:29-34 | accepted exactly when the value is one of low/medium/high, giving the value of that name; otherwise the error "{VALUE} is not a valid priority level" with the value filled in |
| `IncidentModel.ParseStatus` | app/lib/models/incident.ts:37-42 | accepted exactly when the value is one of open/in-progress/resolved/closed; otherwise "{VALUE} is not a valid status" |
| `IncidentModel.EnumNamesRoundTrip` | app/lib/models/incident.ts:7-8 | every priority and status has a distinct stored name, and parsing that name gives the value back |
| `IncidentModel.CheckPriority` | app/lib/models/incident.ts:29-36 | absent gives the default medium; a given value is accepted exactly when it is one of low/medium/high, untrimmed, and then stored as that name; otherwise the enum message with the value filled in |
| `IncidentModel.CheckStatus` | app/lib/models/incident.ts:37-44 | absent gives the default open; a given value is accepted exactly when it is one of the four statuses, untrimmed, and then stored as that name; otherwise "{VALUE} is not a valid status" |
| `IncidentModel.LengthError` | app/lib/models/incident.ts:19-20 | no error exactly when the length is within the bounds; below the minimum the minlength message, above the maximum the maxlength message |
| `IncidentModel.CheckText` | app/lib/models/incident.ts:15-28 | a text field is accepted exactly when present and its trimmed value is within the bounds; the stored value is the trimmed one; absent or blank gives the required message, otherwise the length message |
| `IncidentModel.SchemaErrors` | app/lib/models/incident.ts:13-45 | the error map has a key for exactly the failing fields, each with that field's first failing message, and no other keys |
| `IncidentModel.Create` | app/lib/models/incident.ts:13-49 | creation succeeds exactly when every field is acceptable; the record is valid (trimmed, bounded), carries the given id, `createdAt == updatedAt == now`, omitted priority/status take medium/open and given ones are stored as named; otherwise a non-empty error map |
| `IncidentModel.CreateFromStoredFields` | app/lib/models/incident.ts:13-47 | round trip: the four fields of any valid record re-create that record, up to id and timestamps |
| `IncidentModel.OmittedEnumsDefault` | app/lib/models/incident.ts:35-43 | a record created without priority and status has priority medium and status open |
| `IncidentModel.InvalidPriorityRejected` | app/lib/models/incident.ts:29-34 | an unlisted priority makes creation fail, and the error map's priority entry names the value |
| `IncidentModel.PaddedNameTooShort` | app/lib/models/incident.ts:15-21 | the bounds apply after trimming: " a" is 2 code units as sent and too short once stored |
| `Validation.ValidateIncidentData` | app/lib/validation.ts:7-29 | only customerName and description can be keys; a field has an entry exactly when it is present and its raw (untrimmed) length is outside [2,100] or [10,1000]; the entry is the too-short or too-long message; each entry depends on its own field only; the messages are the schema's |
| `Listing.Insert` | app/api/incidents/route.ts:26-27 | inserting into a sorted sequence keeps it sorted and adds exactly that record |
| `Listing.SortByKey` | app/api/incidents/route.ts:26-27 | the result is sorted by the chosen field and direction and is a permutation of the collection |
| `Listing.SortedViewExists` | app/api/incidents/route.ts:26-27 | every collection has an order the database may return for every sort request |
| `Listing.UnknownFieldAnyOrder` | app/api/incidents/route.ts:22 | sorting by a name that is no stored field constrains nothing: every permutation is sorted |
| `Listing.Window` | app/api/incidents/route.ts:28-29 | skip then limit: at most `limit` records, exactly `limit` when enough remain, each the record at position skip + k |
| `Listing.WindowSorted` | app/api/incidents/route.ts:26-29 | a window of a sorted order is sorted |
| `Listing.PriorityOrderIsByName` | app/api/incidents/route.ts:22 | priority sorts by its stored name, so ascending is high, low, medium |
| `Listing.KeyOf` | app/api/incidents/route.ts:22-27 | the key a record sorts by: the stored text of the four writable fields and the id, the timestamps as instants, one shared missing key for any other name; SortableColumnsAreStoredFields and UnknownFieldAnyOrder state what follows |
| `Listing.KeyLe` | app/api/incidents/route.ts:22-27 | the database's comparison of those keys (missing, then numbers, then text by code points); a total order, by KeyLeTotal, KeyLeTransitive and KeyLeAntisymmetric |
| `Listing.KeyLeTotal` | app/api/incidents/route.ts:22 | any two sort keys are comparable |
| `Listing.KeyLeTransitive` | app/api/incidents/route.ts:22 | the key order is transitive |
| `Listing.KeyLeAntisymmetric` | app/api/incidents/route.ts:22 | keys each at most the other are equal |
| `Listing.SortedUnique` | app/api/incidents/route.ts:22-27 | when the sort leaves no two records tied (distinct keys, or distinct ids with the `_id` tie-breaker), any two sorted arrangements of the same records are equal |
| `Listing.TieBrokenIsSortedView` | app/api/incidents/route.ts:22-27 | an order sorted by the field and then by id is one the sort by the field alone may give |
| `Listing.SortedViewUnique` | app/api/incidents/route.ts:22-27 | when no two records share a key, the database has exactly one order to return for the sort |
| `IncidentsRoute.OrDefault` | app/api/incidents/route.ts:15-16 | the JavaScript or-operator with a default on a string: the value when present and non-empty, otherwise the default (used also by the form's initial values) |
| `IncidentsRoute.IsDescending` | app/api/incidents/route.ts:22 | the direction ternary: descending exactly for the string "desc", ascending for every other value; ListedPageSorted and QueryRoundTrip state its use |
| `IncidentsRoute.ParamsOf` | app/api/incidents/route.ts:11-16 | page and limit default to 1 and 10 when absent; sortField and sortOrder default to createdAt and desc when absent or empty |
| `IncidentsRoute.DefaultListParams` | app/api/incidents/route.ts:11-16 | a request without parameters means page 1, limit 10, createdAt, descending |
| `IncidentsRoute.Skip` | app/api/incidents/route.ts:19 | page 1 skips nothing; pages from 1 on skip a non-negative number; pages below 1 a negative one |
| `IncidentsRoute.TotalPages` | app/api/incidents/route.ts:39 | the ceiling of total/limit: the pages cover the total, and the last page is not empty; zero exactly for an empty collection |
| `IncidentsRoute.List` | app/api/incidents/route.ts:5-50 | for an order `view` that is a sorted permutation of the collection: answered (200) exactly when page >= 1, else 500 "Failed to fetch incidents"; the records are the window of the sorted order at skip, at most `limit`; total is the whole collection's size; page and limit are echoed; totalPages is the ceiling |
| `IncidentsRoute.ListedPageSorted` | app/api/incidents/route.ts:22-30 | every answered page is in the requested order, descending exactly for "desc" |
| `IncidentsRoute.PagesUpToIsPrefix` | app/api/incidents/route.ts:19-30 | when the requests for pages 1 to n all see the same order, the pages together are exactly the first n * limit records of it |
| `IncidentsRoute.PagesPartition` | app/api/incidents/route.ts:19-41 | each page is a separate request with its own order; when no two records share a key under the sort field, pages 1 to totalPages laid end to end are the database's order and, as a multiset, exactly the collection: no overlap and no gap |
| `IncidentsRoute.TiesBreakPagination` | app/api/incidents/route.ts:22-30 | two records differing only in their id are both sorted either way by priority; with limit 1, page 1 of one order and page 2 of the other are the same record, and the pages are not the collection |
| `IncidentsRoute.TieBrokenPagesPartition` | app/api/incidents/route.ts:19-41 | with the sort tie-broken by `_id` and a store whose ids are distinct, pages 1 to totalPages partition the collection for every sort field, whatever order each request saw |
| `IncidentsRoute.PagesPastTheEndEmpty` | app/api/incidents/route.ts:19-30 | a page after the last is answered with no records |
| `IncidentsRoute.Post` | app/api/incidents/route.ts:52-73 | 400 "Customer name and description are required" exactly when either field is absent or empty, store unchanged; 201 exactly when the schema accepts the body, with the created record appended; otherwise 500 "Failed to create incident", store unchanged |
| `IncidentsRoute.Truthy` | app/api/incidents/route.ts:57 | JavaScript truthiness of a body field: present and not the empty string; AcceptableIsTruthy and BlankNameIsServerError relate it to the schema |
| `IncidentsRoute.AcceptableIsTruthy` | app/api/incidents/route.ts:57 | a body the schema accepts always passes the pre-check |
| `IncidentsRoute.PostPreservesInvariant` | app/api/incidents/route.ts:64-65 | with a fresh id, creation keeps every stored record valid and the ids distinct |
| `IncidentsRoute.BlankNameIsServerError` | app/api/incidents/route.ts:57-72 | a name of only spaces passes the pre-check but is rejected by the schema: 500, nothing stored |
| `IncidentGrid.RenderSortIcon` | app/components/IncidentGrid.tsx:32-39 | an arrow exactly on the column equal to sortField; up exactly for asc, down for desc |
| `IncidentGrid.AtMostOneSortIcon` | app/components/IncidentGrid.tsx:59-63 | of the sortable columns, at most one shows an arrow |
| `IncidentGrid.SortableColumnsAreStoredFields` | app/components/IncidentGrid.tsx:59-63 | each of the five sortable columns (customerName, description, priority, status, createdAt) is a field every record has |
| `IncidentGrid.RangeStart` | app/components/IncidentGrid.tsx:140 | the first position shown is one past the records the endpoint skipped, and at least 1 on a page from 1 on |
| `IncidentGrid.RangeEnd` | app/components/IncidentGrid.tsx:141 | the end of the range is the end of the page or the total, whichever is smaller |
| `IncidentGrid.RangeWithinPage` | app/components/IncidentGrid.tsx:140-141 | the range ends at or before the total and spans at most `limit` positions |
| `IncidentGrid.RangeMatchesListing` | app/components/IncidentGrid.tsx:140-141 | for a page in range that the endpoint answered, positions start to end of the order are exactly the records shown |
| `IncidentGrid.EmptyCollectionRange` | app/components/IncidentGrid.tsx:140-142 | an empty collection reads "Showing 1 to 0 of 0 results" |
| `IncidentGrid.PreviousDisabled` | app/components/IncidentGrid.tsx:149 | Previous is disabled from page 1 down; NavigationStaysInRange states it is disabled exactly on the first page |
| `IncidentGrid.NextDisabled` | app/components/IncidentGrid.tsx:157 | Next is disabled from the last page up; NavigationStaysInRange states it is disabled exactly on the last page |
| `IncidentGrid.PreviousPage` | app/components/IncidentGrid.tsx:148 | the page Previous requests; NavigationStaysInRange states it stays in [1, totalPages] when enabled |
| `IncidentGrid.NextPage` | app/components/IncidentGrid.tsx:156 | the page Next requests; NavigationStaysInRange states it stays in [1, totalPages] when enabled |
| `IncidentGrid.NavigationStaysInRange` | app/components/IncidentGrid.tsx:148-157 | for a page in [1, totalPages]: Previous is disabled exactly on the first page and otherwise requests page - 1; Next is disabled exactly on the last page and otherwise requests page + 1; an enabled button never leaves [1, totalPages] |
| `IncidentGrid.PriorityBadge` | app/components/IncidentGrid.tsx:84-88 | the colour of a priority badge; BadgesDistinguishValues states the mapping and that it tells priorities apart |
| `IncidentGrid.StatusBadge` | app/components/IncidentGrid.tsx:98-104 | the colour of a status badge; BadgesDistinguishValues states the mapping and that it tells statuses apart |
| `IncidentGrid.BadgesDistinguishValues` | app/components/IncidentGrid.tsx:84-104 | high red, medium yellow, low green; open blue, in-progress yellow, resolved green, closed gray: no two priorities and no two statuses share a colour |
| `IncidentForm.InitialFormData` | app/components/IncidentForm.tsx:16-21 | the four fields, each the initial data's value when non-empty, else "" for the texts and the schema defaults medium and open |
| `IncidentForm.OptionsAreSchemaEnums` | app/components/IncidentForm.tsx:81-101 | the select options are exactly the values the schema's enums accept |
| `IncidentForm.UntouchedCreateFormRejected` | app/components/IncidentForm.tsx:16-21 | submitting the create form untouched sends empty texts, which the endpoint answers with 400 |
| `IncidentForm.FormDefaultsAgreeWithSchema` | app/components/IncidentForm.tsx:19-20 | a create form with only name and description filled creates the same record as a body without priority and status |
| `IncidentForm.UneditedFormRecreatesIncident` | app/components/IncidentForm.tsx:16-21 | an edit form filled from a valid record and left unchanged holds that record's fields, which pass the creation schema and give the same record back |
| `IncidentForm.Form.constructor` | app/components/IncidentForm.tsx:16-21 | the form starts from the initial form data |
| `IncidentForm.Form.HandleChange` | app/components/IncidentForm.tsx:28-35 | the named field takes the new value; every other field keeps its value |
| `IncidentForm.Form.HandleSubmit` | app/components/IncidentForm.tsx:23-26 | the current values are handed on unchanged |
| `HomePage.NextSortOrder` | app/page.tsx:87-89 | a different field starts descending; the same field flips the order |
| `HomePage.SortToggleTwice` | app/page.tsx:87-89 | clicking the same header twice restores the order |
| `HomePage.QueryFor` | app/page.tsx:26-31 | the list query for a page state: page, limit, sort field and sort order as sent; QueryRoundTrip states what the endpoint reads back |
| `HomePage.QueryRoundTrip` | app/page.tsx:26-31 | the endpoint reads back the page's page, limit and sort field, and sorts descending exactly when the arrow shown points down |
| `HomePage.InitialQueryIsDefault` | app/page.tsx:10-22 | the first request asks for exactly the endpoint's defaults |
| `HomePage.Home.constructor` | app/page.tsx:10-22 | no rows, total 0, page 1, totalPages 1, limit 10, sorted by createdAt descending, form closed, nothing being edited; the first list request means the endpoint's defaults |
| `HomePage.Home.Query` | app/page.tsx:24-31 | the list request for the current state; the constructor, HandleSort and HandlePageChange state what it asks for after each |
| `HomePage.Home.ApplyFetched` | app/page.tsx:36-37 | a successful answer replaces the rows and the summary; sort and form state stay |
| `HomePage.Home.HandleSubmit` | app/page.tsx:47-68 | PUT to /api/incidents/{id} while editing, POST to /api/incidents otherwise, body the form's values; after a completed request the form is closed and nothing is edited; a thrown request changes nothing |
| `HomePage.Home.HandleEdit` | app/page.tsx:70-73 | the record becomes the one being edited and the form opens; nothing else changes |
| `HomePage.Home.OpenForm` | app/page.tsx:101 | the form opens; nothing else changes |
| `HomePage.Home.HandleDelete` | app/page.tsx:75-84 | a DELETE to /api/incidents/{id} |
| `HomePage.Home.HandleSort` | app/page.tsx:86-91 | the clicked field becomes the sort field with the order NextSortOrder gives; pagination, rows and form state are untouched; the next list request sorts by that field, on the same page |
| `HomePage.Home.HandlePageChange` | app/page.tsx:93-95 | only the page number changes; total, limit and totalPages stay; the next list request asks for that page with the same limit |

## Left out

- The database driver and its calls (connecting, find, sort, skip, limit, count, create) are not modelled. An in-memory sequence stands in for the collection. The database's order is a parameter, constrained to a sorted permutation.
- The record id and the creation time come from the store and the clock. They are parameters (`id`, `now`). ObjectId generation is not modelled, and neither is ObjectId ordering, which is approximated by the order of the id strings.
- Concurrency (`Promise.all`, async/await) is not modelled. Each handler is one sequential step.
- `parseInt` is not modelled. Page and limit reach the handler as integers, with `None` for an absent or empty parameter. Malformed values (NaN) are out.
- IncidentsRoute.List: requires limit > 0. A limit of 0 means "no limit" to the database and makes `Math.ceil` divide by zero. A negative limit is also out.
- IncidentsRoute.List: sort names the database refuses are not modelled. These include a path with an empty segment, such as `a..b`, and a name starting with `$`. On such a name the query throws and the handler answers 500. The model treats every name that is not a stored field as a field missing from every record.
- IncidentsRoute.PagesPartition: requires that no two records share a key under the sort field. With ties, the code's pages need not partition the collection (`IncidentsRoute.TiesBreakPagination`, and "## Findings").
- JsString.Utf16Length: covers well-formed strings only. A Dafny `char` is a Unicode scalar value, so a lone UTF-16 surrogate cannot be represented. JavaScript would count one as a single code unit.
- IncidentsRoute.TotalPages: integer ceiling with limit > 0, not floating-point `Math.ceil`.
- Request bodies carry only the four fields, with string values. JSON `null`, numbers, other types and extra keys (such as a client-supplied `_id` or `createdAt`) are not modelled.
- Network I/O is not modelled: `fetch`, `response.json()`, `URLSearchParams` encoding and `console.error`. Of the catch-all 500 paths, only two are modelled: a negative skip on listing and a schema rejection on creation.
- HomePage.Home.ApplyFetched: requires a successful list answer. On a 500 answer, the page's code would set its rows and its summary to `undefined`.
- The page re-fetches the list after submit and after delete, and whenever its query changes (`useEffect`). The model does not include that re-fetch, because it is I/O. `Home.Query` gives the request it sends, and `ApplyFetched` gives its effect on the state.
- Rendering is not modelled: JSX, CSS class strings (beyond the badge colours), date formatting with `toLocaleDateString`, React hooks and re-mounting. The form's initial state is computed once, at construction. The browser's `required` check on the inputs is also out.
- The handlers for a single record in app/api/incidents/[incidentId]/route.ts (get by id, update, delete) and their identifier-format check are not part of this model. So the update timestamp refresh appears only as the invariant `createdAt <= updatedAt`.
- next.config.mjs holds build configuration only.

## Findings

| source | as written | input that shows it | evidently intended | confidence | as-written member | corrected member |
|---|---|---|---|---|---|---|
| app/api/incidents/route.ts:22-30 | the sort is `{ [sortField]: direction }` with no tie-breaker, and each page is a separate query | two records that differ only in their id, sorted by priority, limit 1: page 1 can return the first record and page 2 that same record again, so the second is never listed | a sort with a unique tie-breaker, `{ [sortField]: direction, _id: 1 }`, so that the pages partition the collection | medium; not executed | `IncidentsRoute.TiesBreakPagination` | `IncidentsRoute.TieBrokenPagesPartition` |

`IncidentsRoute.List` models the handler as written, and its order is any order the code's
sort allows. The corrected sort is `Listing.SortedWith` with the id tie-breaker. Its orders
are also orders of the code's sort (`Listing.TieBrokenIsSortedView`), so every property of
`List` still holds for them.
