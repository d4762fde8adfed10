/**
 * The incident record and the rules its schema enforces when a record is created:
 * two enumerations with defaults, two required text fields that are trimmed and
 * length-bounded, and the creation/update timestamps.
 */
module IncidentModel {
  import opened Wrappers
  import opened JsString

  datatype Priority = Low | Medium | High
  datatype Status = Open | InProgress | Resolved | Closed

  /** The enumerated values, as the schema lists them. */
  const PriorityValues: seq<string> := ["low", "medium", "high"]
  const StatusValues: seq<string> := ["open", "in-progress", "resolved", "closed"]

  /** Values stored when the field is absent from the input. */
  const DefaultPriority: Priority := Medium
  const DefaultStatus: Status := Open

  /** Length bounds, in UTF-16 code units. */
  const NameMinLength: nat := 2
  const NameMaxLength: nat := 100
  const DescriptionMinLength: nat := 10
  const DescriptionMaxLength: nat := 1000

  /** Field names, as they appear as keys of request bodies and error maps. */
  const CustomerNameKey := "customerName"
  const DescriptionKey := "description"
  const PriorityKey := "priority"
  const StatusKey := "status"
  const FieldKeys: set<string> := {CustomerNameKey, DescriptionKey, PriorityKey, StatusKey}

  const NameRequired := "Customer name is required"
  const NameTooShort := "Customer name must be at least 2 characters long"
  const NameTooLong := "Customer name cannot exceed 100 characters"
  const DescriptionRequired := "Description is required"
  const DescriptionTooShort := "Description must be at least 10 characters long"
  const DescriptionTooLong := "Description cannot exceed 1000 characters"

  /** A stored incident. Timestamps are instants on one clock (milliseconds). */
  datatype Incident = Incident(
    id: string,
    customerName: string,
    description: string,
    priority: Priority,
    status: Status,
    createdAt: int,
    updatedAt: int)

  /**
   * A partial incident as a JSON body carries it: each of the four writable fields may be
   * absent (`None`). Values are strings; other JSON types are not modelled.
   */
  datatype Fields = Fields(
    customerName: Option<string>,
    description: Option<string>,
    priority: Option<string>,
    status: Option<string>)

  function PriorityName(p: Priority): string {
    match p
    case Low => "low"
    case Medium => "medium"
    case High => "high"
  }

  function StatusName(s: Status): string {
    match s
    case Open => "open"
    case InProgress => "in-progress"
    case Resolved => "resolved"
    case Closed => "closed"
  }

  /** The priority enum validator: a listed value, or the `{VALUE} is not a valid priority level` error. */
  function ParsePriority(v: string): (r: Result<Priority, string>)
    ensures r.Ok? <==> v in PriorityValues
    ensures r.Ok? ==> PriorityName(r.value) == v
    ensures r.Err? ==> r.error == v + " is not a valid priority level"
  {
    if v == "low" then Ok(Low)
    else if v == "medium" then Ok(Medium)
    else if v == "high" then Ok(High)
    else Err(v + " is not a valid priority level")
  }

  /** The status enum validator: a listed value, or the `{VALUE} is not a valid status` error. */
  function ParseStatus(v: string): (r: Result<Status, string>)
    ensures r.Ok? <==> v in StatusValues
    ensures r.Ok? ==> StatusName(r.value) == v
    ensures r.Err? ==> r.error == v + " is not a valid status"
  {
    if v == "open" then Ok(Open)
    else if v == "in-progress" then Ok(InProgress)
    else if v == "resolved" then Ok(Resolved)
    else if v == "closed" then Ok(Closed)
    else Err(v + " is not a valid status")
  }

  /** Every enum value has a distinct name, and parsing a name gives the value back. */
  lemma EnumNamesRoundTrip(p: Priority, s: Status)
    ensures ParsePriority(PriorityName(p)) == Ok(p) && PriorityName(p) in PriorityValues
    ensures ParseStatus(StatusName(s)) == Ok(s) && StatusName(s) in StatusValues
    ensures forall q: Priority :: PriorityName(q) == PriorityName(p) ==> q == p
    ensures forall t: Status :: StatusName(t) == StatusName(s) ==> t == s
  {
  }

  predicate WithinLength(s: string, min: nat, max: nat) {
    min <= Utf16Length(s) <= max
  }

  /** The minlength and maxlength validators of one text field: the message of the one that fails. */
  function LengthError(s: string, min: nat, max: nat, tooShort: string, tooLong: string): (e: Option<string>)
    ensures e.None? <==> WithinLength(s, min, max)
    ensures e.Some? && Utf16Length(s) < min ==> e.value == tooShort
    ensures e.Some? && Utf16Length(s) >= min ==> e.value == tooLong
  {
    if Utf16Length(s) < min then Some(tooShort)
    else if Utf16Length(s) > max then Some(tooLong)
    else None
  }

  /**
   * One required, trimmed, length-bounded text field: the trim setter runs first, then the
   * validators in order (required, which an empty string fails; minlength; maxlength); the
   * first failing validator's message is the field's error.
   */
  function CheckText(v: Option<string>, min: nat, max: nat, required: string, tooShort: string, tooLong: string)
    : (r: Result<string, string>)
    requires 1 <= min
    ensures r.Ok? <==> v.Some? && WithinLength(Trim(v.value), min, max)
    ensures r.Ok? ==> r.value == Trim(v.value) && IsTrimmed(r.value)
    ensures r.Err? && (v.None? || Trim(v.value) == "") ==> r.error == required
    ensures r.Err? && v.Some? && Trim(v.value) != "" ==>
              Some(r.error) == LengthError(Trim(v.value), min, max, tooShort, tooLong)
  {
    match v
    case None => Err(required)
    case Some(raw) =>
      var t := Trim(raw);
      TrimIsInfix(raw);
      if t == "" then Err(required)
      else match LengthError(t, min, max, tooShort, tooLong)
        case Some(m) => Err(m)
        case None => Ok(t)
  }

  function CheckCustomerName(v: Option<string>): Result<string, string> {
    CheckText(v, NameMinLength, NameMaxLength, NameRequired, NameTooShort, NameTooLong)
  }

  function CheckDescription(v: Option<string>): Result<string, string> {
    CheckText(v, DescriptionMinLength, DescriptionMaxLength, DescriptionRequired, DescriptionTooShort, DescriptionTooLong)
  }

  /** The priority path: the default when absent, otherwise the enum validator (no trimming). */
  function CheckPriority(v: Option<string>): (r: Result<Priority, string>)
    ensures v.None? ==> r == Ok(DefaultPriority)
    ensures v.Some? ==> (r.Ok? <==> v.value in PriorityValues)
    ensures v.Some? && r.Ok? ==> PriorityName(r.value) == v.value
    ensures r.Err? ==> v.Some? && r.error == v.value + " is not a valid priority level"
  {
    match v
    case None => Ok(DefaultPriority)
    case Some(s) => ParsePriority(s)
  }

  function CheckStatus(v: Option<string>): (r: Result<Status, string>)
    ensures v.None? ==> r == Ok(DefaultStatus)
    ensures v.Some? ==> (r.Ok? <==> v.value in StatusValues)
    ensures v.Some? && r.Ok? ==> StatusName(r.value) == v.value
    ensures r.Err? ==> v.Some? && r.error == v.value + " is not a valid status"
  {
    match v
    case None => Ok(DefaultStatus)
    case Some(s) => ParseStatus(s)
  }

  /** The error map entry a path contributes: its message under its own name, if it failed. */
  function ErrorEntry<T>(key: string, r: Result<T, string>): (e: map<string, string>)
    ensures e.Keys <= {key}
    ensures key in e <==> r.Err?
    ensures key in e ==> e[key] == r.error
  {
    if r.Err? then map[key := r.error] else map[]
  }

  /** The error map of a failed validation: one message for every failing field. */
  function SchemaErrors(f: Fields): (e: map<string, string>)
    ensures e.Keys <= FieldKeys
    ensures CustomerNameKey in e <==> CheckCustomerName(f.customerName).Err?
    ensures CustomerNameKey in e ==> e[CustomerNameKey] == CheckCustomerName(f.customerName).error
    ensures DescriptionKey in e <==> CheckDescription(f.description).Err?
    ensures DescriptionKey in e ==> e[DescriptionKey] == CheckDescription(f.description).error
    ensures PriorityKey in e <==> CheckPriority(f.priority).Err?
    ensures PriorityKey in e ==> e[PriorityKey] == CheckPriority(f.priority).error
    ensures StatusKey in e <==> CheckStatus(f.status).Err?
    ensures StatusKey in e ==> e[StatusKey] == CheckStatus(f.status).error
  {
    assert CustomerNameKey != DescriptionKey && CustomerNameKey != PriorityKey && CustomerNameKey != StatusKey;
    assert DescriptionKey != PriorityKey && DescriptionKey != StatusKey && PriorityKey != StatusKey;
    ErrorEntry(CustomerNameKey, CheckCustomerName(f.customerName))
    + ErrorEntry(DescriptionKey, CheckDescription(f.description))
    + ErrorEntry(PriorityKey, CheckPriority(f.priority))
    + ErrorEntry(StatusKey, CheckStatus(f.status))
  }

  /** What the schema accepts, stated field by field. */
  predicate Acceptable(f: Fields) {
    && f.customerName.Some? && WithinLength(Trim(f.customerName.value), NameMinLength, NameMaxLength)
    && f.description.Some? && WithinLength(Trim(f.description.value), DescriptionMinLength, DescriptionMaxLength)
    && (f.priority.None? || f.priority.value in PriorityValues)
    && (f.status.None? || f.status.value in StatusValues)
  }

  /** The invariant of every stored record. */
  predicate Valid(i: Incident) {
    && IsTrimmed(i.customerName) && WithinLength(i.customerName, NameMinLength, NameMaxLength)
    && IsTrimmed(i.description) && WithinLength(i.description, DescriptionMinLength, DescriptionMaxLength)
    && i.createdAt <= i.updatedAt
  }

  /**
   * Creating a record from input fields: an identifier and the current time come from the
   * store. Either every field passes (defaults filled in, text trimmed, both timestamps set to
   * `now`) or the result is the validation error map, which is never empty.
   */
  function Create(f: Fields, id: string, now: int): (r: Result<Incident, map<string, string>>)
    ensures r.Ok? <==> Acceptable(f)
    ensures r.Ok? ==> Valid(r.value) && r.value.id == id
                      && r.value.createdAt == now && r.value.updatedAt == now
    ensures r.Ok? ==> r.value.customerName == Trim(f.customerName.value)
                      && r.value.description == Trim(f.description.value)
    ensures r.Ok? ==> (if f.priority.None? then r.value.priority == DefaultPriority
                       else PriorityName(r.value.priority) == f.priority.value)
    ensures r.Ok? ==> (if f.status.None? then r.value.status == DefaultStatus
                       else StatusName(r.value.status) == f.status.value)
    ensures r.Err? ==> r.error == SchemaErrors(f) && r.error != map[]
  {
    var name := CheckCustomerName(f.customerName);
    var description := CheckDescription(f.description);
    var priority := CheckPriority(f.priority);
    var status := CheckStatus(f.status);
    if name.Ok? && description.Ok? && priority.Ok? && status.Ok? then
      Ok(Incident(id, name.value, description.value, priority.value, status.value, now, now))
    else
      var e := SchemaErrors(f);
      assert CustomerNameKey in e || DescriptionKey in e || PriorityKey in e || StatusKey in e;
      Err(e)
  }

  /** The writable fields of a stored record, as a full body. */
  function ToFields(i: Incident): Fields {
    Fields(Some(i.customerName), Some(i.description), Some(PriorityName(i.priority)), Some(StatusName(i.status)))
  }

  /** The four writable fields read from a JSON object of strings; other keys are ignored. */
  function FieldsOf(m: map<string, string>): (f: Fields)
    ensures f.customerName == (if CustomerNameKey in m then Some(m[CustomerNameKey]) else None)
    ensures f.description == (if DescriptionKey in m then Some(m[DescriptionKey]) else None)
    ensures f.priority == (if PriorityKey in m then Some(m[PriorityKey]) else None)
    ensures f.status == (if StatusKey in m then Some(m[StatusKey]) else None)
  {
    Fields(
      if CustomerNameKey in m then Some(m[CustomerNameKey]) else None,
      if DescriptionKey in m then Some(m[DescriptionKey]) else None,
      if PriorityKey in m then Some(m[PriorityKey]) else None,
      if StatusKey in m then Some(m[StatusKey]) else None)
  }

  /**
   * Round trip: the writable fields of any valid record re-create that record, up to the
   * identifier and timestamps the store assigns.
   */
  lemma CreateFromStoredFields(i: Incident, id: string, now: int)
    requires Valid(i)
    ensures Create(ToFields(i), id, now) == Ok(i.(id := id, createdAt := now, updatedAt := now))
  {
    TrimmedIsFixed(i.customerName);
    TrimmedIsFixed(i.description);
    EnumNamesRoundTrip(i.priority, i.status);
  }

  /** Omitted enum fields take the schema defaults. */
  lemma OmittedEnumsDefault(name: string, description: string, id: string, now: int)
    requires Create(Fields(Some(name), Some(description), None, None), id, now).Ok?
    ensures Create(Fields(Some(name), Some(description), None, None), id, now).value.priority == Medium
    ensures Create(Fields(Some(name), Some(description), None, None), id, now).value.status == Open
  {
  }

  /** An unlisted priority is rejected, with the offending value in the message. */
  lemma InvalidPriorityRejected(f: Fields, id: string, now: int)
    requires f.priority.Some? && f.priority.value !in PriorityValues
    ensures Create(f, id, now).Err?
    ensures Create(f, id, now).error[PriorityKey] == f.priority.value + " is not a valid priority level"
  {
  }

  /**
   * Whitespace around the text does not count towards the bounds: a name of one letter padded
   * by a space is two code units long as sent, and too short once stored.
   */
  lemma PaddedNameTooShort()
    ensures Utf16Length(" a") == 2
    ensures CheckCustomerName(Some(" a")) == Err(NameTooShort)
  {
    assert TrimStart(" a") == "a" by {
      assert " a"[1..] == "a";
    }
    assert TrimEnd("a") == "a";
  }
}
