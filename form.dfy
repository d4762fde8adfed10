/**
 * The create/edit form: its initial field values, the single-field update on every change
 * event, and submission, which hands the current values to the page unchanged.
 */
module IncidentForm {
  import opened Wrappers
  import opened JsString
  import opened IncidentModel
  import opened IncidentsRoute

  /** The form's state object: input name to current value. */
  type FormData = map<string, string>

  /** `initialData?.field`: every field is absent when there is no initial data. */
  function Given(initialData: Option<Fields>): Fields {
    initialData.GetOr(Fields(None, None, None, None))
  }

  /**
   * The initial state: the four fields, each taken from the initial data when it has a
   * non-empty value there (JavaScript `||`), else empty text and the schema's default
   * priority and status.
   */
  function InitialFormData(initialData: Option<Fields>): (m: FormData)
    ensures m.Keys == FieldKeys
    ensures m[CustomerNameKey] == OrDefault(Given(initialData).customerName, "")
    ensures m[DescriptionKey] == OrDefault(Given(initialData).description, "")
    ensures m[PriorityKey] == OrDefault(Given(initialData).priority, PriorityName(DefaultPriority))
    ensures m[StatusKey] == OrDefault(Given(initialData).status, StatusName(DefaultStatus))
  {
    var given := Given(initialData);
    map[CustomerNameKey := OrDefault(given.customerName, ""),
        DescriptionKey := OrDefault(given.description, ""),
        PriorityKey := OrDefault(given.priority, "medium"),
        StatusKey := OrDefault(given.status, "open")]
  }

  /** The options of the two selects, in the order they are listed. */
  const PriorityOptions: seq<string> := ["low", "medium", "high"]
  const StatusOptions: seq<string> := ["open", "in-progress", "resolved", "closed"]

  /** The select options are exactly the values the schema's enums accept. */
  lemma OptionsAreSchemaEnums()
    ensures forall v :: v in PriorityOptions <==> ParsePriority(v).Ok?
    ensures forall v :: v in StatusOptions <==> ParseStatus(v).Ok?
    ensures forall p :: PriorityName(p) in PriorityOptions
    ensures forall s :: StatusName(s) in StatusOptions
  {
  }

  /** An untouched create form has empty text fields, so the endpoint's pre-check refuses it. */
  lemma UntouchedCreateFormRejected(store: seq<Incident>, id: string, now: int)
    ensures Post(store, FieldsOf(InitialFormData(None)), id, now).0.BadRequest?
    ensures Post(store, FieldsOf(InitialFormData(None)), id, now).1 == store
  {
  }

  /**
   * The form fills in the schema defaults explicitly: typing only a name and a description
   * creates the same record as leaving priority and status out.
   */
  lemma FormDefaultsAgreeWithSchema(name: string, description: string, id: string, now: int)
    ensures Create(FieldsOf(InitialFormData(None)[CustomerNameKey := name][DescriptionKey := description]), id, now)
            == Create(Fields(Some(name), Some(description), None, None), id, now)
  {
    var f := FieldsOf(InitialFormData(None)[CustomerNameKey := name][DescriptionKey := description]);
    assert f == Fields(Some(name), Some(description), Some("medium"), Some("open"));
  }

  /** An edit form submitted without changes carries the record's fields, and they validate. */
  lemma UneditedFormRecreatesIncident(i: Incident, id: string, now: int)
    requires Valid(i)
    ensures FieldsOf(InitialFormData(Some(ToFields(i)))) == ToFields(i)
    ensures Create(FieldsOf(InitialFormData(Some(ToFields(i)))), id, now)
            == Ok(i.(id := id, createdAt := now, updatedAt := now))
  {
    assert i.customerName != "" && i.description != "";
    assert PriorityName(i.priority) != "" && StatusName(i.status) != "";
    CreateFromStoredFields(i, id, now);
  }

  class Form {
    var formData: FormData

    /** The form as mounted with `initialData` (absent for creation). */
    constructor (initialData: Option<Fields>)
      ensures formData == InitialFormData(initialData)
    {
      formData := InitialFormData(initialData);
    }

    /** A change event on the input called `name`: that one key is set, every other is kept. */
    method HandleChange(name: string, value: string)
      modifies this
      ensures formData == old(formData)[name := value]
      ensures name in formData && formData[name] == value
      ensures forall k :: k in old(formData) && k != name ==> k in formData && formData[k] == old(formData)[k]
    {
      formData := formData[name := value];
    }

    /** Submission: the current values, exactly as they are, go to the page's handler. */
    method HandleSubmit() returns (submitted: FormData)
      ensures submitted == formData
    {
      submitted := formData;
    }
  }
}
