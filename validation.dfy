/**
 * The standalone field validator: checks the length bounds of whichever of the two text
 * fields are present in a partial incident and collects one message per failing field.
 */
module Validation {
  import opened Wrappers
  import opened JsString
  import opened IncidentModel

  /**
   * `validateIncidentData`. Lengths are measured on the raw strings (no trimming), absent
   * fields are skipped, priority and status are not looked at, and the messages are the
   * schema's minlength/maxlength messages.
   */
  method ValidateIncidentData(data: Fields) returns (errors: map<string, string>)
    ensures errors.Keys <= {CustomerNameKey, DescriptionKey}
    ensures CustomerNameKey in errors <==>
              data.customerName.Some? && !WithinLength(data.customerName.value, NameMinLength, NameMaxLength)
    ensures CustomerNameKey in errors ==>
              errors[CustomerNameKey] ==
              (if Utf16Length(data.customerName.value) < NameMinLength then NameTooShort else NameTooLong)
    ensures DescriptionKey in errors <==>
              data.description.Some? && !WithinLength(data.description.value, DescriptionMinLength, DescriptionMaxLength)
    ensures DescriptionKey in errors ==>
              errors[DescriptionKey] ==
              (if Utf16Length(data.description.value) < DescriptionMinLength then DescriptionTooShort else DescriptionTooLong)
    // the same messages the schema's length validators give for the same string
    ensures CustomerNameKey in errors ==>
              Some(errors[CustomerNameKey]) ==
              LengthError(data.customerName.value, NameMinLength, NameMaxLength, NameTooShort, NameTooLong)
    ensures DescriptionKey in errors ==>
              Some(errors[DescriptionKey]) ==
              LengthError(data.description.value, DescriptionMinLength, DescriptionMaxLength,
                          DescriptionTooShort, DescriptionTooLong)
  {
    errors := map[];
    if data.customerName.Some? {
      var length := Utf16Length(data.customerName.value);
      if length < NameMinLength {
        errors := errors[CustomerNameKey := NameTooShort];
      }
      if length > NameMaxLength {
        errors := errors[CustomerNameKey := NameTooLong];
      }
    }
    if data.description.Some? {
      var length := Utf16Length(data.description.value);
      if length < DescriptionMinLength {
        errors := errors[DescriptionKey := DescriptionTooShort];
      }
      if length > DescriptionMaxLength {
        errors := errors[DescriptionKey := DescriptionTooLong];
      }
    }
  }
}
