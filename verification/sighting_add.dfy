/** The add-sighting screen: the guards in front of the insert and the row it
    writes. The chosen image is "uploaded" by handing its URI back unchanged. */
module SightingAdd {

  import opened Replies
  import opened JsText
  import SightingForm

  datatype Form = Form(location: string, date: string, notes: string, imageUri: Option<string>)

  /** The row `saveSighting` inserts. */
  datatype NewSighting = NewSighting(
    userId: string,
    creatureId: string,
    location: string,
    date: string,
    notes: string,
    imageUrl: Option<string>)

  datatype Outcome =
    | SignedOut                                   // alert, nothing written
    | Refused(message: string)                    // validation message, nothing written
    | Saved(row: NewSighting)
    | SaveFailed(row: NewSighting, message: string)

  /** `if (imageUri) imageUrl = await uploadImage(imageUri)`: an empty URI is
      falsy and stores null like no image at all. */
  function ImageUrl(imageUri: Option<string>): (r: Option<string>)
    ensures r.Some? <==> imageUri.Some? && imageUri.value != ""
    ensures r.Some? ==> r.value == imageUri.value
  {
    if imageUri.Some? && imageUri.value != "" then imageUri else None
  }

  /** `saveSighting` for the signed-in user `user`, if any. */
  function Save(user: Option<string>, creatureId: string, form: Form, insertError: Option<string>): (r: Outcome)
    ensures user.None? ==> r == SignedOut
    ensures user.Some? && AllSpace(form.location) ==> r == Refused("Please enter a location")
    ensures user.Some? && !AllSpace(form.location) && form.date == "" ==> r == Refused("Please select a date")
    ensures (r.Saved? || r.SaveFailed?) <==> user.Some? && !AllSpace(form.location) && form.date != ""
    ensures r.Saved? || r.SaveFailed? ==>
      r.row == NewSighting(user.value, creatureId, form.location, form.date, form.notes, ImageUrl(form.imageUri))
    ensures r.Saved? <==> user.Some? && SightingForm.Check(form.location, form.date).None? && insertError.None?
    ensures r.SaveFailed? ==> r.message == ErrorText(insertError.value, "Failed to save sighting")
  {
    if user.None? then SignedOut
    else
      var problem := SightingForm.Check(form.location, form.date);
      if problem.Some? then Refused(problem.value)
      else
        var row := NewSighting(user.value, creatureId, form.location, form.date, form.notes, ImageUrl(form.imageUri));
        if insertError.Some? then SaveFailed(row, ErrorText(insertError.value, "Failed to save sighting"))
        else Saved(row)
  }

  /** The location is stored as typed, surrounding spaces included: the trim
      only decides whether it is blank. */
  lemma LocationStoredUntrimmed(user: string, creatureId: string, date: string)
    requires date != ""
    ensures Save(Some(user), creatureId, Form(" Maui", date, "", None), None).row.location == " Maui"
  {
    assert !IsSpace(" Maui"[1]);
  }
}
