/** The check both sighting screens run before writing: a location that is
    not blank after trimming, then a date. */
module SightingForm {

  import opened Replies
  import opened JsText

  const LocationMessage := "Please enter a location"
  const DateMessage := "Please select a date"

  /** `None` when the fields may be saved, else the message shown. */
  function Check(location: string, date: string): (r: Option<string>)
    ensures r.None? <==> !AllSpace(location) && date != ""
    ensures AllSpace(location) ==> r == Some(LocationMessage)
    ensures !AllSpace(location) && date == "" ==> r == Some(DateMessage)
  {
    if Trim(location) == "" then Some(LocationMessage)
    else if date == "" then Some(DateMessage)
    else None
  }

  /** A location of spaces and tabs is refused although it is not empty. */
  lemma BlankLocationRefused(date: string)
    ensures Check(" \t", date) == Some(LocationMessage)
  {
    assert AllSpace(" \t") by {
      assert IsSpace(" \t"[0]) && IsSpace(" \t"[1]);
    }
  }
}
