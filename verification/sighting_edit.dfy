/** The edit-sighting screen: loading the user's sighting into the form, the
    guards in front of the update, and the update itself, which rewrites four
    columns of the one row with the given id that belongs to the user. */
module SightingEdit {

  import opened Replies
  import opened Records
  import SightingForm

  datatype Form = Form(location: string, date: string, notes: string, imageUri: Option<string>)

  /** The loaded row (none until a load succeeds), the form and the error. */
  datatype Editor = Editor(sighting: Option<Sighting>, form: Form, error: Option<string>)

  const Blank := Editor(None, Form("", "", "", None), None)

  /** `fetchSighting` */
  function Load(ed: Editor, reply: Reply<Sighting>): (r: Editor)
    ensures reply.Failed? ==> r == ed.(error := Some("Failed to load sighting details"))
    ensures reply.Ok? ==> r.sighting == Some(reply.rows) && r.error == ed.error
    ensures reply.Ok? ==>
      && r.form.location == reply.rows.location
      && r.form.date == reply.rows.date
      && r.form.imageUri == reply.rows.imageUrl
      && (reply.rows.notes.Some? ==> r.form.notes == reply.rows.notes.value)
      && (reply.rows.notes.None? ==> r.form.notes == "")
  {
    if reply.Failed? then ed.(error := Some("Failed to load sighting details"))
    else
      var row := reply.rows;
      Editor(Some(row), Form(row.location, row.date, OrEmpty(row.notes), row.imageUrl), ed.error)
  }

  /** The update request: the columns written and the row they are written to. */
  datatype Update = Update(
    id: string,
    userId: string,
    location: string,
    date: string,
    notes: string,
    imageUrl: Option<string>)

  datatype Outcome =
    | Refused                                     // alert: no user or nothing loaded
    | Invalid(message: string)
    | Updated(update: Update)
    | UpdateFailed(update: Update, message: string)

  /** `updateSighting` for route parameter `sightingId`. */
  function Save(ed: Editor, user: Option<string>, sightingId: string, updateError: Option<string>): (r: Outcome)
    ensures user.None? || ed.sighting.None? ==> r == Refused
    ensures user.Some? && ed.sighting.Some? && SightingForm.Check(ed.form.location, ed.form.date).Some? ==>
      r == Invalid(SightingForm.Check(ed.form.location, ed.form.date).value)
    ensures r.Updated? || r.UpdateFailed? ==>
      r.update == Update(sightingId, user.value, ed.form.location, ed.form.date, ed.form.notes, ed.form.imageUri)
    ensures r.Updated? <==>
      user.Some? && ed.sighting.Some? && SightingForm.Check(ed.form.location, ed.form.date).None? && updateError.None?
    ensures (r.Updated? || r.UpdateFailed?) <==>
      user.Some? && ed.sighting.Some? && SightingForm.Check(ed.form.location, ed.form.date).None?
    ensures r.UpdateFailed? <==>
      user.Some? && ed.sighting.Some? && SightingForm.Check(ed.form.location, ed.form.date).None? && updateError.Some?
    ensures r.UpdateFailed? ==> r.message == ErrorText(updateError.value, "Failed to update sighting")
  {
    if user.None? || ed.sighting.None? then Refused
    else
      var problem := SightingForm.Check(ed.form.location, ed.form.date);
      if problem.Some? then Invalid(problem.value)
      else
        var u := Update(sightingId, user.value, ed.form.location, ed.form.date, ed.form.notes, ed.form.imageUri);
        if updateError.Some? then UpdateFailed(u, ErrorText(updateError.value, "Failed to update sighting"))
        else Updated(u)
  }

  /** The update applied to the stored rows: only a row with the update's id
      and owner changes, and only in its four columns. */
  function Apply(table: seq<Sighting>, u: Update): (r: seq<Sighting>)
    ensures |r| == |table|
    ensures forall i :: 0 <= i < |r| ==>
      && r[i].id == table[i].id && r[i].userId == table[i].userId && r[i].creatureId == table[i].creatureId
      && (table[i].id != u.id || table[i].userId != u.userId ==> r[i] == table[i])
      && (table[i].id == u.id && table[i].userId == u.userId ==>
            r[i].location == u.location && r[i].date == u.date
            && r[i].notes == Some(u.notes) && r[i].imageUrl == u.imageUrl)
  {
    seq(|table|, i requires 0 <= i < |table| =>
      var row := table[i];
      if row.id == u.id && row.userId == u.userId
      then row.(location := u.location, date := u.date, notes := Some(u.notes), imageUrl := u.imageUrl)
      else row)
  }

  /** Saving a freshly loaded sighting without touching the form writes the
      row back as it was, except that a null note becomes "". Someone else's
      rows are never touched. */
  lemma LoadThenSaveKeepsRow(ed: Editor, row: Sighting, table: seq<Sighting>)
    requires SightingForm.Check(row.location, row.date).None?
    ensures var loaded := Load(ed, Ok(row));
      var r := Save(loaded, Some(row.userId), row.id, None);
      && r.Updated?
      && Apply([row], r.update) == [row.(notes := Some(OrEmpty(row.notes)))]
      && (forall i :: 0 <= i < |table| && table[i].userId != row.userId ==> Apply(table, r.update)[i] == table[i])
  {
  }
}
