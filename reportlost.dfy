/** The "Report a Lost Item" form (src/ReportLostItem.js): the same eight
    fields as the found form, no image, and a smaller document. */
module ReportLostItem {
  import opened Store
  import opened ReportForm

  const RequiredMessage := "All fields are required!"
  const SaveFailedMessage := "Failed to report item. Please try again."

  /** The two checks of a submission, in the order the form makes them. */
  function CheckSubmission(f: Fields): (r: Option<string>)
    ensures r == None <==> AllFilled(f) && IsValidEmail(f.contactEmail)
    ensures !AllFilled(f) ==> r == Some(RequiredMessage)
    ensures AllFilled(f) && !IsValidEmail(f.contactEmail) ==> r == Some(InvalidEmailMessage)
  {
    if !AllFilled(f) then Some(RequiredMessage)
    else if !IsValidEmail(f.contactEmail) then Some(InvalidEmailMessage)
    else None
  }

  /** The document a lost report adds to `items`: the eight fields, the lost
      flag and the time, and none of the title, status, image or claim fields. */
  function LostItemRecord(f: Fields, now: int): (r: Item)
    ensures FieldsOf(r) == f && r.isLost && r.timestamp == now
    ensures r.title == None && r.status == None && r.isFound == None
    ensures r.image == None && r.imageUrl == None && r.imageType == None && r.imageData == None
    ensures r.claimStatus == None && r.claimedBy == None && r.claimId == None && r.foundAt == None
  {
    Item(f.itemName, f.description, f.location, f.date, f.reporterName, f.sapId, f.course,
         f.contactEmail,
         title := None, isLost := true, isFound := None, status := None,
         image := None, imageUrl := None, imageType := None, imageData := None,
         timestamp := now,
         claimStatus := None, claimedBy := None, claimId := None, foundAt := None)
  }

  /** The form's state. */
  class LostReportForm {
    var fields: Fields
    var error: string
    var uploading: bool

    constructor ()
      ensures fields == EmptyFields && error == "" && !uploading
    {
      fields, error, uploading := EmptyFields, "", false;
    }

    /** `handleSubmit`; `write` is how the store answers the `addDoc` call,
        if it is made. */
    method HandleSubmit(db: Database, now: int, write: AddResult) returns (saved: bool)
      requires write.Added? ==> write.id !in db.items
      modifies this, db`items
      ensures fields == old(fields)
      ensures CheckSubmission(old(fields)).Some? ==>
        && !saved && error == CheckSubmission(old(fields)).value
        && uploading == old(uploading) && db.items == old(db.items)
      ensures CheckSubmission(old(fields)) == None ==>
        && !uploading
        && saved == write.Added?
        && (write.Added? ==>
              error == "" && db.items == old(db.items)[write.id := LostItemRecord(old(fields), now)])
        && (write.AddFailed? ==> error == SaveFailedMessage && db.items == old(db.items))
    {
      var check := CheckSubmission(fields);
      if check.Some? {
        error := check.value;
        return false;
      }
      uploading := true;
      error := "";
      match write {
        case Added(id) =>
          db.items := db.items[id := LostItemRecord(fields, now)];
          saved := true;
        case AddFailed(_) =>
          error := SaveFailedMessage;
          saved := false;
      }
      uploading := false;
    }
  }
}
