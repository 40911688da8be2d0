/** The "Report a Found Item" form (src/ReportFoundItem.js): picking an image,
    and submitting the form, which validates it and adds one document to
    `items`. */
module ReportFoundItem {
  import opened JsText
  import opened Store
  import opened ReportForm

  const RequiredMessage := "All fields including image are required!"
  const NotAnImageMessage := "Please select an image file."
  const SaveFailedPrefix := "Failed to save item. Please try again. Error: "

  /** A file picked in the file or camera input: its name and MIME type. */
  datatype ImageFile = ImageFile(name: string, mimeType: string)

  predicate IsImageType(mimeType: string) {
    StartsWith(mimeType, "image/")
  }

  /** The two checks of a submission, in the order the form makes them: the
      error it shows, or `None` when the submission goes ahead. */
  function CheckSubmission(f: Fields, image: Option<ImageFile>): (r: Option<string>)
    ensures r == None <==> AllFilled(f) && image.Some? && IsValidEmail(f.contactEmail)
    ensures !(AllFilled(f) && image.Some?) ==> r == Some(RequiredMessage)
    ensures AllFilled(f) && image.Some? && !IsValidEmail(f.contactEmail) ==> r == Some(InvalidEmailMessage)
  {
    if !AllFilled(f) || image.None? then Some(RequiredMessage)
    else if !IsValidEmail(f.contactEmail) then Some(InvalidEmailMessage)
    else None
  }

  /** The document a found report adds to `items`; `compressed` is the data
      URL the image compression produced. */
  function FoundItemRecord(f: Fields, image: ImageFile, compressed: string, now: int): (r: Item)
    ensures FieldsOf(r) == f && r.title == Some(f.itemName)
    ensures r.status == Some("found") && !r.isLost && r.isFound == Some(true)
    ensures r.image == Some(compressed) && r.imageUrl == Some(compressed)
    ensures r.imageType == Some(image.mimeType) && r.imageData == None
    ensures r.claimStatus == None && r.claimedBy == None && r.claimId == None
    ensures r.timestamp == now && r.foundAt == None
  {
    Item(f.itemName, f.description, f.location, f.date, f.reporterName, f.sapId, f.course,
         f.contactEmail,
         title := Some(f.itemName), isLost := false, isFound := Some(true), status := Some("found"),
         image := Some(compressed), imageUrl := Some(compressed), imageType := Some(image.mimeType),
         imageData := None, timestamp := now,
         claimStatus := None, claimedBy := None, claimId := None, foundAt := None)
  }

  /** The form's state. */
  class FoundReportForm {
    var fields: Fields
    var image: Option<ImageFile>
    var previewUrl: string
    var error: string
    var uploading: bool

    constructor ()
      ensures fields == EmptyFields && image == None && previewUrl == ""
      ensures error == "" && !uploading
    {
      fields, image, previewUrl := EmptyFields, None, "";
      error, uploading := "", false;
    }

    /** `handleImageChange`: `file` is the first picked file, if any, and
        `objectUrl` the preview URL the browser makes for it. */
    method HandleImageChange(file: Option<ImageFile>, objectUrl: string)
      modifies this
      ensures fields == old(fields) && uploading == old(uploading)
      ensures file == None ==>
        image == old(image) && previewUrl == old(previewUrl) && error == old(error)
      ensures file.Some? && IsImageType(file.value.mimeType) ==>
        image == file && previewUrl == objectUrl && error == ""
      ensures file.Some? && !IsImageType(file.value.mimeType) ==>
        image == None && previewUrl == "" && error == NotAnImageMessage
    {
      if file.Some? {
        if IsImageType(file.value.mimeType) {
          image := file;
          previewUrl := objectUrl;
          error := "";
        } else {
          error := NotAnImageMessage;
          image := None;
          previewUrl := "";
        }
      }
    }

    /** `handleSubmit`. `compressed` is what the image compression yields and
        `write` is how the store answers the `addDoc` call, if it is made. */
    method HandleSubmit(db: Database, compressed: string, now: int, write: AddResult)
      returns (saved: bool)
      requires write.Added? ==> write.id !in db.items
      modifies this, db`items
      ensures fields == old(fields) && image == old(image) && previewUrl == old(previewUrl)
      ensures CheckSubmission(old(fields), old(image)).Some? ==>
        && !saved && error == CheckSubmission(old(fields), old(image)).value
        && uploading == old(uploading) && db.items == old(db.items)
      ensures CheckSubmission(old(fields), old(image)) == None ==>
        && !uploading
        && saved == write.Added?
        && (write.Added? ==>
              && error == ""
              && db.items == old(db.items)[write.id :=
                   FoundItemRecord(old(fields), old(image).value, compressed, now)])
        && (write.AddFailed? ==>
              error == SaveFailedPrefix + write.message && db.items == old(db.items))
    {
      var check := CheckSubmission(fields, image);
      if check.Some? {
        error := check.value;
        return false;
      }
      uploading := true;
      error := "";
      var record := FoundItemRecord(fields, image.value, compressed, now);
      match write {
        case Added(id) =>
          db.items := db.items[id := record];
          saved := true;
        case AddFailed(message) =>
          error := SaveFailedPrefix + message;
          saved := false;
      }
      uploading := false;
    }
  }
}
