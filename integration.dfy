/**
 * Properties that tie the server-backed front end (static/script.js) to the
 * Flask application (app.py): the two date conversions undo each other, a
 * project link routes back to its project, and what the submit handler
 * posts is what the upload handler accepts or refuses.
 */
module Integration {
  import opened Wrappers
  import opened Text
  import opened StaticFrontEnd
  import opened Backend

  /** The pieces of a form date: none holds either separator. */
  predicate PlainPiece(s: string)
  {
    '/' !in s && '-' !in s
  }

  /**
   * A `dd/mm/yyyy` date with two-character day and month, stored by the
   * upload handler and shown by the admin view, reads as it was entered.
   */
  lemma DateRoundTrip(d: string, m: string, y: string)
    requires PlainPiece(d) && PlainPiece(m) && PlainPiece(y)
    requires |d| == 2 && |m| == 2
    ensures ConvertDate(d + "/" + m + "/" + y).Ok?
    ensures FormatDate(ConvertDate(d + "/" + m + "/" + y).value) == Ok(d + "/" + m + "/" + y)
  {
    ConvertDateParts(d, m, y);
    FormatDateTwoDigits(y, m, d);
  }

  /** An empty date field is stored as null and shown as empty. */
  lemma EmptyDateRoundTrip()
    ensures ConvertDate("") == Ok(None)
    ensures FormatDate(ConvertDate("").value) == Ok("")
  {
  }

  /**
   * A one-character day or month is stored as entered and shown padded, so
   * submitting the shown date again stores the padded form.
   */
  lemma DateNormalises(d: char, m: char, y: string)
    requires d !in "/-" && m !in "/-" && PlainPiece(y)
    ensures ConvertDate([d] + "/" + [m] + "/" + y) == Ok(Some(y + "-" + [m] + "-" + [d]))
    ensures FormatDate(ConvertDate([d] + "/" + [m] + "/" + y).value) == Ok(['0', d] + "/" + ['0', m] + "/" + y)
    ensures ConvertDate(['0', d] + "/" + ['0', m] + "/" + y) == Ok(Some(y + "-" + ['0', m] + "-" + ['0', d]))
  {
    ConvertDateParts([d], [m], y);
    FormatDateOneDigit(y, m, d);
    ConvertDateParts(['0', d], ['0', m], y);
  }

  /** A stored `y-m-d` date with two-character month and day survives being shown and submitted again. */
  lemma StoredDateRoundTrip(y: string, m: string, d: string)
    requires PlainPiece(y) && PlainPiece(m) && PlainPiece(d)
    requires |m| == 2 && |d| == 2
    ensures FormatDate(Some(y + "-" + m + "-" + d)).Ok?
    ensures ConvertDate(FormatDate(Some(y + "-" + m + "-" + d)).value) == Ok(Some(y + "-" + m + "-" + d))
  {
    FormatDateTwoDigits(y, m, d);
    ConvertDateParts(d, m, y);
  }

  /** The link the admin page shows for a project opens that project's submission page. */
  lemma LinkRoutesToProject(id: nat)
    ensures SubmitRoute(SubmitHref(id)) == Some(id)
  {
    var h := SubmitHref(id);
    ParseNatToString(id);
    assert h[8..] == NatToString(id);
  }

  /** The file parts of a posted request: a text field named `receiptImage` is not a file. */
  function FilesOf(r: UploadRequest): (f: Option<FileStorage>)
    ensures f.None? <==> r.file.None?
  {
    match r.file
    case None => None
    case Some(n) => Some(FileStorage(n))
  }

  /**
   * Submitting the upload form with no image chosen posts `receiptImage`
   * as the text `undefined`; the server finds no file, answers 400 and
   * inserts nothing, and the page alerts that the upload failed.
   */
  lemma NoImageRejected(debug: bool, f: UploadForm, savedName: string)
    ensures var req := BuildUploadRequest(f, None);
      && req.fields["receiptImage"] == "undefined"
      && ParseUpload(debug, req.fields, FilesOf(req), savedName) == Err(NoFile)
      && ReactTo(NoFile.status) == UploadFailed
  {
  }

  /**
   * A submission with a named image and a `dd/mm/yyyy` date is accepted:
   * the stored row carries the form's values and the date as `yyyy-mm-dd`,
   * and the page reports success.
   */
  lemma SubmissionAccepted(debug: bool, f: UploadForm, fileName: string, savedName: string, d: string, m: string, y: string)
    requires fileName != ""
    requires '/' !in d && '/' !in m && '/' !in y
    requires f.transferDate == d + "/" + m + "/" + y
    ensures var req := BuildUploadRequest(f, Some(fileName));
      var r := ParseUpload(debug, req.fields, FilesOf(req), savedName);
      && r.Ok?
      && r.value == NewReceipt(Some(f.projectSelect), f.roomSelect, f.studyLevel, f.studentId, f.amount,
                               Some(y + "-" + m + "-" + d), f.notes, savedName)
      && ReactTo(200) == Submitted
  {
    ConvertDateParts(d, m, y);
  }

  /**
   * The page reports success for the answer to an upload exactly when the
   * server stored the receipt: 200 for an accepted request, and for a
   * refused one a 400 or 500 that `response.ok` rejects.
   */
  lemma ReportsSuccessIffStored(debug: bool, form: map<string, string>, file: Option<FileStorage>, savedName: string)
    ensures var r := ParseUpload(debug, form, file, savedName);
      ReactTo(if r.Ok? then 200 else r.error.status) == Submitted <==> r.Ok?
  {
  }
}
