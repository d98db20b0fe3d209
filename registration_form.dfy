/** The client-side registration form: the ordered validator, the file-input
    checks, and the multipart body built on submit. */
module RegistrationForm {
  import opened Wrappers
  import opened Strings
  import opened Patterns

  const MaxFileSize := 5 * 1024 * 1024
  const ImagePrefix := "image/"

  /** A browser `File`: name, size in bytes and MIME type. */
  datatype BrowserFile = BrowserFile(name: string, size: nat, mimeType: string)

  /** The form state, its keys in declaration order. */
  datatype FormData = FormData(
    title: string,
    name: string,
    fatherHusbandName: string,
    mobileNo: string,
    emailId: string,
    dateOfBirth: string,
    passoutPercentage: real,
    state: string,
    address: string,
    courseName: string,
    experience: string,
    collegeName: string,
    photo: Option<BrowserFile>,
    qrCode: Option<BrowserFile>
  )

  const InitialForm := FormData("Mr", "", "", "", "", "", 0.0, "", "", "", "", "", None, None)

  // ---------------------------------------------------------------------------
  // validateForm
  // ---------------------------------------------------------------------------

  /** The twelve checks of `validateForm`, each named by the toast it raises. */
  datatype FormError =
    | NameRequired | FatherHusbandNameRequired | InvalidMobile | InvalidEmail
    | DateOfBirthRequired | InvalidPercentage | StateRequired | AddressRequired
    | CourseNameRequired | ExperienceRequired | CollegeNameRequired | PhotoRequired

  function Message(e: FormError): string {
    match e
    case NameRequired => "Name is required"
    case FatherHusbandNameRequired => "Father/Husband name is required"
    case InvalidMobile => "Please enter a valid 10-digit mobile number"
    case InvalidEmail => "Please enter a valid email address"
    case DateOfBirthRequired => "Date of birth is required"
    case InvalidPercentage => "Please enter a valid percentage (0-100)"
    case StateRequired => "Please select your state"
    case AddressRequired => "Address is required"
    case CourseNameRequired => "Course name is required"
    case ExperienceRequired => "Experience is required"
    case CollegeNameRequired => "College name is required"
    case PhotoRequired => "Please upload your photo"
  }

  /** The order in which the checks run. */
  const CheckOrder: seq<FormError> := [
    NameRequired, FatherHusbandNameRequired, InvalidMobile, InvalidEmail,
    DateOfBirthRequired, InvalidPercentage, StateRequired, AddressRequired,
    CourseNameRequired, ExperienceRequired, CollegeNameRequired, PhotoRequired]

  /** What each check accepts, one at a time. */
  predicate Passes(f: FormData, e: FormError) {
    match e
    case NameRequired => Trim(f.name) != ""
    case FatherHusbandNameRequired => Trim(f.fatherHusbandName) != ""
    case InvalidMobile => IsTenDigitMobile(f.mobileNo)
    case InvalidEmail => MatchesEmailPattern(f.emailId)
    case DateOfBirthRequired => f.dateOfBirth != ""
    case InvalidPercentage => 0.0 <= f.passoutPercentage <= 100.0
    case StateRequired => f.state != ""
    case AddressRequired => Trim(f.address) != ""
    case CourseNameRequired => Trim(f.courseName) != ""
    case ExperienceRequired => Trim(f.experience) != ""
    case CollegeNameRequired => Trim(f.collegeName) != ""
    case PhotoRequired => f.photo.Some?
  }

  /** The first of `checks` that `passes` rejects, running them in order. */
  function FirstFailure(checks: seq<FormError>, passes: FormError -> bool): Option<FormError>
    decreases |checks|
  {
    if checks == [] then None
    else if !passes(checks[0]) then Some(checks[0])
    else FirstFailure(checks[1..], passes)
  }

  /** `FirstFailure` reports a check that failed after all earlier ones
      passed, and reports nothing exactly when every check passes. */
  lemma {:induction false} FirstFailureReports(checks: seq<FormError>, passes: FormError -> bool)
    ensures FirstFailure(checks, passes).None? <==> forall k :: 0 <= k < |checks| ==> passes(checks[k])
    ensures FirstFailure(checks, passes).Some? ==>
              exists k :: 0 <= k < |checks| && checks[k] == FirstFailure(checks, passes).value
                          && !passes(checks[k])
                          && forall j :: 0 <= j < k ==> passes(checks[j])
    decreases |checks|
  {
    if checks != [] && passes(checks[0]) {
      var rest := checks[1..];
      FirstFailureReports(rest, passes);
      if FirstFailure(rest, passes).Some? {
        var k :| 0 <= k < |rest| && rest[k] == FirstFailure(rest, passes).value
                 && !passes(rest[k]) && forall j :: 0 <= j < k ==> passes(rest[j]);
        forall j | 0 <= j < k + 1 ensures passes(checks[j]) {
          if j > 0 { assert checks[j] == rest[j - 1]; }
        }
        assert checks[k + 1] == rest[k];
      } else {
        forall k | 0 <= k < |checks| ensures passes(checks[k]) {
          if k > 0 { assert checks[k] == rest[k - 1]; }
        }
      }
    } else if checks != [] {
      assert checks[0] == FirstFailure(checks, passes).value;
    }
  }

  /** `validateForm`: the checks run in `CheckOrder`, stopping at the first
      that fails, which is reported; `None` when the form is valid. */
  function ValidateForm(f: FormData): Option<FormError> {
    FirstFailure(CheckOrder, e => Passes(f, e))
  }

  /** The reported check failed and all before it passed, and the form is
      accepted exactly when every check passes. */
  lemma ValidateFormReports(f: FormData)
    ensures ValidateForm(f).None? <==> forall k :: 0 <= k < |CheckOrder| ==> Passes(f, CheckOrder[k])
    ensures ValidateForm(f).Some? ==>
              exists k :: 0 <= k < |CheckOrder| && CheckOrder[k] == ValidateForm(f).value
                          && !Passes(f, CheckOrder[k])
                          && forall j :: 0 <= j < k ==> Passes(f, CheckOrder[j])
  {
    FirstFailureReports(CheckOrder, e => Passes(f, e));
  }

  /** An accepted form has a ten-digit mobile number, a matching email
      address, a percentage in `[0, 100]` and a photo. */
  lemma AcceptedForm(f: FormData)
    requires ValidateForm(f).None?
    ensures IsTenDigitMobile(f.mobileNo) && MatchesEmailPattern(f.emailId) && f.photo.Some?
    ensures 0.0 <= f.passoutPercentage <= 100.0 && Trim(f.name) != ""
  {
    ValidateFormReports(f);
    assert Passes(f, CheckOrder[0]) && Passes(f, CheckOrder[2]) && Passes(f, CheckOrder[3]);
    assert Passes(f, CheckOrder[5]) && Passes(f, CheckOrder[11]);
  }

  /** A text field holding only whitespace fails its check, because the
      check trims it first; so such a form is never accepted. */
  lemma WhitespaceOnlyRejected(f: FormData, e: FormError)
    requires e in {NameRequired, FatherHusbandNameRequired, AddressRequired,
                   CourseNameRequired, ExperienceRequired, CollegeNameRequired}
    requires AllSpace(match e
                      case NameRequired => f.name
                      case FatherHusbandNameRequired => f.fatherHusbandName
                      case AddressRequired => f.address
                      case CourseNameRequired => f.courseName
                      case ExperienceRequired => f.experience
                      case _ => f.collegeName)
    ensures !Passes(f, e)
    ensures ValidateForm(f).Some?
  {
    var k := match e
             case NameRequired => 0
             case FatherHusbandNameRequired => 1
             case AddressRequired => 7
             case CourseNameRequired => 8
             case ExperienceRequired => 9
             case _ => 10;
    assert CheckOrder[k] == e;
    ValidateFormReports(f);
  }

  /** Once the five earlier checks pass, the percentage is accepted exactly
      when it lies in `[0, 100]`. */
  lemma PercentageRange(f: FormData)
    requires forall k :: 0 <= k < 5 ==> Passes(f, CheckOrder[k])
    ensures ValidateForm(f) != Some(InvalidPercentage) <==> 0.0 <= f.passoutPercentage <= 100.0
  {
    ValidateFormReports(f);
    if 0.0 <= f.passoutPercentage <= 100.0 {
      assert Passes(f, CheckOrder[5]);
    } else {
      assert !Passes(f, CheckOrder[5]);
    }
  }

  // ---------------------------------------------------------------------------
  // handleFileChange
  // ---------------------------------------------------------------------------

  datatype FileField = PhotoField | QrCodeField

  function FieldLabel(field: FileField): string {
    match field
    case PhotoField => "Photo"
    case QrCodeField => "QR Code"
  }

  function WithFile(f: FormData, field: FileField, file: BrowserFile): FormData {
    match field
    case PhotoField => f.(photo := Some(file))
    case QrCodeField => f.(qrCode := Some(file))
  }

  /** `handleFileChange` on a selection (`None` when nothing was chosen): the
      new form data and the toast title raised, if any. */
  function FileChange(f: FormData, field: FileField, file: Option<BrowserFile>): (r: (FormData, Option<string>))
    ensures file.None? ==> r == (f, None)
    ensures r.1.Some? ==> r.0 == f
    ensures file.Some? && file.value.size > MaxFileSize ==>
              r == (f, Some(FieldLabel(field) + " file too large"))
    ensures file.Some? && file.value.size <= MaxFileSize && !StartsWith(file.value.mimeType, ImagePrefix) ==>
              r == (f, Some("Invalid " + ToLower(FieldLabel(field)) + " file type"))
    ensures file.Some? && file.value.size <= MaxFileSize && StartsWith(file.value.mimeType, ImagePrefix) ==>
              r == (WithFile(f, field, file.value), None)
  {
    match file
    case None => (f, None)
    case Some(x) =>
      if x.size > MaxFileSize then (f, Some(FieldLabel(field) + " file too large"))
      else if !StartsWith(x.mimeType, ImagePrefix) then (f, Some("Invalid " + ToLower(FieldLabel(field)) + " file type"))
      else (WithFile(f, field, x), None)
  }

  /** An accepted file changes only its own field. */
  lemma AcceptedFileChangesOneField(f: FormData, field: FileField, file: BrowserFile)
    requires FileChange(f, field, Some(file)).0 != f
    ensures var g := FileChange(f, field, Some(file)).0;
            match field
            case PhotoField => g == f.(photo := Some(file))
            case QrCodeField => g == f.(qrCode := Some(file))
  {
  }

  // ---------------------------------------------------------------------------
  // handleSubmit: the multipart body
  // ---------------------------------------------------------------------------

  /** A value of `Object.entries(formData)`. */
  datatype FieldValue = TextValue(s: string) | NumberValue(x: real) | FileValue(file: BrowserFile) | NullValue

  datatype PartValue = TextPart(text: string) | FilePart(file: BrowserFile)

  /** One `submitData.append(key, value)`. */
  datatype Part = Part(key: string, value: PartValue)

  function FileOrNull(o: Option<BrowserFile>): FieldValue {
    match o
    case Some(x) => FileValue(x)
    case None => NullValue
  }

  /** `Object.entries(formData)`, in key order. */
  function Entries(f: FormData): (es: seq<(string, FieldValue)>)
    ensures |es| == 14
  {
    [("title", TextValue(f.title)), ("name", TextValue(f.name)),
     ("fatherHusbandName", TextValue(f.fatherHusbandName)), ("mobileNo", TextValue(f.mobileNo)),
     ("emailId", TextValue(f.emailId)), ("dateOfBirth", TextValue(f.dateOfBirth)),
     ("passoutPercentage", NumberValue(f.passoutPercentage)), ("state", TextValue(f.state)),
     ("address", TextValue(f.address)), ("courseName", TextValue(f.courseName)),
     ("experience", TextValue(f.experience)), ("collegeName", TextValue(f.collegeName)),
     ("photo", FileOrNull(f.photo)), ("qrCode", FileOrNull(f.qrCode))]
  }

  /** A file is sent only when it has content, a name and an image type. */
  predicate Submittable(x: BrowserFile) {
    x.size > 0 && x.name != "" && StartsWith(x.mimeType, ImagePrefix)
  }

  /** Whether an entry is appended at all. */
  predicate Emits(v: FieldValue) {
    match v
    case NullValue => false
    case FileValue(x) => Submittable(x)
    case _ => true
  }

  /** The part an emitted entry becomes; other values are sent as their
      string form (`numberText` renders a number). */
  function PartFor(e: (string, FieldValue), numberText: real -> string): Part {
    match e.1
    case TextValue(s) => Part(e.0, TextPart(s))
    case NumberValue(x) => Part(e.0, TextPart(numberText(x)))
    case FileValue(x) => Part(e.0, FilePart(x))
    case NullValue => Part(e.0, TextPart(""))
  }

  /** The parts appended for `entries`, in order. */
  function Serialized(entries: seq<(string, FieldValue)>, numberText: real -> string): seq<Part> {
    if entries == [] then []
    else
      var last := entries[|entries| - 1];
      Serialized(entries[..|entries| - 1], numberText)
        + (if Emits(last.1) then [PartFor(last, numberText)] else [])
  }

  /** The `forEach` over the entries. */
  method BuildSubmitData(entries: seq<(string, FieldValue)>, numberText: real -> string)
    returns (parts: seq<Part>)
    ensures parts == Serialized(entries, numberText)
  {
    parts := [];
    var i := 0;
    while i < |entries|
      invariant 0 <= i <= |entries|
      invariant parts == Serialized(entries[..i], numberText)
    {
      var (key, value) := entries[i];
      assert entries[..i + 1][..i] == entries[..i];
      if value != NullValue {
        if value.FileValue? {
          if value.file.size > 0 && value.file.name != "" && StartsWith(value.file.mimeType, ImagePrefix) {
            parts := parts + [Part(key, FilePart(value.file))];
          }
        } else if value.TextValue? {
          parts := parts + [Part(key, TextPart(value.s))];
        } else {
          parts := parts + [Part(key, TextPart(numberText(value.x)))];
        }
      }
      i := i + 1;
    }
    assert entries[..i] == entries;
  }

  /** A part is sent exactly for each entry that is neither null nor an
      unsubmittable file. */
  lemma {:induction false} SerializedParts(entries: seq<(string, FieldValue)>, numberText: real -> string, p: Part)
    ensures p in Serialized(entries, numberText) <==>
              exists k :: 0 <= k < |entries| && Emits(entries[k].1) && p == PartFor(entries[k], numberText)
    decreases |entries|
  {
    if entries != [] {
      var init := entries[..|entries| - 1];
      SerializedParts(init, numberText, p);
      forall k | 0 <= k < |init| ensures init[k] == entries[k] { }
      if p in Serialized(entries, numberText) && p !in Serialized(init, numberText) {
        assert Emits(entries[|entries| - 1].1) && p == PartFor(entries[|entries| - 1], numberText);
      }
    }
  }

  /** `hasQrCode`: `"true"` exactly when a QR file with content is selected. */
  function HasQrCode(f: FormData): (r: string)
    ensures r == "true" <==> f.qrCode.Some? && f.qrCode.value.size > 0
    ensures r == "true" || r == "false"
  {
    if f.qrCode.Some? && f.qrCode.value.size > 0 then "true" else "false"
  }

  /** The whole body: the entries' parts, then the `hasQrCode` flag. */
  function Submission(f: FormData, numberText: real -> string): (r: seq<Part>)
    ensures |r| >= 1 && r[|r| - 1] == Part("hasQrCode", TextPart(HasQrCode(f)))
  {
    Serialized(Entries(f), numberText) + [Part("hasQrCode", TextPart(HasQrCode(f)))]
  }

  /** `submitData`: the entries' parts, then the `hasQrCode` flag. */
  method BuildSubmission(f: FormData, numberText: real -> string) returns (parts: seq<Part>)
    ensures parts == Submission(f, numberText)
  {
    parts := BuildSubmitData(Entries(f), numberText);
    parts := parts + [Part("hasQrCode", TextPart(if f.qrCode.Some? && f.qrCode.value.size > 0 then "true" else "false"))];
  }

  /** The photo is sent as a file part exactly when it is present and
      submittable, and each text field is always sent as itself. */
  lemma SubmittedPhoto(f: FormData, numberText: real -> string, x: BrowserFile)
    ensures Part("photo", FilePart(x)) in Submission(f, numberText) <==> f.photo == Some(x) && Submittable(x)
    ensures Part("name", TextPart(f.name)) in Submission(f, numberText)
    ensures Part("emailId", TextPart(f.emailId)) in Submission(f, numberText)
    ensures Part("mobileNo", TextPart(f.mobileNo)) in Submission(f, numberText)
  {
    var es := Entries(f);
    SerializedParts(es, numberText, Part("photo", FilePart(x)));
    SerializedParts(es, numberText, Part("name", TextPart(f.name)));
    assert Emits(es[1].1) && PartFor(es[1], numberText) == Part("name", TextPart(f.name));
    SerializedParts(es, numberText, Part("emailId", TextPart(f.emailId)));
    assert Emits(es[4].1) && PartFor(es[4], numberText) == Part("emailId", TextPart(f.emailId));
    SerializedParts(es, numberText, Part("mobileNo", TextPart(f.mobileNo)));
    assert Emits(es[3].1) && PartFor(es[3], numberText) == Part("mobileNo", TextPart(f.mobileNo));
    if f.photo == Some(x) && Submittable(x) {
      assert Emits(es[12].1) && PartFor(es[12], numberText) == Part("photo", FilePart(x));
    }
  }

  /** How the `fetch` to the register route ends. */
  datatype SubmitResponse = Succeeded | Refused | NetworkFailure

  /** The component's state. `requests` records each body sent with the value
      of `isSubmitting` while it was in flight; `toasts` the titles shown. */
  class RegistrationFormState {
    var formData: FormData
    var isSubmitting: bool
    var showSuccessDialog: bool
    var toasts: seq<string>
    var requests: seq<(seq<Part>, bool)>

    constructor ()
      ensures formData == InitialForm && !isSubmitting && !showSuccessDialog
      ensures toasts == [] && requests == []
    {
      formData := InitialForm;
      isSubmitting := false;
      showSuccessDialog := false;
      toasts := [];
      requests := [];
    }

    /** `handleFileChange`. */
    method HandleFileChange(field: FileField, file: Option<BrowserFile>)
      modifies this
      ensures formData == FileChange(old(formData), field, file).0
      ensures toasts == old(toasts) + match FileChange(old(formData), field, file).1
                                      case Some(t) => [t]
                                      case None => []
      ensures isSubmitting == old(isSubmitting) && showSuccessDialog == old(showSuccessDialog)
      ensures requests == old(requests)
    {
      if file.Some? {
        var x := file.value;
        if x.size > MaxFileSize {
          toasts := toasts + [FieldLabel(field) + " file too large"];
          return;
        }
        if !StartsWith(x.mimeType, ImagePrefix) {
          toasts := toasts + ["Invalid " + ToLower(FieldLabel(field)) + " file type"];
          return;
        }
        formData := WithFile(formData, field, x);
      }
    }

    /** `handleSubmit`: an invalid form raises its toast and sends nothing;
        a valid one is sent with `isSubmitting` set, which is cleared on every
        outcome. */
    method HandleSubmit(numberText: real -> string, response: SubmitResponse)
      modifies this`toasts, this`isSubmitting, this`showSuccessDialog, this`requests
      ensures (toasts, requests, isSubmitting, showSuccessDialog)
              == if ValidateForm(formData).Some? then
                   (old(toasts) + [Message(ValidateForm(formData).value)],
                    old(requests), old(isSubmitting), old(showSuccessDialog))
                 else
                   (old(toasts) + (if response == Succeeded then [] else ["Registration failed"]),
                    old(requests) + [(Submission(formData, numberText), true)],
                    false, old(showSuccessDialog) || response == Succeeded)
    {
      var f := formData;
      var invalid := ValidateForm(f);
      if invalid.Some? {
        Reject(invalid.value);
        assert formData == f;
      } else {
        var parts := BuildSubmission(f, numberText);
        Send(parts, response);
        assert formData == f;
      }
    }

    /** The rejected branch of `handleSubmit`: the failed check's toast. */
    method Reject(e: FormError)
      modifies this`toasts
      ensures toasts == old(toasts) + [Message(e)]
    {
      toasts := toasts + [Message(e)];
    }

    /** The `try`/`finally` of `handleSubmit`: the request goes out while
        `isSubmitting` is set, and the flag is cleared whatever the response. */
    method Send(parts: seq<Part>, response: SubmitResponse)
      modifies this`toasts, this`isSubmitting, this`showSuccessDialog, this`requests
      ensures requests == old(requests) + [(parts, true)]
      ensures !isSubmitting
      ensures showSuccessDialog == (old(showSuccessDialog) || response == Succeeded)
      ensures toasts == old(toasts) + (if response == Succeeded then [] else ["Registration failed"])
    {
      isSubmitting := true;
      requests := requests + [(parts, isSubmitting)];
      if response == Succeeded {
        showSuccessDialog := true;
      } else {
        toasts := toasts + ["Registration failed"];
      }
      isSubmitting := false;
    }
  }
}
