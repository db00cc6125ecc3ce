/** The custom-order request form (app/customorders/page.tsx): the e-mail
    pattern, the error map `validateForm` builds, and the edits to the form
    fields, the attached files and the error map. */
module CustomOrders {
  import opened Types
  import opened JsString
  import opened JsArray

  // ---------------------------------------------------------------------------
  // The e-mail pattern `^[^\s@]+@[^\s@]+\.[^\s@]+$`.

  /** `[^\s@]+`: one or more characters, none of them whitespace or '@'. */
  predicate Segment(t: string) {
    |t| > 0 && forall k :: 0 <= k < |t| ==> !IsWhitespace(t[k]) && t[k] != '@'
  }

  /** The pattern matches with its '@' at `i` and its '.' at `j`. */
  predicate SplitAt(s: string, i: int, j: int) {
    0 <= i < j < |s| && s[i] == '@' && s[j] == '.'
    && Segment(s[..i]) && Segment(s[i + 1..j]) && Segment(s[j + 1..])
  }

  /** `validateEmail`: some choice of the '@' and the '.' makes the whole
      string match (the pattern is anchored at both ends). */
  predicate ValidateEmail(s: string) {
    exists i, j | 0 <= i < j < |s| :: SplitAt(s, i, j)
  }

  predicate NoWhitespace(s: string) {
    forall k :: 0 <= k < |s| ==> !IsWhitespace(s[k])
  }

  /** '@' at `i`, nowhere else, not first; '.' at `j`, at least two places after
      the '@' and before the last character. */
  predicate AtAndDot(s: string, i: int, j: int) {
    0 < i && i + 1 < j < |s| - 1 && s[i] == '@' && s[j] == '.'
    && forall k :: 0 <= k < |s| && s[k] == '@' ==> k == i
  }

  /** An address passes exactly when it has no whitespace, exactly one '@',
      which is not its first character, and a '.' after the '@' with at least
      one character between them and at least one after it. */
  lemma {:induction false} EmailShape(s: string)
    ensures ValidateEmail(s) <==> NoWhitespace(s) && exists i, j :: AtAndDot(s, i, j)
  {
    if ValidateEmail(s) {
      var i, j :| 0 <= i < j < |s| && SplitAt(s, i, j);
      forall k | 0 <= k < |s|
        ensures !IsWhitespace(s[k]) && (s[k] == '@' ==> k == i)
      {
        if k < i {
          assert s[..i][k] == s[k];
        } else if i < k < j {
          assert s[i + 1..j][k - i - 1] == s[k];
        } else if j < k {
          assert s[j + 1..][k - j - 1] == s[k];
        }
      }
      assert AtAndDot(s, i, j);
    }
    if NoWhitespace(s) && exists i, j :: AtAndDot(s, i, j) {
      var i, j :| AtAndDot(s, i, j);
      assert Segment(s[..i]);
      var mid := s[i + 1..j];
      forall k | 0 <= k < |mid|
        ensures !IsWhitespace(mid[k]) && mid[k] != '@'
      {
        assert mid[k] == s[i + 1 + k];
      }
      var tail := s[j + 1..];
      forall k | 0 <= k < |tail|
        ensures !IsWhitespace(tail[k]) && tail[k] != '@'
      {
        assert tail[k] == s[j + 1 + k];
      }
      assert SplitAt(s, i, j);
    }
  }

  /** Two addresses the pattern accepts. */
  lemma ValidEmails()
    ensures ValidateEmail("jane@homify.co.ke")
    ensures ValidateEmail("a@b.c")
  {
    assert SplitAt("jane@homify.co.ke", 4, 11);
    assert SplitAt("a@b.c", 1, 3);
  }

  /** Addresses the pattern refuses: no '.' after the '@', nothing before the
      '@', nothing between '@' and '.', nothing after the '.', two '@', and a
      leading blank. */
  lemma InvalidEmails()
    ensures !ValidateEmail("a@b")
    ensures !ValidateEmail("@b.c")
    ensures !ValidateEmail("a@.c")
    ensures !ValidateEmail("a@b.")
    ensures !ValidateEmail("a@@b.c")
    ensures !ValidateEmail(" a@b.c")
  {
    NoDotAfterAt("a@b");
    EmailShape("@b.c");
    EmailShape("a@.c");
    EmailShape("a@b.");
    EmailShape("a@@b.c");
    assert "a@@b.c"[1] == '@' && "a@@b.c"[2] == '@';
    EmailShape(" a@b.c");
    assert IsWhitespace(" a@b.c"[0]);
  }

  /** Without a '.' there is no match. */
  lemma NoDotAfterAt(s: string)
    requires forall k :: 0 <= k < |s| ==> s[k] != '.'
    ensures !ValidateEmail(s)
  {
  }

  // ---------------------------------------------------------------------------
  // The form.

  /** The `name` attributes of the form's inputs. */
  datatype Field = Name | Email | Phone | Dimensions | Material | Color | Budget | Timeline | Description

  /** `formData`: one text per input. */
  datatype FormData = FormData(
    name: string, email: string, phone: string, dimensions: string, material: string,
    color: string, budget: string, timeline: string, description: string)

  /** The keys of the error map: one per input, and "files". */
  datatype ErrorKey = On(field: Field) | Files

  /** The messages `validateForm` can store. */
  datatype Message =
    | NameRequired | EmailRequired | EmailInvalid | PhoneRequired | TimelineRequired
    | DescriptionRequired | FilesRequired | TooManyFiles | FileTooLarge

  /** The wording shown under the input. */
  function Text(m: Message): string {
    match m
    case NameRequired => "Full name is required"
    case EmailRequired => "Email is required"
    case EmailInvalid => "Please enter a valid email"
    case PhoneRequired => "Phone number is required"
    case TimelineRequired => "Timeline is required"
    case DescriptionRequired => "Description is required"
    case FilesRequired => "At least one file is required"
    case TooManyFiles => "Maximum 5 files allowed"
    case FileTooLarge => "File size must be less than 10MB"
  }

  const EmptyForm := FormData("", "", "", "", "", "", "", "", "")

  /** The largest file size allowed, `10 * 1024 * 1024` bytes. */
  const MaxFileBytes := 10 * 1024 * 1024

  /** How many files a request may carry. */
  const MaxFiles := 5

  /** `formData[name]`. */
  function Get(form: FormData, f: Field): string {
    match f
    case Name => form.name
    case Email => form.email
    case Phone => form.phone
    case Dimensions => form.dimensions
    case Material => form.material
    case Color => form.color
    case Budget => form.budget
    case Timeline => form.timeline
    case Description => form.description
  }

  /** `{ ...prev, [name]: value }`: the named input reads `value`, every other
      input keeps its text. */
  function Set(form: FormData, f: Field, value: string): (r: FormData)
    ensures Get(r, f) == value
    ensures forall g :: g != f ==> Get(r, g) == Get(form, g)
  {
    match f
    case Name => form.(name := value)
    case Email => form.(email := value)
    case Phone => form.(phone := value)
    case Dimensions => form.(dimensions := value)
    case Material => form.(material := value)
    case Color => form.(color := value)
    case Budget => form.(budget := value)
    case Timeline => form.(timeline := value)
    case Description => form.(description := value)
  }

  /** The inputs `validateForm` insists on. */
  predicate Required(f: Field) {
    f in {Name, Email, Phone, Timeline, Description}
  }

  /** `uploadedFiles.some(file => file.size > 10 * 1024 * 1024)`. */
  predicate AnyTooLarge(files: seq<FileInfo>) {
    exists k :: 0 <= k < |files| && files[k].size > MaxFileBytes
  }

  /** The first half of `validateForm`: one "required" (or, for the e-mail,
      "invalid") message per blank required input, in form order. */
  function FieldErrors(name: string, email: string, phone: string, timeline: string, description: string)
    : (r: map<ErrorKey, Message>)
    ensures Files !in r
  {
    var e0: map<ErrorKey, Message> := map[];
    var e1 := if Trim(name) == "" then e0[On(Name) := NameRequired] else e0;
    var e2 :=
      if Trim(email) == "" then e1[On(Email) := EmailRequired]
      else if !ValidateEmail(email) then e1[On(Email) := EmailInvalid]
      else e1;
    var e3 := if Trim(phone) == "" then e2[On(Phone) := PhoneRequired] else e2;
    var e4 := if Trim(timeline) == "" then e3[On(Timeline) := TimelineRequired] else e3;
    if Trim(description) == "" then e4[On(Description) := DescriptionRequired] else e4
  }

  /** The second half of `validateForm`: the file checks, each writing the
      "files" entry, so the size message overwrites both count messages. */
  function FileErrors(files: seq<FileInfo>, errors: map<ErrorKey, Message>): map<ErrorKey, Message> {
    var e6 := if |files| == 0 then errors[Files := FilesRequired] else errors;
    var e7 := if |files| > MaxFiles then e6[Files := TooManyFiles] else e6;
    if AnyTooLarge(files) then e7[Files := FileTooLarge] else e7
  }

  /** `validateForm`'s error map. */
  function FormErrors(form: FormData, files: seq<FileInfo>): map<ErrorKey, Message> {
    FileErrors(files, FieldsOf(form))
  }

  /** The first half applied to the five required inputs of `form`. */
  function FieldsOf(form: FormData): map<ErrorKey, Message> {
    FieldErrors(form.name, form.email, form.phone, form.timeline, form.description)
  }

  /** The e-mail message: "required" when blank after `trim`, "invalid" when
      not blank but the text as typed fails the pattern. */
  function EmailMessage(email: string): Message {
    if Trim(email) == "" then EmailRequired else EmailInvalid
  }

  /** The files message, the size one taking precedence. */
  function FilesMessage(files: seq<FileInfo>): Message {
    if AnyTooLarge(files) then FileTooLarge
    else if |files| > MaxFiles then TooManyFiles
    else FilesRequired
  }

  /** Each required input's entry, by key. */
  lemma FieldErrorsKeys(name: string, email: string, phone: string, timeline: string, description: string)
    ensures var r := FieldErrors(name, email, phone, timeline, description);
      (On(Name) in r <==> Trim(name) == "") && (On(Phone) in r <==> Trim(phone) == "")
      && (On(Timeline) in r <==> Trim(timeline) == "") && (On(Description) in r <==> Trim(description) == "")
      && (On(Email) in r <==> Trim(email) == "" || !ValidateEmail(email))
      && (On(Email) in r ==> r[On(Email)] == EmailMessage(email))
      && (forall k :: k in r ==> k.On? && Required(k.field))
  {
  }

  /** A blank required input other than the e-mail gets its message, and only
      those inputs get one; the e-mail gets one exactly when it is blank or
      fails the pattern. */
  lemma {:induction false} FieldErrorsSpec(form: FormData)
    ensures var r := FieldsOf(form);
      (forall f :: f != Email ==> (On(f) in r <==> Required(f) && Trim(Get(form, f)) == ""))
      && (On(Email) in r <==> Trim(form.email) == "" || !ValidateEmail(form.email))
      && (On(Email) in r ==> r[On(Email)] == EmailMessage(form.email))
      && (|r| == 0 <==> (forall f :: Required(f) ==> Trim(Get(form, f)) != "") && ValidateEmail(form.email))
  {
    var r := FieldsOf(form);
    FieldErrorsKeys(form.name, form.email, form.phone, form.timeline, form.description);
    forall f | f != Email
      ensures On(f) in r <==> Required(f) && Trim(Get(form, f)) == ""
    {
      match f
      case Name =>
      case Phone =>
      case Timeline =>
      case Description =>
      case Dimensions | Material | Color | Budget =>
        assert !Required(f);
    }
    if |r| == 0 {
      assert forall k :: k !in r;
    }
    if (forall f :: Required(f) ==> Trim(Get(form, f)) != "") && ValidateEmail(form.email) {
      assert Required(Name) && Required(Email) && Required(Phone) && Required(Timeline) && Required(Description);
      assert r == map[];
    }
  }

  /** The file checks add the "files" entry exactly when there are no files,
      more than 5, or one over 10 MB, and touch nothing else. */
  lemma {:induction false} FileErrorsSpec(files: seq<FileInfo>, errors: map<ErrorKey, Message>)
    requires Files !in errors
    ensures var r := FileErrors(files, errors);
      (Files in r <==> |files| == 0 || |files| > MaxFiles || AnyTooLarge(files))
      && (Files in r ==> r[Files] == FilesMessage(files))
      && (forall k :: k != Files ==> (k in r <==> k in errors))
      && (forall k :: k != Files && k in r ==> r[k] == errors[k])
      && (|r| == 0 <==> |errors| == 0 && 1 <= |files| <= MaxFiles && !AnyTooLarge(files))
  {
    var r := FileErrors(files, errors);
    if Files in r {
      assert |r| != 0;
    } else {
      assert r == errors;
    }
  }

  /** The form is accepted: every required input is non-blank after `trim`,
      the e-mail matches the pattern as typed (untrimmed), and there are 1 to
      5 files of at most 10 MB each. */
  predicate Acceptable(form: FormData, files: seq<FileInfo>) {
    (forall f :: Required(f) ==> Trim(Get(form, f)) != "")
    && ValidateEmail(form.email)
    && 1 <= |files| <= MaxFiles && !AnyTooLarge(files)
  }

  /** Which errors appear and with which message: a blank required input gets
      its "required" message and only those do; a blank e-mail gets "Email is
      required" and only a non-blank one that fails the pattern gets "Please
      enter a valid email"; the files get the size message whenever a file is
      too large, otherwise the count message. The map is empty exactly when
      the form is acceptable. */
  lemma FormErrorsSpec(form: FormData, files: seq<FileInfo>)
    ensures var r := FormErrors(form, files);
      (forall f :: f != Email ==> (On(f) in r <==> Required(f) && Trim(Get(form, f)) == ""))
      && (On(Email) in r <==> Trim(form.email) == "" || !ValidateEmail(form.email))
      && (On(Email) in r ==> r[On(Email)] == EmailMessage(form.email))
      && (Files in r <==> |files| == 0 || |files| > MaxFiles || AnyTooLarge(files))
      && (Files in r ==> r[Files] == FilesMessage(files))
      && (|r| == 0 <==> Acceptable(form, files))
  {
    FieldErrorsSpec(form);
    FileErrorsSpec(files, FieldsOf(form));
  }

  /** The optional inputs (dimensions, material, colour, budget) never
      change the error map. */
  lemma OptionalFieldsIgnored(form: FormData, files: seq<FileInfo>, other: Field, value: string)
    requires !Required(other)
    ensures FormErrors(Set(form, other, value), files) == FormErrors(form, files)
  {
    var form' := Set(form, other, value);
    assert form'.name == form.name && form'.email == form.email && form'.phone == form.phone;
    assert form'.timeline == form.timeline && form'.description == form.description;
    assert FieldsOf(form') == FieldsOf(form);
  }

  /** The e-mail check is on the text as typed: an address with a leading
      space is not blank, yet fails the pattern. */
  lemma UntrimmedEmail(form: FormData, files: seq<FileInfo>)
    requires form.email == " a@b.c"
    ensures On(Email) in FormErrors(form, files)
    ensures FormErrors(form, files)[On(Email)] == EmailInvalid
  {
    InvalidEmails();
    assert Trim(form.email) != "" by {
      TrimEmptyIff(form.email);
      assert !IsWhitespace(form.email[1]);
    }
    FormErrorsSpec(form, files);
  }

  /** The component's state: the inputs, the attached files, the error map and
      the submit flag. */
  class CustomOrderForm {
    var formData: FormData
    var uploadedFiles: seq<FileInfo>
    var errors: map<ErrorKey, Message>
    var isSubmitting: bool

    /** All nine inputs empty, no files, no errors. */
    constructor ()
      ensures formData == EmptyForm && uploadedFiles == [] && errors == map[] && !isSubmitting
    {
      formData := EmptyForm;
      uploadedFiles := [];
      errors := map[];
      isSubmitting := false;
    }

    /** `validateForm`: replaces the error map and reports whether it is empty. */
    method ValidateForm() returns (valid: bool)
      modifies this
      ensures errors == FormErrors(formData, uploadedFiles)
      ensures valid <==> Acceptable(formData, uploadedFiles)
      ensures formData == old(formData) && uploadedFiles == old(uploadedFiles) && isSubmitting == old(isSubmitting)
    {
      FormErrorsSpec(formData, uploadedFiles);
      errors := FormErrors(formData, uploadedFiles);
      valid := |errors| == 0;
    }

    /** `handleSubmit`: an unacceptable form only refreshes the errors;
        otherwise the (simulated) submission runs and the flag ends cleared. */
    method HandleSubmit() returns (submitted: bool)
      modifies this
      ensures errors == FormErrors(formData, uploadedFiles)
      ensures submitted <==> Acceptable(formData, uploadedFiles)
      ensures submitted ==> !isSubmitting
      ensures !submitted ==> isSubmitting == old(isSubmitting)
      ensures formData == old(formData) && uploadedFiles == old(uploadedFiles)
    {
      submitted := ValidateForm();
      if !submitted {
        return;
      }
      isSubmitting := true;
      isSubmitting := false;
    }

    /** `handleFileSelect`: a selection (even an empty one) is appended after
        the files already attached; no selection changes nothing. */
    method HandleFileSelect(selected: Option<seq<FileInfo>>)
      modifies this
      ensures uploadedFiles == if selected.Some? then old(uploadedFiles) + selected.value else old(uploadedFiles)
      ensures formData == old(formData) && errors == old(errors) && isSubmitting == old(isSubmitting)
    {
      if selected.Some? {
        uploadedFiles := uploadedFiles + selected.value;
      }
    }

    /** `handleDeleteFile`: removes the file at that position and keeps the
        others in order; a position outside the list changes nothing. */
    method HandleDeleteFile(index: int)
      modifies this
      ensures 0 <= index < |old(uploadedFiles)| ==>
        uploadedFiles == old(uploadedFiles)[..index] + old(uploadedFiles)[index + 1..]
        && |uploadedFiles| == |old(uploadedFiles)| - 1
      ensures !(0 <= index < |old(uploadedFiles)|) ==> uploadedFiles == old(uploadedFiles)
      ensures formData == old(formData) && errors == old(errors) && isSubmitting == old(isSubmitting)
    {
      uploadedFiles := WithoutIndex(uploadedFiles, index);
    }

    /** `handleInputChange`: sets the named input and no other; drops that
        input's error if it has a non-empty one, and no other error. */
    method HandleInputChange(name: Field, value: string)
      modifies this
      ensures formData == Set(old(formData), name, value)
      ensures errors == if On(name) in old(errors) && Text(old(errors)[On(name)]) != "" then old(errors) - {On(name)} else old(errors)
      ensures forall k :: k in old(errors) && k != On(name) ==> k in errors && errors[k] == old(errors)[k]
      ensures uploadedFiles == old(uploadedFiles) && isSubmitting == old(isSubmitting)
    {
      formData := Set(formData, name, value);
      if On(name) in errors && Text(errors[On(name)]) != "" {
        var updated := errors;
        updated := updated - {On(name)};
        errors := updated;
      }
    }
  }
}
