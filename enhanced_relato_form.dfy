/** The relato submission form: its field values and per-field errors, the
    validation run on sanitised values, and the submit flow that waits for
    both images and then creates the record through the document service.
    The editor's markdown is passed in (`None` when the editor throws). */
module RelatoForm {
  import opened Wrappers
  import opened Text
  import opened Sorting
  import opened FirebaseTypes
  import opened ValidationSchemas
  import opened DocumentService
  import opened UploadHooks

  datatype RelatoFormData = RelatoFormData(
    name: string,
    surname: string,
    phone: string,
    title: string,
    content: string,
    dniImage: Option<File>,
    bannerImage: Option<File>)

  const EMPTY_FORM := RelatoFormData("", "", "", "", "", None, None)

  datatype SubmissionState = SubmissionState(
    isSubmitting: bool,
    isSuccess: bool,
    error: Option<string>,
    submissionId: Option<string>)

  const IDLE := SubmissionState(false, false, None, None)

  const VALIDATE_FAILED_MSG := "Error al validar el formulario"
  const FIX_ERRORS_MSG := "Por favor, corrige los errores en el formulario"
  const WAIT_UPLOADS_MSG := "Por favor, espera a que se suban todas las imágenes"
  const SUBMIT_FAILED_MSG := "Error al enviar el formulario. Intenta nuevamente."

  function ImageValue(f: Option<File>): FieldValue {
    if f.Some? then FileVal(f.value) else NullVal
  }

  /** The form as the record the schema reads. */
  function ToFormData(f: RelatoFormData): (d: FormData)
    ensures d.Keys == {"name", "surname", "phone", "title", "content", "dni_image", "banner_image"}
    ensures d["name"] == Str(f.name) && d["surname"] == Str(f.surname) && d["phone"] == Str(f.phone)
    ensures d["title"] == Str(f.title) && d["content"] == Str(f.content)
    ensures d["dni_image"] == ImageValue(f.dniImage) && d["banner_image"] == ImageValue(f.bannerImage)
  {
    map["name" := Str(f.name), "surname" := Str(f.surname), "phone" := Str(f.phone),
        "title" := Str(f.title), "content" := Str(f.content),
        "dni_image" := ImageValue(f.dniImage), "banner_image" := ImageValue(f.bannerImage)]
  }

  /** The form after `sanitizeFormData`. */
  function SanitizedForm(f: RelatoFormData): RelatoFormData {
    f.(name := SanitizeString(f.name), surname := SanitizeString(f.surname), phone := SanitizePhone(f.phone),
       title := SanitizeString(f.title), content := SanitizeString(f.content))
  }

  /** The typed form agrees with `sanitizeFormData` run on its record, entry by entry. */
  lemma SanitizedFormAgrees(f: RelatoFormData)
    ensures ToFormData(SanitizedForm(f)).Keys == ToFormData(f).Keys
    ensures forall k :: k in ToFormData(f) ==> ToFormData(SanitizedForm(f))[k] == SanitizedValue(k, ToFormData(f)[k])
  {
    var d, e := ToFormData(f), ToFormData(SanitizedForm(f));
    forall k | k in d ensures e[k] == SanitizedValue(k, d[k]) {
      if k == "name" {
      } else if k == "surname" {
      } else if k == "phone" {
      } else if k == "title" {
      } else if k == "content" {
      } else if k == "dni_image" {
      } else {
        assert k == "banner_image";
      }
    }
  }

  /** So whatever `sanitizeFormData` returns for the record is the record of the sanitised form. */
  lemma SanitizedRecordIsSanitizedForm(f: RelatoFormData, sanitized: FormData)
    requires sanitized.Keys == ToFormData(f).Keys
    requires forall k :: k in ToFormData(f) ==> sanitized[k] == SanitizedValue(k, ToFormData(f)[k])
    ensures sanitized == ToFormData(SanitizedForm(f))
  {
    SanitizedFormAgrees(f);
  }

  /** The issues `validateForm` finds with the editor's `content`. */
  function Issues(f: RelatoFormData, content: string): seq<Issue> {
    ValidateRelatoSubmission(ToFormData(SanitizedForm(f.(content := content))))
  }

  predicate Accepted(f: RelatoFormData, editorContent: Option<string>) {
    editorContent.Some? && Issues(f, editorContent.value) == []
  }

  /** The errors `validateForm` stores when it rejects the form: the general
      message when the editor throws, the formatted issues otherwise. */
  function RejectedErrors(f: RelatoFormData, editorContent: Option<string>): map<string, string> {
    if editorContent.None? then map["general" := VALIDATE_FAILED_MSG]
    else FormattedErrors(Issues(f, editorContent.value))
  }

  /** The form `validateForm` stores on success: sanitised values, raw content. */
  function Validated(f: RelatoFormData, content: string): RelatoFormData {
    SanitizedForm(f.(content := content)).(content := content)
  }

  /** What a successful validation stores passed the schema: the person
      fields, the phone, the title and both images of the stored form are
      the very values the schema accepted. */
  lemma ValidatedFormIsAccepted(f: RelatoFormData, content: string)
    requires Issues(f, content) == []
    ensures var v := Validated(f, content);
      && FieldAccepted(NAME_SCHEMA, Some(Str(v.name))) && FieldAccepted(SURNAME_SCHEMA, Some(Str(v.surname)))
      && FieldAccepted(PHONE_SCHEMA, Some(Str(v.phone))) && FieldAccepted(TITLE_SCHEMA, Some(Str(v.title)))
      && FieldAccepted(DNI_IMAGE_SCHEMA, Some(ImageValue(v.dniImage)))
      && FieldAccepted(BANNER_IMAGE_SCHEMA, Some(ImageValue(v.bannerImage)))
      && 10 <= |v.phone| <= 15 && AllDigits(v.phone)
      && v.dniImage.Some? && v.bannerImage.Some?
  {
    var d := ToFormData(SanitizedForm(f.(content := content)));
    var s := RELATO_SUBMISSION_SCHEMA;
    assert FieldAccepted(s[0].1, Lookup(d, s[0].0)) && FieldAccepted(s[1].1, Lookup(d, s[1].0));
    assert FieldAccepted(s[2].1, Lookup(d, s[2].0)) && FieldAccepted(s[3].1, Lookup(d, s[3].0));
    assert FieldAccepted(s[5].1, Lookup(d, s[5].0)) && FieldAccepted(s[6].1, Lookup(d, s[6].0));
    PhoneAccepted(Validated(f, content).phone);
  }

  /** The fields `updateField` can set, with the value types the form uses. */
  datatype TextField = NameField | SurnameField | PhoneField | TitleField | ContentField

  datatype FieldUpdate =
    | SetText(field: TextField, value: string)
    | SetDniImage(file: Option<File>)
    | SetBannerImage(file: Option<File>)
  {
    function Key(): string {
      match this
      case SetText(NameField, _) => "name"
      case SetText(SurnameField, _) => "surname"
      case SetText(PhoneField, _) => "phone"
      case SetText(TitleField, _) => "title"
      case SetText(ContentField, _) => "content"
      case SetDniImage(_) => "dni_image"
      case SetBannerImage(_) => "banner_image"
    }

    function Value(): FieldValue {
      match this
      case SetText(_, s) => Str(s)
      case SetDniImage(f) => ImageValue(f)
      case SetBannerImage(f) => ImageValue(f)
    }
  }

  /** `{ ...prev, [field]: value }`: that one entry replaced, the others kept. */
  function Updated(f: RelatoFormData, u: FieldUpdate): (r: RelatoFormData)
    ensures ToFormData(r) == ToFormData(f)[u.Key() := u.Value()]
  {
    match u
    case SetText(NameField, s) => f.(name := s)
    case SetText(SurnameField, s) => f.(surname := s)
    case SetText(PhoneField, s) => f.(phone := s)
    case SetText(TitleField, s) => f.(title := s)
    case SetText(ContentField, s) => f.(content := s)
    case SetDniImage(file) => f.(dniImage := file)
    case SetBannerImage(file) => f.(bannerImage := file)
  }

  /** `!url` is false only for a non-empty string. */
  predicate UrlReady(url: Option<string>) {
    url.Some? && url.value != ""
  }

  /** The record handed to `createRelato`. */
  function Payload(f: RelatoFormData, content: string, dniUrl: string, bannerUrl: string): (r: CreateRelatoData)
    ensures r.content == content && r.dniImageUrl == dniUrl && r.bannerImageUrl == bannerUrl
    ensures r.name == f.name && r.surname == f.surname && r.phone == f.phone && r.title == f.title
  {
    CreateRelatoData(f.name, f.surname, f.phone, f.title, content, dniUrl, bannerUrl)
  }

  /** `error.message || default` for what `createRelato` throws. */
  function ErrorText(e: FirebaseError): (m: string)
    ensures m != ""
    ensures e.message != "" ==> m == e.message
  {
    if e.message != "" then e.message else SUBMIT_FAILED_MSG
  }

  /** A phone typed with spaces: sanitised it is ten digits and accepted,
      but the raw text is not. */
  const SPACED_PHONE := "11 2345 6789"

  /** The as-written submit stores the form captured before validation, so
      an accepted form with a spaced phone is stored with a phone the schema
      rejects; the corrected submit stores the accepted digits. */
  lemma SpacedPhoneStoredRaw(f: RelatoFormData, content: string, dniUrl: string, bannerUrl: string)
    requires f.phone == SPACED_PHONE
    ensures !FieldAccepted(PHONE_SCHEMA, Some(Str(Payload(f, content, dniUrl, bannerUrl).phone)))
    ensures FieldAccepted(PHONE_SCHEMA, Some(Str(Payload(Validated(f, content), content, dniUrl, bannerUrl).phone)))
  {
    SpacedPhoneRejected();
    SpacedPhoneSanitised();
  }

  lemma SpacedPhoneRejected()
    ensures !FieldAccepted(PHONE_SCHEMA, Some(Str(SPACED_PHONE)))
  {
    PhoneAccepted(SPACED_PHONE);
    assert !IsDigit(SPACED_PHONE[2]);
  }

  lemma SpacedPhoneSanitised()
    ensures FieldAccepted(PHONE_SCHEMA, Some(Str(SanitizePhone(SPACED_PHONE))))
  {
    var a, b, c := "11", "2345", "6789";
    assert SPACED_PHONE == a + " " + b + " " + c;
    SpacedGroupsAccepted(a, b, c);
  }

  /** Digit groups of 10 to 15 digits in all, separated by spaces, pass the
      phone rule once sanitised. */
  lemma SpacedGroupsAccepted(a: string, b: string, c: string)
    requires AllDigits(a) && AllDigits(b) && AllDigits(c)
    requires 10 <= |a| + |b| + |c| <= 15
    ensures FieldAccepted(PHONE_SCHEMA, Some(Str(SanitizePhone(a + " " + b + " " + c))))
  {
    DigitsAroundSpaces(a, b, c);
    PhoneAccepted(a + b + c);
  }

  /** Sanitising digit groups separated by single spaces joins the groups. */
  lemma DigitsAroundSpaces(a: string, b: string, c: string)
    requires AllDigits(a) && AllDigits(b) && AllDigits(c)
    ensures SanitizePhone(a + " " + b + " " + c) == a + b + c
  {
    var sp: string := " ";
    assert Select(sp, IsDigit) == [] by {
      assert sp[1..] == [];
    }
    SelectKeepsAll(a, IsDigit);
    SelectKeepsAll(b, IsDigit);
    SelectKeepsAll(c, IsDigit);
    var s1 := a + sp;
    SelectConcat(a, sp, IsDigit);
    assert Select(s1, IsDigit) == a;
    var s2 := s1 + b;
    SelectConcat(s1, b, IsDigit);
    var s3 := s2 + sp;
    SelectConcat(s2, sp, IsDigit);
    assert Select(s3, IsDigit) == a + b;
    var s4 := s3 + c;
    SelectConcat(s3, c, IsDigit);
    assert Select(s4, IsDigit) == a + b + c;
    assert s4 == a + " " + b + " " + c;
  }

  /** The body of `validateForm` once the editor gave its content: sanitise
      the record, run the schema, and either format the issues or hand back
      the sanitised form with the raw content. */
  method CheckForm(f: RelatoFormData, content: string) returns (ok: bool, errors: map<string, string>, validated: RelatoFormData)
    ensures ok <==> Issues(f, content) == []
    ensures !ok ==> errors == FormattedErrors(Issues(f, content))
    ensures ok ==> errors == map[] && validated == Validated(f, content)
  {
    var data := f.(content := content);
    var sanitized := SanitizeFormData(ToFormData(data));
    SanitizedRecordIsSanitizedForm(data, sanitized);
    var issues := ValidateRelatoSubmission(sanitized);
    validated := f;
    if |issues| > 0 {
      errors := FormatValidationErrors(issues);
      ok := false;
    } else {
      validated := SanitizedForm(data).(content := content);
      errors := map[];
      ok := true;
    }
  }

  /** `EnhancedRelatoForm`: the component's state, the upload slots it
      reads, and the service it submits to. */
  class EnhancedRelatoForm {
    var form: RelatoFormData
    var errors: map<string, string>
    var submission: SubmissionState
    const uploads: MultiUpload
    const service: FirebaseService

    ghost predicate Valid()
      reads this, uploads, service
    {
      uploads.Valid() && service.Valid()
    }

    constructor (uploads: MultiUpload, service: FirebaseService)
      requires uploads.Valid() && service.Valid()
      ensures Valid() && this.uploads == uploads && this.service == service
      ensures form == EMPTY_FORM && errors == map[] && submission == IDLE
    {
      this.uploads := uploads;
      this.service := service;
      form := EMPTY_FORM;
      errors := map[];
      submission := IDLE;
    }

    /** `updateField(field, value)`: the field is set, and its error entry
        blanked if it held a message. */
    method UpdateField(u: FieldUpdate)
      modifies this
      ensures form == Updated(old(form), u)
      ensures errors == if u.Key() in old(errors) && old(errors)[u.Key()] != "" then old(errors)[u.Key() := ""] else old(errors)
      ensures submission == old(submission)
    {
      form := Updated(form, u);
      if u.Key() in errors && errors[u.Key()] != "" {
        errors := errors[u.Key() := ""];
      }
    }

    /** `validateForm()`. */
    method ValidateForm(editorContent: Option<string>) returns (ok: bool)
      modifies this
      ensures ok <==> Accepted(old(form), editorContent)
      ensures !ok ==> errors == RejectedErrors(old(form), editorContent)
      ensures editorContent.None? ==> errors == map["general" := VALIDATE_FAILED_MSG] && form == old(form)
      ensures editorContent.Some? && !ok ==>
        errors == FormattedErrors(Issues(old(form), editorContent.value)) && form == old(form)
      ensures ok ==> errors == map[] && form == Validated(old(form), editorContent.value)
      ensures submission == old(submission)
    {
      match editorContent {
        case None =>
          errors := map["general" := VALIDATE_FAILED_MSG];
          ok := false;
        case Some(content) =>
          var validated;
          ok, errors, validated := CheckForm(form, content);
          if ok {
            form := validated;
          }
      }
    }

    predicate Blocked()
      reads this, uploads
    {
      submission.isSubmitting || uploads.isAnyUploading
    }

    /** The rest of `handleSubmit` once validation passed: the image gate,
        then `createRelato` with the record built from `data`. */
    method CreateFrom(data: RelatoFormData, content: string, now: int, fault: Option<Thrown>)
      requires Valid()
      modifies this, service
      ensures Valid() && form == old(form) && errors == old(errors)
      ensures service.portal == old(service.portal) && service.objects == old(service.objects)
      ensures !(UrlReady(uploads.dni.url) && UrlReady(uploads.banner.url)) ==>
        submission == SubmissionState(false, false, Some(WAIT_UPLOADS_MSG), None)
        && service.relatos == old(service.relatos)
      ensures UrlReady(uploads.dni.url) && UrlReady(uploads.banner.url) && fault.Some? ==>
        submission == SubmissionState(false, false, Some(ErrorText(HandleServiceError(fault.value))), None)
        && service.relatos == old(service.relatos)
      ensures UrlReady(uploads.dni.url) && UrlReady(uploads.banner.url) && fault.None? ==>
        && submission.submissionId.Some? && submission == SubmissionState(false, true, None, submission.submissionId)
        && var id := submission.submissionId.value;
           && id !in old(service.relatos)
           && service.relatos == old(service.relatos)[id := NewRelato(id,
                Payload(data, content, uploads.dni.url.value, uploads.banner.url.value), now)]
    {
      if !(UrlReady(uploads.dni.url) && UrlReady(uploads.banner.url)) {
        submission := SubmissionState(false, false, Some(WAIT_UPLOADS_MSG), None);
        return;
      }
      var payload := Payload(data, content, uploads.dni.url.value, uploads.banner.url.value);
      var r := service.CreateRelato(payload, now, fault);
      match r {
        case Ok(id) => submission := SubmissionState(false, true, None, Some(id));
        case Err(e) => submission := SubmissionState(false, false, Some(ErrorText(e)), None);
      }
    }

    /** `handleSubmit`, storing the values validation accepted. Blocked
        while submitting or uploading; a rejected form goes to the error
        state without reaching the service. */
    method HandleSubmit(editorContent: Option<string>, now: int, fault: Option<Thrown>)
      requires Valid()
      modifies this, service
      ensures Valid()
      ensures service.portal == old(service.portal) && service.objects == old(service.objects)
      ensures old(Blocked()) ==>
        form == old(form) && errors == old(errors) && submission == old(submission)
        && service.relatos == old(service.relatos)
      ensures !old(Blocked()) && !Accepted(old(form), editorContent) ==>
        form == old(form) && submission == SubmissionState(false, false, Some(FIX_ERRORS_MSG), None)
        && service.relatos == old(service.relatos)
      ensures !old(Blocked()) && !Accepted(old(form), editorContent) ==>
        errors == RejectedErrors(old(form), editorContent)
      ensures !old(Blocked()) && Accepted(old(form), editorContent) ==>
        && form == Validated(old(form), editorContent.value) && errors == map[]
        && (!(UrlReady(uploads.dni.url) && UrlReady(uploads.banner.url)) ==>
              submission == SubmissionState(false, false, Some(WAIT_UPLOADS_MSG), None)
              && service.relatos == old(service.relatos))
        && (UrlReady(uploads.dni.url) && UrlReady(uploads.banner.url) && fault.Some? ==>
              submission == SubmissionState(false, false, Some(ErrorText(HandleServiceError(fault.value))), None)
              && service.relatos == old(service.relatos))
        && (UrlReady(uploads.dni.url) && UrlReady(uploads.banner.url) && fault.None? ==>
              && submission.isSuccess && submission.submissionId.Some?
              && var id := submission.submissionId.value;
                 && id !in old(service.relatos)
                 && service.relatos == old(service.relatos)[id := NewRelato(id,
                      Payload(form, editorContent.value, uploads.dni.url.value, uploads.banner.url.value), now)])
    {
      if submission.isSubmitting || uploads.isAnyUploading {
        return;
      }
      submission := SubmissionState(true, false, None, None);
      var ok := ValidateForm(editorContent);
      if !ok {
        submission := SubmissionState(false, false, Some(FIX_ERRORS_MSG), None);
        return;
      }
      CreateFrom(form, editorContent.value, now, fault);
    }

    /** `handleSubmit` as written: the record is built from the form of the
        render that started the submit, read before validation sanitised it. */
    method HandleSubmitAsWritten(editorContent: Option<string>, now: int, fault: Option<Thrown>)
      requires Valid()
      modifies this, service
      ensures Valid()
      ensures (!old(Blocked()) && Accepted(old(form), editorContent)
               && UrlReady(uploads.dni.url) && UrlReady(uploads.banner.url) && fault.None?) ==>
        && submission.isSuccess && submission.submissionId.Some?
        && var id := submission.submissionId.value;
           service.relatos == old(service.relatos)[id := NewRelato(id,
             Payload(old(form), editorContent.value, uploads.dni.url.value, uploads.banner.url.value), now)]
    {
      if submission.isSubmitting || uploads.isAnyUploading {
        return;
      }
      var captured := form;
      submission := SubmissionState(true, false, None, None);
      var ok := ValidateForm(editorContent);
      if !ok {
        submission := SubmissionState(false, false, Some(FIX_ERRORS_MSG), None);
        return;
      }
      CreateFrom(captured, editorContent.value, now, fault);
    }

    /** `resetForm()`: empty form and errors, idle submission, every upload slot reset. */
    method ResetForm()
      requires Valid()
      modifies this, uploads
      ensures Valid()
      ensures form == EMPTY_FORM && errors == map[] && submission == IDLE
      ensures forall slot :: uploads.Get(slot) == INITIAL_UPLOAD
    {
      form := EMPTY_FORM;
      errors := map[];
      submission := IDLE;
      uploads.ResetAllUploads();
    }
  }
}
