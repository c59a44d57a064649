/** The submission form rules (person fields, phone, relato and Portal de la
    Memoria texts, and the image files), the issue list a parse produces, the
    helpers that turn issues into per-field messages, and the sanitisers run
    on the form data before it is validated. */
module ValidationSchemas {
  import opened Wrappers
  import opened Text
  import opened Sorting
  import opened FirebaseTypes
  import opened FirebaseErrors

  // ---------------------------------------------------------------------
  // Form data and issues

  /** A form field's value: text, a selected file, or null. */
  datatype FieldValue = Str(s: string) | FileVal(file: File) | NullVal

  /** A form's fields by name; a name that is not a key is undefined. */
  type FormData = map<string, FieldValue>

  /** One validation issue: where it is (the path of keys) and what it says. */
  datatype Issue = Issue(path: seq<string>, message: string)

  function Lookup(data: FormData, key: string): Option<FieldValue>
  {
    if key in data then Some(data[key]) else None
  }

  // ---------------------------------------------------------------------
  // Field rules

  /** A character the name pattern accepts: an ASCII letter, a Spanish
      accented vowel or eñe (either case), or whitespace. */
  predicate IsNameChar(c: char) {
    IsAsciiLetter(c) || c in "áéíóúÁÉÍÓÚñÑ" || IsSpace(c)
  }

  /** The two regular expressions the rules use. */
  datatype Pattern =
    | NameChars     // one or more name characters, nothing else
    | PhoneDigits   // 10 to 15 ASCII digits, nothing else

  predicate Matches(p: Pattern, s: string) {
    match p
    case NameChars => |s| >= 1 && forall i :: 0 <= i < |s| ==> IsNameChar(s[i])
    case PhoneDigits => 10 <= |s| <= 15 && AllDigits(s)
  }

  /** A check on a string field, with the message it reports on failure. */
  datatype Check =
    | MinLength(min: nat, msg: string)
    | MaxLength(max: nat, msg: string)
    | Regex(pattern: Pattern, msg: string)
  {
    predicate Passes(s: string) {
      match this
      case MinLength(n, _) => |s| >= n
      case MaxLength(n, _) => |s| <= n
      case Regex(p, _) => Matches(p, s)
    }
  }

  /** Every check runs; the failing ones report, in order. */
  function CheckMessages(checks: seq<Check>, s: string): (r: seq<string>)
    ensures |r| <= |checks|
    ensures r == [] <==> forall i :: 0 <= i < |checks| ==> checks[i].Passes(s)
    ensures forall m :: m in r ==> exists i :: 0 <= i < |checks| && !checks[i].Passes(s) && checks[i].msg == m
  {
    if checks == [] then []
    else (if checks[0].Passes(s) then [] else [checks[0].msg]) + CheckMessages(checks[1..], s)
  }

  /** A field's schema: a string with checks, or an image file that must be
      a non-empty image of an accepted type and at most `maxSize` bytes. */
  datatype FieldSchema =
    | StringSchema(checks: seq<Check>)
    | ImageSchema(maxSize: nat, sizeMsg: string)

  const NOT_A_FILE_MSG := "Input not instance of File"
  const EMPTY_FILE_MSG := "No se ha seleccionado ningún archivo."
  const SCHEMA_TYPE_MSG := "Tipo de archivo no válido. Solo se permiten imágenes JPG, PNG y WebP."

  /** The MIME types the form schemas accept (`image/jpg` included). */
  const SCHEMA_IMAGE_TYPES: seq<string> := ["image/jpeg", "image/jpg", "image/png", "image/webp"]

  /** The messages of one field. A value of the wrong kind stops that field's
      rules at once; otherwise every rule runs and the failing ones report. */
  function FieldMessages(schema: FieldSchema, v: Option<FieldValue>): (r: seq<string>)
    ensures schema.StringSchema? && v.Some? && v.value.Str? ==> r == CheckMessages(schema.checks, v.value.s)
    ensures schema.StringSchema? && !(v.Some? && v.value.Str?) ==> r == [REQUIRED_FIELD_MSG]
    ensures schema.ImageSchema? && !(v.Some? && v.value.FileVal?) ==> r == [NOT_A_FILE_MSG]
    ensures schema.ImageSchema? && v.Some? && v.value.FileVal? ==>
      var f := v.value.file;
      (r == [] <==> f.size > 0 && f.mimeType in SCHEMA_IMAGE_TYPES && f.size <= schema.maxSize)
  {
    match schema
    case StringSchema(checks) =>
      if v.Some? && v.value.Str? then CheckMessages(checks, v.value.s) else [REQUIRED_FIELD_MSG]
    case ImageSchema(maxSize, sizeMsg) =>
      if v.Some? && v.value.FileVal? then
        var f := v.value.file;
        (if f.size > 0 then [] else [EMPTY_FILE_MSG])
        + (if f.mimeType in SCHEMA_IMAGE_TYPES then [] else [SCHEMA_TYPE_MSG])
        + (if f.size <= maxSize then [] else [sizeMsg])
      else [NOT_A_FILE_MSG]
  }

  /** An object schema: its fields in declaration order. */
  type ObjectSchema = seq<(string, FieldSchema)>

  predicate FieldAccepted(schema: FieldSchema, v: Option<FieldValue>) {
    FieldMessages(schema, v) == []
  }

  /** One field's messages as issues under the field's key. */
  function Block(key: string, messages: seq<string>): (r: seq<Issue>)
    ensures |r| == |messages|
    ensures forall j :: 0 <= j < |r| ==> r[j] == Issue([key], messages[j])
  {
    seq(|messages|, j requires 0 <= j < |messages| => Issue([key], messages[j]))
  }

  /** `safeParse`: the issues of every field in order, each at the path of its
      field. The parse succeeds exactly when this list is empty. */
  function SafeParse(schema: ObjectSchema, data: FormData): (issues: seq<Issue>)
    ensures issues == [] <==>
      forall i :: 0 <= i < |schema| ==> FieldAccepted(schema[i].1, Lookup(data, schema[i].0))
    ensures forall k :: 0 <= k < |issues| ==> |issues[k].path| == 1
  {
    if schema == [] then []
    else
      var key := schema[0].0;
      var own := FieldMessages(schema[0].1, Lookup(data, key));
      var rest := SafeParse(schema[1..], data);
      assert (forall i :: 0 <= i < |schema| ==> FieldAccepted(schema[i].1, Lookup(data, schema[i].0)))
         <== own == [] && forall i :: 0 <= i < |schema[1..]| ==>
               FieldAccepted(schema[1..][i].1, Lookup(data, schema[1..][i].0)) by {
        forall i | 1 <= i < |schema| ensures schema[i] == schema[1..][i - 1] { }
      }
      seq(|own|, j requires 0 <= j < |own| => Issue([key], own[j])) + rest
  }

  const NAME_SCHEMA := StringSchema([
    MinLength(2, NAME_TOO_SHORT_MSG),
    MaxLength(50, "El nombre no puede tener más de 50 caracteres."),
    Regex(NameChars, "El nombre solo puede contener letras y espacios.")])

  const SURNAME_SCHEMA := StringSchema([
    MinLength(2, NAME_TOO_SHORT_MSG),
    MaxLength(50, "El apellido no puede tener más de 50 caracteres."),
    Regex(NameChars, "El apellido solo puede contener letras y espacios.")])

  const PHONE_SCHEMA := StringSchema([Regex(PhoneDigits, INVALID_PHONE_MSG)])

  const TITLE_SCHEMA := StringSchema([
    MinLength(5, "El título debe tener al menos 5 caracteres."),
    MaxLength(100, "El título no puede tener más de 100 caracteres.")])

  const CONTENT_SCHEMA := StringSchema([
    MinLength(50, "El contenido debe tener al menos 50 caracteres."),
    MaxLength(10000, "El contenido no puede tener más de 10,000 caracteres.")])

  const DESCRIPTION_SCHEMA := StringSchema([
    MinLength(10, "La descripción debe tener al menos 10 caracteres."),
    MaxLength(1000, "La descripción no puede tener más de 1,000 caracteres.")])

  const DNI_IMAGE_SCHEMA := ImageSchema(5 * 1024 * 1024, "La imagen del DNI no puede superar los 5MB.")
  const BANNER_IMAGE_SCHEMA := ImageSchema(10 * 1024 * 1024, "La imagen banner no puede superar los 10MB.")
  const PORTAL_IMAGE_SCHEMA := ImageSchema(10 * 1024 * 1024, "La imagen no puede superar los 10MB.")

  const RELATO_SUBMISSION_SCHEMA: ObjectSchema := [
    ("name", NAME_SCHEMA), ("surname", SURNAME_SCHEMA), ("phone", PHONE_SCHEMA),
    ("title", TITLE_SCHEMA), ("content", CONTENT_SCHEMA),
    ("dni_image", DNI_IMAGE_SCHEMA), ("banner_image", BANNER_IMAGE_SCHEMA)]

  const PORTAL_MEMORIA_SUBMISSION_SCHEMA: ObjectSchema := [
    ("name", NAME_SCHEMA), ("surname", SURNAME_SCHEMA), ("phone", PHONE_SCHEMA),
    ("description", DESCRIPTION_SCHEMA),
    ("dni_image", DNI_IMAGE_SCHEMA), ("image", PORTAL_IMAGE_SCHEMA)]

  /** `validateRelatoSubmission`. */
  function ValidateRelatoSubmission(data: FormData): (issues: seq<Issue>)
    ensures issues == [] <==>
      forall i :: 0 <= i < |RELATO_SUBMISSION_SCHEMA| ==>
        FieldAccepted(RELATO_SUBMISSION_SCHEMA[i].1, Lookup(data, RELATO_SUBMISSION_SCHEMA[i].0))
  {
    SafeParse(RELATO_SUBMISSION_SCHEMA, data)
  }

  /** `validatePortalMemoriaSubmission`. */
  function ValidatePortalMemoriaSubmission(data: FormData): (issues: seq<Issue>)
    ensures issues == [] <==>
      forall i :: 0 <= i < |PORTAL_MEMORIA_SUBMISSION_SCHEMA| ==>
        FieldAccepted(PORTAL_MEMORIA_SUBMISSION_SCHEMA[i].1, Lookup(data, PORTAL_MEMORIA_SUBMISSION_SCHEMA[i].0))
  {
    SafeParse(PORTAL_MEMORIA_SUBMISSION_SCHEMA, data)
  }

  /** Name and surname: 2 to 50 characters, all name characters. */
  lemma PersonNameAccepted(s: string)
    ensures FieldAccepted(NAME_SCHEMA, Some(Str(s))) <==>
      2 <= |s| <= 50 && forall i :: 0 <= i < |s| ==> IsNameChar(s[i])
    ensures FieldAccepted(SURNAME_SCHEMA, Some(Str(s))) <==>
      2 <= |s| <= 50 && forall i :: 0 <= i < |s| ==> IsNameChar(s[i])
  {
    var n := NAME_SCHEMA.checks;
    var m := SURNAME_SCHEMA.checks;
    assert |n| == 3 && |m| == 3;
    assert n[0].Passes(s) <==> |s| >= 2;
    assert n[1].Passes(s) <==> |s| <= 50;
    assert n[2].Passes(s) <==> Matches(NameChars, s);
    assert m[0].Passes(s) <==> |s| >= 2;
    assert m[1].Passes(s) <==> |s| <= 50;
    assert m[2].Passes(s) <==> Matches(NameChars, s);
  }

  /** The phone's whitespace-removing transform. */
  function RemoveWhitespace(s: string): (r: string)
    ensures forall c :: c in r <==> c in s && !IsSpace(c)
  {
    Select(s, NotSpace)
  }

  /** The phone is accepted iff it is 10 to 15 ASCII digits, and then the
      transform leaves it as it is. */
  lemma PhoneAccepted(s: string)
    ensures FieldAccepted(PHONE_SCHEMA, Some(Str(s))) <==> 10 <= |s| <= 15 && AllDigits(s)
    ensures FieldAccepted(PHONE_SCHEMA, Some(Str(s))) ==> RemoveWhitespace(s) == s
  {
    if FieldAccepted(PHONE_SCHEMA, Some(Str(s))) {
      assert PHONE_SCHEMA.checks[0].Passes(s);
      SelectKeepsAll(s, NotSpace);
    }
  }

  /** The text bounds are inclusive at both ends. */
  lemma TextBoundsInclusive(s: string)
    ensures FieldAccepted(TITLE_SCHEMA, Some(Str(s))) <==> 5 <= |s| <= 100
    ensures FieldAccepted(CONTENT_SCHEMA, Some(Str(s))) <==> 50 <= |s| <= 10000
    ensures FieldAccepted(DESCRIPTION_SCHEMA, Some(Str(s))) <==> 10 <= |s| <= 1000
  {
    var t, c, d := TITLE_SCHEMA.checks, CONTENT_SCHEMA.checks, DESCRIPTION_SCHEMA.checks;
    assert |t| == 2 && |c| == 2 && |d| == 2;
    assert (t[0].Passes(s) <==> |s| >= 5) && (t[1].Passes(s) <==> |s| <= 100);
    assert (c[0].Passes(s) <==> |s| >= 50) && (c[1].Passes(s) <==> |s| <= 10000);
    assert (d[0].Passes(s) <==> |s| >= 10) && (d[1].Passes(s) <==> |s| <= 1000);
  }

  /** An image is accepted iff it is non-empty, of one of the four types and
      within its field's limit. */
  lemma ImageAccepted(f: File)
    ensures FieldAccepted(DNI_IMAGE_SCHEMA, Some(FileVal(f))) <==>
      f.size > 0 && f.mimeType in SCHEMA_IMAGE_TYPES && f.size <= MAX_DNI_IMAGE_SIZE
    ensures FieldAccepted(BANNER_IMAGE_SCHEMA, Some(FileVal(f))) <==>
      f.size > 0 && f.mimeType in SCHEMA_IMAGE_TYPES && f.size <= MAX_BANNER_IMAGE_SIZE
    ensures FieldAccepted(PORTAL_IMAGE_SCHEMA, Some(FileVal(f))) <==>
      f.size > 0 && f.mimeType in SCHEMA_IMAGE_TYPES && f.size <= MAX_PORTAL_IMAGE_SIZE
  {
  }

  // ---------------------------------------------------------------------
  // Error helpers

  /** The key an issue is filed under: its path joined with dots. */
  function FieldKey(issue: Issue): string { Join(issue.path, ".") }

  /** The error map after filing the issues in order, each overwriting the
      previous entry under its key. */
  function FormattedErrors(issues: seq<Issue>): map<string, string>
  {
    if issues == [] then map[]
    else FormattedErrors(issues[..|issues| - 1])[FieldKey(issues[|issues| - 1]) := issues[|issues| - 1].message]
  }

  /** `formatValidationErrors`: the loop filling the map. */
  method FormatValidationErrors(issues: seq<Issue>) returns (formatted: map<string, string>)
    ensures formatted == FormattedErrors(issues)
  {
    formatted := map[];
    var i := 0;
    while i < |issues|
      invariant 0 <= i <= |issues|
      invariant formatted == FormattedErrors(issues[..i])
    {
      assert issues[..i + 1][..i] == issues[..i];
      formatted := formatted[FieldKey(issues[i]) := issues[i].message];
      i := i + 1;
    }
    assert issues[..|issues|] == issues;
  }

  /** There is one entry per issue key, holding the message of the last issue under that key. */
  lemma {:induction false} FormattedErrorsLastWins(issues: seq<Issue>, k: string)
    ensures k in FormattedErrors(issues) <==> exists i :: 0 <= i < |issues| && FieldKey(issues[i]) == k
    ensures forall i :: 0 <= i < |issues| && FieldKey(issues[i]) == k
                        && (forall j :: i < j < |issues| ==> FieldKey(issues[j]) != k)
                        ==> FormattedErrors(issues)[k] == issues[i].message
  {
    if issues != [] {
      var init := issues[..|issues| - 1];
      FormattedErrorsLastWins(init, k);
      forall i | 0 <= i < |issues| - 1 ensures issues[i] == init[i] { }
      if FieldKey(issues[|issues| - 1]) != k {
        assert (exists i :: 0 <= i < |issues| && FieldKey(issues[i]) == k)
           ==> exists i :: 0 <= i < |init| && FieldKey(init[i]) == k;
      }
    }
  }

  predicate IsFieldIssue(issue: Issue, field: string) {
    |issue.path| == 1 && issue.path[0] == field
  }

  /** Index of the first issue whose path is exactly `[field]`. */
  function FindFieldIssue(issues: seq<Issue>, field: string): (r: Option<nat>)
    ensures r.Some? ==> r.value < |issues| && IsFieldIssue(issues[r.value], field)
    ensures r.Some? ==> forall j :: 0 <= j < r.value ==> !IsFieldIssue(issues[j], field)
    ensures r.None? ==> forall j :: 0 <= j < |issues| ==> !IsFieldIssue(issues[j], field)
  {
    if issues == [] then None
    else if IsFieldIssue(issues[0], field) then Some(0)
    else match FindFieldIssue(issues[1..], field)
      case None => None
      case Some(k) => Some(k + 1)
  }

  /** `getFieldError`: the message of the first issue filed exactly under `field`. */
  function GetFieldError(issues: seq<Issue>, field: string): (r: Option<string>)
    ensures r.Some? <==> exists j :: 0 <= j < |issues| && IsFieldIssue(issues[j], field)
    ensures r.Some? ==> exists j :: (0 <= j < |issues| && IsFieldIssue(issues[j], field)
      && issues[j].message == r.value && forall i :: 0 <= i < j ==> !IsFieldIssue(issues[i], field))
  {
    match FindFieldIssue(issues, field)
    case None => None
    case Some(j) => Some(issues[j].message)
  }

  /** `hasValidationErrors`. */
  function HasValidationErrors(issues: seq<Issue>): bool { |issues| > 0 }

  /** The keys of a schema, in order. */
  function Keys(schema: ObjectSchema): (r: seq<string>)
    ensures |r| == |schema| && forall i :: 0 <= i < |r| ==> r[i] == schema[i].0
  {
    seq(|schema|, i requires 0 <= i < |schema| => schema[i].0)
  }

  /** The messages of every field of a schema, in order. */
  function AllMessages(schema: ObjectSchema, data: FormData): (r: seq<seq<string>>)
    ensures |r| == |schema|
    ensures forall i :: 0 <= i < |r| ==> r[i] == FieldMessages(schema[i].1, Lookup(data, schema[i].0))
  {
    seq(|schema|, i requires 0 <= i < |schema| => FieldMessages(schema[i].1, Lookup(data, schema[i].0)))
  }

  /** Message lists laid end to end, each under its key. */
  function Blocks(keys: seq<string>, msgs: seq<seq<string>>): seq<Issue>
    requires |keys| == |msgs|
  {
    if keys == [] then [] else Block(keys[0], msgs[0]) + Blocks(keys[1..], msgs[1..])
  }

  /** How many messages the first `i` lists hold. */
  function Offset(msgs: seq<seq<string>>, i: nat): nat
    requires i <= |msgs|
  {
    if i == 0 then 0 else Offset(msgs, i - 1) + |msgs[i - 1]|
  }

  lemma {:induction false} OffsetOfTail(msgs: seq<seq<string>>, i: nat)
    requires 1 <= i <= |msgs|
    ensures Offset(msgs, i) == |msgs[0]| + Offset(msgs[1..], i - 1)
  {
    if i > 1 {
      OffsetOfTail(msgs, i - 1);
      assert msgs[i - 1] == msgs[1..][i - 2];
    }
  }

  lemma {:induction false} BlocksLength(keys: seq<string>, msgs: seq<seq<string>>)
    requires |keys| == |msgs|
    ensures |Blocks(keys, msgs)| == Offset(msgs, |msgs|)
  {
    if keys != [] {
      BlocksLength(keys[1..], msgs[1..]);
      OffsetOfTail(msgs, |msgs|);
    }
  }

  lemma {:induction false} BlocksLayout(keys: seq<string>, msgs: seq<seq<string>>, i: nat, j: nat)
    requires |keys| == |msgs| && i < |msgs| && j < |msgs[i]|
    ensures Offset(msgs, i) + j < |Blocks(keys, msgs)|
    ensures Blocks(keys, msgs)[Offset(msgs, i) + j] == Issue([keys[i]], msgs[i][j])
  {
    assert Blocks(keys, msgs) == Block(keys[0], msgs[0]) + Blocks(keys[1..], msgs[1..]);
    if i > 0 {
      OffsetOfTail(msgs, i);
      BlocksLayout(keys[1..], msgs[1..], i - 1, j);
      assert msgs[1..][i - 1] == msgs[i];
    }
  }

  lemma {:induction false} BlocksOwner(keys: seq<string>, msgs: seq<seq<string>>, k: nat)
    requires |keys| == |msgs| && k < |Blocks(keys, msgs)|
    ensures exists i :: 0 <= i < |msgs| && Blocks(keys, msgs)[k] == Issue([keys[i]], Blocks(keys, msgs)[k].message)
                        && Blocks(keys, msgs)[k].message in msgs[i]
  {
    var head, rest := Block(keys[0], msgs[0]), Blocks(keys[1..], msgs[1..]);
    assert Blocks(keys, msgs) == head + rest;
    if k < |head| {
      assert Blocks(keys, msgs)[k] == Issue([keys[0]], msgs[0][k]);
    } else {
      BlocksOwner(keys[1..], msgs[1..], k - |head|);
      var i :| 0 <= i < |msgs[1..]| && rest[k - |head|] == Issue([keys[1..][i]], rest[k - |head|].message)
               && rest[k - |head|].message in msgs[1..][i];
      assert Blocks(keys, msgs)[k] == rest[k - |head|];
      assert keys[1..][i] == keys[i + 1] && msgs[1..][i] == msgs[i + 1];
    }
  }

  /** `safeParse` lays the fields' messages end to end, each under its field's key. */
  lemma {:induction false} SafeParseIsBlocks(schema: ObjectSchema, data: FormData)
    ensures SafeParse(schema, data) == Blocks(Keys(schema), AllMessages(schema, data))
  {
    if schema != [] {
      SafeParseIsBlocks(schema[1..], data);
      assert Keys(schema)[1..] == Keys(schema[1..]);
      assert AllMessages(schema, data)[1..] == AllMessages(schema[1..], data);
    }
  }

  /** The issue list holds exactly as many issues as the fields have messages. */
  lemma SafeParseLength(schema: ObjectSchema, data: FormData)
    ensures |SafeParse(schema, data)| == Offset(AllMessages(schema, data), |schema|)
  {
    SafeParseIsBlocks(schema, data);
    BlocksLength(Keys(schema), AllMessages(schema, data));
  }

  /** The `j`-th message of the field at position `i` is the issue at
      `Offset(..., i) + j`, under that field's key: the issues come in
      schema order, field by field. */
  lemma SafeParseLayout(schema: ObjectSchema, data: FormData, i: nat, j: nat)
    requires i < |schema| && j < |FieldMessages(schema[i].1, Lookup(data, schema[i].0))|
    ensures Offset(AllMessages(schema, data), i) + j < |SafeParse(schema, data)|
    ensures SafeParse(schema, data)[Offset(AllMessages(schema, data), i) + j]
            == Issue([schema[i].0], FieldMessages(schema[i].1, Lookup(data, schema[i].0))[j])
  {
    var keys, msgs := Keys(schema), AllMessages(schema, data);
    assert keys[i] == schema[i].0 && msgs[i] == FieldMessages(schema[i].1, Lookup(data, schema[i].0));
    BlocksLayout(keys, msgs, i, j);
    var b := Blocks(keys, msgs);
    assert b[Offset(msgs, i) + j] == Issue([schema[i].0], msgs[i][j]);
    SafeParseIsBlocks(schema, data);
    assert SafeParse(schema, data) == b;
  }

  /** Every issue belongs to a field of the schema: it sits under that
      field's key and carries one of that field's messages. */
  lemma SafeParseIssueOwner(schema: ObjectSchema, data: FormData, k: nat)
    requires k < |SafeParse(schema, data)|
    ensures exists i :: && 0 <= i < |schema|
                        && SafeParse(schema, data)[k].path == [schema[i].0]
                        && SafeParse(schema, data)[k].message in FieldMessages(schema[i].1, Lookup(data, schema[i].0))
  {
    SafeParseIsBlocks(schema, data);
    BlocksOwner(Keys(schema), AllMessages(schema, data), k);
  }

  /** A parse has errors iff some field of the schema rejects its value. */
  lemma HasErrorsIffSomeFieldRejected(schema: ObjectSchema, data: FormData)
    ensures HasValidationErrors(SafeParse(schema, data)) <==>
      exists i :: 0 <= i < |schema| && !FieldAccepted(schema[i].1, Lookup(data, schema[i].0))
  {
  }

  // ---------------------------------------------------------------------
  // Sanitisers

  predicate NotSpace(c: char) { !IsSpace(c) }

  predicate NotBracket(c: char) { c != '<' && c != '>' }

  /** Filtering out spaces skips a leading run of spaces. */
  lemma {:induction false} FilterSkipsSpaces(s: string, k: nat)
    requires k <= |s|
    requires forall i :: 0 <= i < k ==> IsSpace(s[i])
    ensures Select(s, NotSpace) == Select(s[k..], NotSpace)
  {
    if k > 0 {
      FilterSkipsSpaces(s[1..], k - 1);
      assert s[1..][k - 1..] == s[k..];
    }
  }

  /** `replace(/\s+/g, ' ')`: every maximal run of whitespace becomes one space. */
  function Collapse(s: string): (r: string)
    ensures (r == []) == (s == [])
    ensures r != [] ==> (IsSpace(r[0]) <==> IsSpace(s[0]))
    ensures forall i :: 0 <= i < |r| && IsSpace(r[i]) ==> r[i] == ' '
    ensures forall i :: 0 <= i < |r| - 1 ==> !(IsSpace(r[i]) && IsSpace(r[i + 1]))
    ensures forall c :: c in r ==> c in s || c == ' '
    decreases |s|
  {
    if s == [] then []
    else if IsSpace(s[0]) then
      var k := LeadingSpaces(s);
      var rest := Collapse(s[k..]);
      assert rest != [] ==> !IsSpace(rest[0]);
      [' '] + rest
    else
      var rest := Collapse(s[1..]);
      [s[0]] + rest
  }

  /** Collapsing keeps the non-space characters, in order. */
  lemma {:induction false} CollapseKeepsText(s: string)
    ensures Select(Collapse(s), NotSpace) == Select(s, NotSpace)
    decreases |s|
  {
    if s != [] {
      if IsSpace(s[0]) {
        var k := LeadingSpaces(s);
        CollapseKeepsText(s[k..]);
        FilterSkipsSpaces(s, k);
        assert Collapse(s)[1..] == Collapse(s[k..]);
      } else {
        CollapseKeepsText(s[1..]);
        assert Collapse(s)[1..] == Collapse(s[1..]);
      }
    }
  }

  predicate AllSpace(w: string) { forall i :: 0 <= i < |w| ==> IsSpace(w[i]) }

  /** The leading whitespace run is pinned down by where it ends. */
  lemma LeadingSpacesAt(s: string, k: nat)
    requires k <= |s| && (forall i :: 0 <= i < k ==> IsSpace(s[i]))
    requires k < |s| ==> !IsSpace(s[k])
    ensures LeadingSpaces(s) == k
  {
  }

  /** A non-empty whitespace run collapses to one space. */
  lemma CollapseRun(w: string)
    requires w != [] && AllSpace(w)
    ensures Collapse(w) == " "
  {
    LeadingSpacesAt(w, |w|);
    assert w[|w|..] == [];
  }

  /** Text without whitespace is left as it is. */
  lemma {:induction false} CollapseNoSpace(s: string)
    requires forall i :: 0 <= i < |s| ==> !IsSpace(s[i])
    ensures Collapse(s) == s
    decreases |s|
  {
    if s != [] {
      CollapseNoSpace(s[1..]);
    }
  }

  /** Collapsing works piece by piece when the cut does not split a
      whitespace run. */
  lemma {:induction false} CollapseConcat(x: string, y: string)
    requires x == [] || y == [] || !IsSpace(x[|x| - 1]) || !IsSpace(y[0])
    ensures Collapse(x + y) == Collapse(x) + Collapse(y)
    decreases |x|
  {
    if x == [] {
      assert x + y == y;
    } else if y == [] {
      assert x + y == x;
    } else if IsSpace(x[0]) {
      var k := LeadingSpaces(x);
      var xy := x + y;
      if k == |x| {
        LeadingSpacesAt(xy, |x|);
        assert xy[|x|..] == y;
        assert x[k..] == [];
      } else {
        LeadingSpacesAt(xy, k);
        assert xy[k..] == x[k..] + y;
        CollapseConcat(x[k..], y);
      }
    } else {
      assert (x + y)[1..] == x[1..] + y;
      CollapseConcat(x[1..], y);
    }
  }

  /** Every maximal whitespace run becomes a single space: between text that
      does not end and text that does not start with whitespace, a run of any
      length collapses to `" "`, and each side collapses on its own. */
  lemma CollapseRunBetween(a: string, w: string, b: string)
    requires a == [] || !IsSpace(a[|a| - 1])
    requires w != [] && AllSpace(w)
    requires b == [] || !IsSpace(b[0])
    ensures Collapse(a + w + b) == Collapse(a) + " " + Collapse(b)
  {
    CollapseRun(w);
    CollapseConcat(a, w);
    CollapseConcat(a + w, b);
  }

  /** `sanitizeString`: trim, drop angle brackets, collapse whitespace runs. */
  function SanitizeString(input: string): (r: string)
    ensures forall i :: 0 <= i < |r| ==> r[i] != '<' && r[i] != '>'
    ensures forall i :: 0 <= i < |r| && IsSpace(r[i]) ==> r[i] == ' '
    ensures forall i :: 0 <= i < |r| - 1 ==> !(r[i] == ' ' && r[i + 1] == ' ')
  {
    var r := Collapse(Select(Trim(input), NotBracket));
    assert forall i :: 0 <= i < |r| ==> r[i] in r;
    r
  }

  /** Sanitising keeps every character that is neither whitespace nor an
      angle bracket, in order. */
  lemma SanitizeStringKeepsText(input: string)
    ensures Select(SanitizeString(input), NotSpace) == Select(Select(Trim(input), NotBracket), NotSpace)
  {
    CollapseKeepsText(Select(Trim(input), NotBracket));
  }

  /** Trimming runs before the brackets go, so the result can still end in a space. */
  lemma SanitizeStringNotTrimmed()
    ensures SanitizeString("a <") == "a "
  {
    var t := Trim("a <");
    assert LeadingSpaces("a <") == 0;
    assert TrailingStart("a <") == 3;
    assert t == "a <";
    assert Select("<", NotBracket) == [];
    assert Select(" <", NotBracket) == " ";
    assert Select(t, NotBracket) == "a ";
    assert LeadingSpaces(" ") == 1;
    assert Collapse(" ") == " ";
    assert Collapse("a ") == "a ";
  }

  /** How many ASCII digits `s` holds. */
  function DigitCount(s: string): nat
    decreases |s|
  {
    if s == [] then 0 else (if IsDigit(s[0]) then 1 else 0) + DigitCount(s[1..])
  }

  /** `sanitizePhone`: keep only the ASCII digits, every one of them. */
  function SanitizePhone(phone: string): (r: string)
    ensures AllDigits(r)
    ensures |r| == DigitCount(phone)
    ensures forall c :: IsDigit(c) ==> (c in r <==> c in phone)
  {
    var r := Select(phone, IsDigit);
    assert forall i :: 0 <= i < |r| ==> r[i] in r;
    DigitsKept(phone);
    r
  }

  lemma {:induction false} DigitsKept(s: string)
    ensures |Select(s, IsDigit)| == DigitCount(s)
    decreases |s|
  {
    if s != [] {
      DigitsKept(s[1..]);
    }
  }

  /** Sanitising a phone keeps its digits in their original order; doing it
      twice is doing it once, and a phone of digits only is left as it is. */
  lemma SanitizePhoneIdempotent(phone: string)
    ensures IsSubsequence(SanitizePhone(phone), phone)
    ensures forall d :: IsDigit(d) ==> multiset(SanitizePhone(phone))[d] == multiset(phone)[d]
    ensures SanitizePhone(SanitizePhone(phone)) == SanitizePhone(phone)
    ensures AllDigits(phone) ==> SanitizePhone(phone) == phone
  {
    forall d | IsDigit(d) ensures multiset(SanitizePhone(phone))[d] == multiset(phone)[d] {
      SelectCount(phone, IsDigit, d);
    }
    SelectIsSubsequence(phone, IsDigit);
    SelectIdempotent(phone, IsDigit);
    if AllDigits(phone) {
      SelectKeepsAll(phone, IsDigit);
    }
  }

  /** What `sanitizeFormData` does to one entry. */
  function SanitizedValue(key: string, v: FieldValue): (r: FieldValue)
    ensures !v.Str? ==> r == v
    ensures v.Str? && key == "phone" ==> r == Str(SanitizePhone(v.s))
    ensures v.Str? && key != "phone" ==> r == Str(SanitizeString(v.s))
  {
    match v
    case Str(s) => Str(if key == "phone" then SanitizePhone(s) else SanitizeString(s))
    case _ => v
  }

  /** `sanitizeFormData`: a copy of the record with each string entry
      sanitised, key by key. */
  method SanitizeFormData(data: FormData) returns (sanitized: FormData)
    ensures sanitized.Keys == data.Keys
    ensures forall k :: k in data ==> sanitized[k] == SanitizedValue(k, data[k])
  {
    sanitized := data;
    var keys := data.Keys;
    while keys != {}
      invariant keys <= data.Keys
      invariant sanitized.Keys == data.Keys
      invariant forall k :: k in data && k !in keys ==> sanitized[k] == SanitizedValue(k, data[k])
      invariant forall k :: k in keys ==> sanitized[k] == data[k]
      decreases keys
    {
      var key :| key in keys;
      if sanitized[key].Str? {
        if key == "phone" {
          sanitized := sanitized[key := Str(SanitizePhone(sanitized[key].s))];
        } else {
          sanitized := sanitized[key := Str(SanitizeString(sanitized[key].s))];
        }
      }
      keys := keys - {key};
    }
  }
}
