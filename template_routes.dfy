/** The template endpoints of src/routes/templates.ts: lookup by id, the
    customization of a default template, the upload of a custom template or
    a logo, and the settings of a default template. Writing an uploaded file
    is a parameter: the path it was saved under, or the error it threw. */
module TemplateRoutes {
  import opened Wrappers
  import opened Bytes
  import opened Constants
  import opened Strings
  import opened JsValues
  import opened Store
  import opened TemplateService
  import Validation

  const NO_FILE: string := "No file uploaded"
  const TEMPLATE_NOT_FOUND: string := "Template not found"
  const BASE_REQUIRED: string := "Base template ID is required"
  const CUSTOMIZE_FAILED: string := "Template customization failed"
  const CUSTOM_FAILED: string := "Custom template creation failed"
  const LOGO_FAILED: string := "Logo upload failed"
  /** What the store answers when a number that is not an integer is
      written to an integer column. */
  const INTEGER_SYNTAX: string := "invalid input syntax for type integer"

  /** Logos may be at most 5 MiB; template images keep the 10 MiB default. */
  const LOGO_MAX_SIZE: int := 5 * 1024 * 1024

  /** The fallbacks of a custom upload's position fields. */
  const UPLOAD_TEXT_X: int := 512
  const UPLOAD_TEXT_Y: int := 400

  datatype TemplateReply =
    | Created(template: Template)                                // 201
    | Rejected(status: int, error: string, message: Option<string>)

  // ---------------------------------------------------------------------
  // GET /templates/:id and the settings of a default template

  datatype LookupReply<T> = Found(value: T) | Missing(status: int, error: string)

  function TemplateById(db: Database, id: string): (r: LookupReply<TemplateWithDefault>)
    reads db
    ensures r.Missing? <==> GetTemplateById(db, id).None?
    ensures r.Missing? ==> r == Missing(404, TEMPLATE_NOT_FOUND)
    ensures r.Found? ==> r.value == GetTemplateById(db, id).value
  {
    match GetTemplateById(db, id)
    case None => Missing(404, TEMPLATE_NOT_FOUND)
    case Some(t) => Found(t)
  }

  /** `GET /templates/defaults/:id/settings`: 404 for an unknown or
      inactive default template, its settings otherwise. */
  function DefaultTemplateSettings(db: Database, id: string): (r: LookupReply<DefaultSettings>)
    reads db
    requires db.Valid()
    ensures r.Missing? <==> db.FindDefaultTemplateById(id).None?
    ensures r.Missing? ==> r == Missing(404, DEFAULT_TEMPLATE_NOT_FOUND)
    ensures r.Found? ==> r.value == GetDefaultSettings(db.FindDefaultTemplateById(id).value)
  {
    match db.FindDefaultTemplateById(id)
    case None => Missing(404, DEFAULT_TEMPLATE_NOT_FOUND)
    case Some(d) => Found(GetDefaultSettings(d))
  }

  // ---------------------------------------------------------------------
  // POST /templates/customize/default

  /** What `validateTemplateCustomization` lets through: the three text
      fields are strings and the three numeric fields are present. */
  predicate CustomizationValidated(body: map<string, Json>) {
    && Field(body, "primary_color").JString? && Field(body, "font_color").JString?
    && Field(body, "font_family").JString?
    && !Validation.IsMissing(Field(body, "font_size"))
    && !Validation.IsMissing(Field(body, "text_x_position"))
    && !Validation.IsMissing(Field(body, "text_y_position"))
  }

  /** A required rule that passed saw a value. */
  lemma PassedRequiredRule(rule: Validation.Rule, v: Json)
    requires rule.required && Validation.RuleErrors(rule, v) == []
    ensures !Validation.IsMissing(v)
  {
  }

  /** A required string rule that passed saw a string. */
  lemma PassedStringRule(rule: Validation.Rule, v: Json)
    requires rule.required && rule.ruleType == Some(Validation.TString) && Validation.RuleErrors(rule, v) == []
    ensures v.JString?
  {
  }

  /** When a rule set passes, each of its rules passes. */
  lemma NoErrorsAt(rules: seq<Validation.Rule>, body: map<string, Json>, i: nat)
    requires Validation.AllErrors(rules, body) == [] && i < |rules|
    ensures Validation.RuleErrors(rules[i], Field(body, rules[i].field)) == []
  {
    Validation.NoErrorsIffAllPass(rules, body);
  }

  /** A body the validation middleware accepts is one the handler can read. */
  lemma AcceptedBodyIsValidated(body: map<string, Json>)
    requires Validation.AllErrors(Validation.TemplateCustomizationRules(), body) == []
    ensures CustomizationValidated(body)
  {
    var rules := Validation.TemplateCustomizationRules();
    NoErrorsAt(rules, body, 0);
    NoErrorsAt(rules, body, 1);
    NoErrorsAt(rules, body, 2);
    NoErrorsAt(rules, body, 3);
    NoErrorsAt(rules, body, 4);
    NoErrorsAt(rules, body, 5);
    assert rules[0].field == "primary_color" && rules[1].field == "font_color" && rules[2].field == "font_family";
    assert rules[3].field == "font_size" && rules[4].field == "text_x_position" && rules[5].field == "text_y_position";
    PassedStringRule(rules[0], Field(body, "primary_color"));
    PassedStringRule(rules[1], Field(body, "font_color"));
    PassedStringRule(rules[2], Field(body, "font_family"));
    PassedRequiredRule(rules[3], Field(body, "font_size"));
    PassedRequiredRule(rules[4], Field(body, "text_x_position"));
    PassedRequiredRule(rules[5], Field(body, "text_y_position"));
  }

  /** The integer a `Number(...)` result stands for, when it is one. */
  function AsInteger(n: JsNumber): (r: Option<int>)
    ensures r.Some? <==> n.Finite? && n.value == n.value.Floor as real
    ensures r.Some? ==> r.value as real == n.value
  {
    if n.Finite? && n.value == n.value.Floor as real then Some(n.value.Floor) else None
  }

  /** The three `Number(...)` conversions, when all are integers. */
  function NumericFields(body: map<string, Json>): (r: Option<(int, int, int)>)
    ensures r.Some? <==> && AsInteger(ToNumber(Field(body, "font_size"))).Some?
                         && AsInteger(ToNumber(Field(body, "text_x_position"))).Some?
                         && AsInteger(ToNumber(Field(body, "text_y_position"))).Some?
    ensures r.Some? ==> r.value == (AsInteger(ToNumber(Field(body, "font_size"))).value,
                                    AsInteger(ToNumber(Field(body, "text_x_position"))).value,
                                    AsInteger(ToNumber(Field(body, "text_y_position"))).value)
  {
    var size := AsInteger(ToNumber(Field(body, "font_size")));
    var x := AsInteger(ToNumber(Field(body, "text_x_position")));
    var y := AsInteger(ToNumber(Field(body, "text_y_position")));
    if size.Some? && x.Some? && y.Some? then Some((size.value, x.value, y.value)) else None
  }

  /** The id in `baseTemplateId`; a value that is not a string matches no
      default template. */
  function BaseTemplateId(body: map<string, Json>): string {
    var v := Field(body, "baseTemplateId");
    if v.JString? then v.s else ""
  }

  /** The customization route, after the validation middleware. `id` and
      `now` are the identifier and the time the store assigns. */
  method CustomizeFromDefault(db: Database, userId: string, body: map<string, Json>, id: string, now: int)
    returns (reply: TemplateReply)
    requires db.Valid() && CustomizationValidated(body)
    modifies db`templates
    ensures db.Valid()
    ensures !JsonTruthy(Field(body, "baseTemplateId")) ==> reply == Rejected(400, BASE_REQUIRED, None)
    ensures reply.Created? <==>
      && JsonTruthy(Field(body, "baseTemplateId"))
      && old(db.FindDefaultTemplateById(BaseTemplateId(body))).Some?
      && NumericFields(body).Some?
      && !HasKey(old(db.templates), TemplateKey, id)
    ensures JsonTruthy(Field(body, "baseTemplateId")) && old(db.FindDefaultTemplateById(BaseTemplateId(body))).None? ==>
      reply == Rejected(400, CUSTOMIZE_FAILED, Some(DEFAULT_TEMPLATE_NOT_FOUND))
    ensures reply.Rejected? ==> reply.status == 400 && db.templates == old(db.templates)
    ensures reply.Created? ==>
      && db.templates == old(db.templates) + [reply.template]
      && reply.template.id == id && reply.template.userId == userId
      && reply.template.templateType == DefaultType
      && reply.template.defaultTemplateId == Some(BaseTemplateId(body))
      && reply.template.primaryColor == Field(body, "primary_color").s
      && reply.template.fontColor == Field(body, "font_color").s
      && reply.template.fontFamily == Field(body, "font_family").s
      && (reply.template.fontSize, reply.template.textX, reply.template.textY) == NumericFields(body).value
  {
    if !JsonTruthy(Field(body, "baseTemplateId")) {
      return Rejected(400, BASE_REQUIRED, None);
    }
    var defaultId := BaseTemplateId(body);
    if db.FindDefaultTemplateById(defaultId).None? {
      return Rejected(400, CUSTOMIZE_FAILED, Some(DEFAULT_TEMPLATE_NOT_FOUND));
    }
    var numbers := NumericFields(body);
    if numbers.None? {
      return Rejected(400, CUSTOMIZE_FAILED, Some(INTEGER_SYNTAX));
    }
    var (size, x, y) := numbers.value;
    var c := TemplateCustomization(None, Field(body, "primary_color").s, x, y, size,
                                   Field(body, "font_color").s, Field(body, "font_family").s);
    var r := CreateTemplateFromDefault(db, userId, defaultId, c, id, now);
    match r
    case Failure(e) => reply := Rejected(400, CUSTOMIZE_FAILED, Some(e));
    case Success(t) => reply := Created(t);
  }

  // ---------------------------------------------------------------------
  // POST /templates/customize/custom and /templates/upload-logo

  /** A multipart upload: the client's file name, the bytes, and the
      `value` of each other form field. */
  datatype Upload = Upload(filename: string, data: Bytes, fields: map<string, string>)

  function FormField(u: Upload, name: string): (r: Option<string>)
    ensures r.Some? <==> name in u.fields
  {
    if name in u.fields then Some(u.fields[name]) else None
  }

  /** The customization of a custom upload: a missing or empty text field
      takes its default, and a position or size that is missing, unparsable
      or zero takes 512, 400 or the default font size. */
  function UploadCustomization(u: Upload): (c: TemplateCustomization)
    ensures c.logo.None?
    ensures c.primaryColor == OrElse(FormField(u, "primary_color"), DEFAULT_PRIMARY_COLOR)
    ensures c.fontColor == OrElse(FormField(u, "font_color"), DEFAULT_FONT_COLOR)
    ensures c.fontFamily == OrElse(FormField(u, "font_family"), DEFAULT_FONT_FAMILY)
    ensures c.textX == ParseIntOr(FormField(u, "text_x_position"), UPLOAD_TEXT_X)
    ensures c.textY == ParseIntOr(FormField(u, "text_y_position"), UPLOAD_TEXT_Y)
    ensures c.fontSize == ParseIntOr(FormField(u, "font_size"), DEFAULT_FONT_SIZE)
    ensures c.textX != 0 && c.textY != 0 && c.fontSize != 0
  {
    TemplateCustomization(
      None,
      OrElse(FormField(u, "primary_color"), DEFAULT_PRIMARY_COLOR),
      ParseIntOr(FormField(u, "text_x_position"), UPLOAD_TEXT_X),
      ParseIntOr(FormField(u, "text_y_position"), UPLOAD_TEXT_Y),
      ParseIntOr(FormField(u, "font_size"), DEFAULT_FONT_SIZE),
      OrElse(FormField(u, "font_color"), DEFAULT_FONT_COLOR),
      OrElse(FormField(u, "font_family"), DEFAULT_FONT_FAMILY))
  }

  /** A position typed as 0 is not kept: it becomes the fallback. */
  lemma ZeroPositionFallsBack(u: Upload)
    requires FormField(u, "text_x_position") == Some("0")
    ensures UploadCustomization(u).textX == UPLOAD_TEXT_X
  {
    ParseIntOfDecimal(0);
    assert NatToString(0) == "0";
  }

  /** A typed positive number is kept. */
  lemma TypedPositionKept(u: Upload, n: nat)
    requires n > 0 && FormField(u, "text_x_position") == Some(NatToString(n))
    ensures UploadCustomization(u).textX == n
  {
    ParseIntOfDecimal(n);
  }

  /** The custom-template route. `save` is what saving the file under
      uploads/templates returned. */
  method UploadCustomTemplate(db: Database, userId: string, file: Option<Upload>, save: Result<string>,
                              id: string, now: int)
    returns (reply: TemplateReply)
    requires db.Valid()
    modifies db`templates
    ensures db.Valid()
    ensures file.None? ==> reply == Rejected(400, NO_FILE, None)
    ensures file.Some? && ValidateImageFile(file.value.data, DEFAULT_MAX_IMAGE_SIZE).Failure? ==>
      reply == Rejected(400, CUSTOM_FAILED, Some(ValidateImageFile(file.value.data, DEFAULT_MAX_IMAGE_SIZE).error))
    ensures reply.Created? <==>
      && file.Some? && ValidateImageFile(file.value.data, DEFAULT_MAX_IMAGE_SIZE).Success?
      && save.Success? && !HasKey(old(db.templates), TemplateKey, id)
    ensures reply.Rejected? ==> reply.status == 400 && db.templates == old(db.templates)
    ensures reply.Created? ==>
      && db.templates == old(db.templates) + [reply.template]
      && reply.template.id == id && reply.template.userId == userId
      && reply.template.templateType == CustomType
      && reply.template.customImagePath == Some(save.value)
      && CarriesCustomization(reply.template, UploadCustomization(file.value))
  {
    if file.None? {
      return Rejected(400, NO_FILE, None);
    }
    var u := file.value;
    var valid := ValidateImageFile(u.data, DEFAULT_MAX_IMAGE_SIZE);
    if valid.Failure? {
      return Rejected(400, CUSTOM_FAILED, Some(valid.error));
    }
    if save.Failure? {
      return Rejected(400, CUSTOM_FAILED, Some(save.error));
    }
    var r := CreateCustomTemplate(db, userId, save.value, UploadCustomization(u), id, now);
    match r
    case Failure(e) => reply := Rejected(400, CUSTOM_FAILED, Some(e));
    case Success(t) => reply := Created(t);
  }

  datatype LogoReply = LogoSaved(logoPath: string) | LogoRejected(status: int, error: string, message: Option<string>)

  /** The logo route: the same checks with the 5 MiB cap. */
  function UploadLogo(file: Option<Upload>, save: Result<string>): (r: LogoReply)
    ensures file.None? ==> r == LogoRejected(400, NO_FILE, None)
    ensures r.LogoSaved? <==> file.Some? && ValidateImageFile(file.value.data, LOGO_MAX_SIZE).Success? && save.Success?
    ensures r.LogoSaved? ==> r.logoPath == save.value
    ensures file.Some? && ValidateImageFile(file.value.data, LOGO_MAX_SIZE).Failure? ==>
      r == LogoRejected(400, LOGO_FAILED, Some(ValidateImageFile(file.value.data, LOGO_MAX_SIZE).error))
  {
    if file.None? then LogoRejected(400, NO_FILE, None)
    else
      var valid := ValidateImageFile(file.value.data, LOGO_MAX_SIZE);
      if valid.Failure? then LogoRejected(400, LOGO_FAILED, Some(valid.error))
      else match save
        case Failure(e) => LogoRejected(400, LOGO_FAILED, Some(e))
        case Success(p) => LogoSaved(p)
  }

  /** An image over 5 MiB but within 10 MiB is refused as a logo for its
      size, though the same bytes pass as a template image. */
  lemma LogoCapIsStricter(data: Bytes)
    requires LOGO_MAX_SIZE < |data| <= DEFAULT_MAX_IMAGE_SIZE
    requires exists i :: 0 <= i < |IMAGE_SIGNATURES| && StartsWithBytes(data, IMAGE_SIGNATURES[i])
    ensures ValidateImageFile(data, LOGO_MAX_SIZE) == Failure(FILE_TOO_LARGE)
    ensures ValidateImageFile(data, DEFAULT_MAX_IMAGE_SIZE) == Success(true)
  {
  }
}
