/** Template resolution and upload checks of src/services/templateService.ts.
    The working directory is a parameter; `path.join` is modelled as joining
    with '/', without normalisation. */
module TemplateService {
  import opened Wrappers
  import opened Bytes
  import opened Strings
  import opened Constants
  import opened JsValues
  import opened Store

  const DEFAULT_TEMPLATE_NOT_FOUND: string := "Default template not found"
  const IMAGE_PATH_NOT_FOUND: string := "Template image path not found"
  const FILE_TOO_LARGE: string := "File size exceeds maximum allowed limit"
  const INVALID_IMAGE: string := "Invalid image file format. Only JPEG, PNG, GIF, and BMP are allowed."

  /** The default upper bound of `validateImageFile`: 10 MiB. */
  const DEFAULT_MAX_IMAGE_SIZE: int := 10 * 1024 * 1024

  /** Leading bytes of JPEG, PNG, GIF and BMP files, in the order checked. */
  const IMAGE_SIGNATURES: seq<Bytes> := [[0xFF, 0xD8, 0xFF], [0x89, 0x50, 0x4E, 0x47], [0x47, 0x49, 0x46], [0x42, 0x4D]]

  /** A template together with the default template it was derived from. */
  datatype TemplateWithDefault = TemplateWithDefault(template: Template, defaultTemplate: Option<DefaultTemplate>)

  /** The user's choices when creating a template. */
  datatype TemplateCustomization = TemplateCustomization(
    logo: Option<string>, primaryColor: string, textX: int, textY: int, fontSize: int,
    fontColor: string, fontFamily: string)

  /** What the LEFT JOIN guarantees: a joined name comes with the template's
      default id and the joined base image path. */
  predicate JoinedConsistently(row: TemplateRow) {
    row.defaultTemplateName.Some? ==> row.template.defaultTemplateId.Some? && row.defaultBaseImagePath.Some?
  }

  /** The mapping in `getTemplateById` / `getUserTemplates`: a default
      template is attached exactly when the joined name is truthy, and its
      text, font and colour fields are copied from the template itself. */
  function WithDefault(row: TemplateRow): (r: TemplateWithDefault)
    requires JoinedConsistently(row)
    ensures r.template == row.template
    ensures r.defaultTemplate.Some? <==> Truthy(row.defaultTemplateName)
    ensures r.defaultTemplate.Some? ==>
      var d := r.defaultTemplate.value;
      && Some(d.id) == row.template.defaultTemplateId
      && Some(d.name) == row.defaultTemplateName
      && Some(d.baseImagePath) == row.defaultBaseImagePath
      && d.previewImagePath == "" && d.isActive
      && d.defaultTextX == row.template.textX && d.defaultTextY == row.template.textY
      && d.defaultFontSize == row.template.fontSize && d.defaultFontColor == row.template.fontColor
      && d.defaultPrimaryColor == row.template.primaryColor
  {
    var t := row.template;
    if Truthy(row.defaultTemplateName) then
      TemplateWithDefault(t, Some(DefaultTemplate(t.defaultTemplateId.value, row.defaultTemplateName.value, "",
        row.defaultBaseImagePath.value, t.textX, t.textY, t.fontSize, t.fontColor, t.primaryColor, true)))
    else TemplateWithDefault(t, None)
  }

  /** `getTemplateById`. */
  function GetTemplateById(db: Database, id: string): (r: Option<TemplateWithDefault>)
    reads db
    ensures r.None? <==> !HasKey(db.templates, TemplateKey, id)
    ensures r.Some? ==> r.value.template in db.templates && r.value.template.id == id
  {
    match db.FindTemplateById(id)
    case None => None
    case Some(row) => Some(WithDefault(row))
  }

  /** `getUserTemplates`: the user's templates, newest first, each mapped. */
  function GetUserTemplates(db: Database, userId: string): (r: seq<TemplateWithDefault>)
    reads db
    ensures |r| == |TemplatesOfUser(db.templates, userId)|
    ensures forall i :: 0 <= i < |r| ==> r[i].template in db.templates && r[i].template.userId == userId
    ensures forall t :: t in db.templates && t.userId == userId ==> exists i :: 0 <= i < |r| && r[i].template == t
    ensures forall i :: 0 <= i < |r| ==> r[i] == WithDefault(db.TemplatesByUserId(userId)[i])
  {
    var rows := db.TemplatesByUserId(userId);
    var r := MapWithDefault(rows);
    assert forall t :: t in db.templates && t.userId == userId ==> exists i :: 0 <= i < |r| && r[i].template == t by {
      forall t | t in db.templates && t.userId == userId
        ensures exists i :: 0 <= i < |r| && r[i].template == t
      {
        var i :| 0 <= i < |rows| && rows[i].template == t;
        assert r[i].template == t;
      }
    }
    r
  }

  /** Each joined row mapped in place. */
  function MapWithDefault(rows: seq<TemplateRow>): (r: seq<TemplateWithDefault>)
    requires forall i :: 0 <= i < |rows| ==> JoinedConsistently(rows[i])
    ensures |r| == |rows|
    ensures forall i :: 0 <= i < |r| ==> r[i] == WithDefault(rows[i])
  {
    seq(|rows|, i requires 0 <= i < |rows| => WithDefault(rows[i]))
  }

  /** The image a template is drawn on: a custom template's own image when it
      has one, else the default template's base image. */
  function ChooseImagePath(t: TemplateWithDefault): (r: Result<string>)
    ensures t.template.templateType == CustomType && Truthy(t.template.customImagePath) ==>
              r == Success(t.template.customImagePath.value)
    ensures !(t.template.templateType == CustomType && Truthy(t.template.customImagePath)) ==>
              if t.defaultTemplate.Some? && t.defaultTemplate.value.baseImagePath != "" then
                r == Success(t.defaultTemplate.value.baseImagePath)
              else r == Failure(IMAGE_PATH_NOT_FOUND)
  {
    if t.template.templateType == CustomType && Truthy(t.template.customImagePath) then
      Success(t.template.customImagePath.value)
    else if t.defaultTemplate.Some? && t.defaultTemplate.value.baseImagePath != "" then
      Success(t.defaultTemplate.value.baseImagePath)
    else Failure(IMAGE_PATH_NOT_FOUND)
  }

  const PUBLIC_PREFIX: string := "/public/"

  /** A web path under '/public/' becomes a file under the working directory;
      every other path is kept as it is. */
  function ToFileSystemPath(p: string, cwd: string): (r: string)
    ensures !StartsWith(p, PUBLIC_PREFIX) ==> r == p
    ensures StartsWith(p, PUBLIC_PREFIX) ==>
              StartsWith(r, cwd + "/") && r[|cwd| + 1..] == p[1..] && StartsWith(r[|cwd| + 1..], "public/")
  {
    if StartsWith(p, PUBLIC_PREFIX) then
      var r := cwd + "/" + p[1..];
      assert r[..|cwd + "/"|] == cwd + "/";
      assert r[|cwd| + 1..] == p[1..];
      assert p[1..][..7] == "public/" by {
        assert p[..8] == PUBLIC_PREFIX;
        assert p[1..][..7] == p[..8][1..];
        assert PUBLIC_PREFIX[1..] == "public/";
      }
      r
    else p
  }

  /** Converting a converted path again changes nothing, as long as the
      working directory itself is not under '/public/'. */
  lemma ToFileSystemPathStable(p: string, cwd: string)
    requires !StartsWith(cwd + "/", PUBLIC_PREFIX)
    ensures ToFileSystemPath(ToFileSystemPath(p, cwd), cwd) == ToFileSystemPath(p, cwd)
  {
    if StartsWith(p, PUBLIC_PREFIX) {
      var r := ToFileSystemPath(p, cwd);
      if StartsWith(r, PUBLIC_PREFIX) {
        if |cwd + "/"| >= |PUBLIC_PREFIX| {
          assert false;
        }
        // The working directory is empty: `r` is `p` itself.
        assert (cwd + "/")[|cwd|] == r[|cwd|] == PUBLIC_PREFIX[|cwd|];
        assert |cwd| == 0;
        assert r[1..] == p[1..];
      }
    }
  }

  /** `getTemplateImagePath`. */
  function GetTemplateImagePath(t: TemplateWithDefault, cwd: string): (r: Result<string>)
    ensures r.Failure? <==> ChooseImagePath(t).Failure?
    ensures r.Failure? ==> r.error == IMAGE_PATH_NOT_FOUND
    ensures r.Success? ==> r.value == ToFileSystemPath(ChooseImagePath(t).value, cwd)
  {
    match ChooseImagePath(t)
    case Failure(e) => Failure(e)
    case Success(p) => Success(ToFileSystemPath(p, cwd))
  }

  /** `signature.every((byte, index) => buf[index] === byte)`: reading past
      the end of the buffer yields undefined, which equals no byte. */
  function EveryByteMatches(buf: Bytes, signature: Bytes): (b: bool)
    ensures b <==> |signature| <= |buf| && buf[..|signature|] == signature
  {
    if signature == [] then true
    else if buf == [] then false
    else
      var r := buf[0] == signature[0] && EveryByteMatches(buf[1..], signature[1..]);
      assert |signature| <= |buf| ==> buf[..|signature|] == [buf[0]] + buf[1..][..|signature| - 1];
      r
  }

  /** `imageSignatures.some(...)`. */
  function SomeSignatureMatches(buf: Bytes, signatures: seq<Bytes>): (b: bool)
    ensures b <==> exists i :: 0 <= i < |signatures| && EveryByteMatches(buf, signatures[i])
  {
    if signatures == [] then false
    else EveryByteMatches(buf, signatures[0]) || SomeSignatureMatches(buf, signatures[1..])
  }

  /** `validateImageFile`: the size is checked first, then the signature. */
  function ValidateImageFile(buf: Bytes, maxSize: int): (r: Result<bool>)
    ensures |buf| > maxSize ==> r == Failure(FILE_TOO_LARGE)
    ensures |buf| <= maxSize ==> (r.Success? <==> exists i :: 0 <= i < |IMAGE_SIGNATURES| && StartsWithBytes(buf, IMAGE_SIGNATURES[i]))
    ensures |buf| <= maxSize && r.Failure? ==> r.error == INVALID_IMAGE
    ensures r.Success? ==> r.value
  {
    if |buf| > maxSize then Failure(FILE_TOO_LARGE)
    else if !SomeSignatureMatches(buf, IMAGE_SIGNATURES) then Failure(INVALID_IMAGE)
    else Success(true)
  }

  predicate StartsWithBytes(buf: Bytes, prefix: Bytes) {
    |prefix| <= |buf| && buf[..|prefix|] == prefix
  }

  /** A buffer shorter than two bytes matches no signature; a PNG header passes. */
  lemma ImageSignatureExamples(buf: Bytes)
    ensures |buf| < 2 ==> ValidateImageFile(buf, DEFAULT_MAX_IMAGE_SIZE) == Failure(INVALID_IMAGE)
    ensures ValidateImageFile([0x89, 0x50, 0x4E, 0x47, 0x0D, 0x0A], DEFAULT_MAX_IMAGE_SIZE) == Success(true)
  {
    var png: Bytes := [0x89, 0x50, 0x4E, 0x47, 0x0D, 0x0A];
    assert StartsWithBytes(png, IMAGE_SIGNATURES[1]) by { assert png[..4] == IMAGE_SIGNATURES[1]; }
  }

  /** `createTemplateFromDefault`: refuses an unknown (or inactive) default
      template; otherwise stores a 'default' template pointing at it, with
      no custom image and the logo when one was given. */
  method CreateTemplateFromDefault(db: Database, userId: string, defaultTemplateId: string,
                                   c: TemplateCustomization, id: string, now: int)
    returns (r: Result<Template>)
    requires db.Valid()
    modifies db`templates
    ensures db.Valid()
    ensures old(db.FindDefaultTemplateById(defaultTemplateId)).None? ==>
              r == Failure(DEFAULT_TEMPLATE_NOT_FOUND) && db.templates == old(db.templates)
    ensures r.Success? ==> old(db.FindDefaultTemplateById(defaultTemplateId)).Some?
    ensures old(db.FindDefaultTemplateById(defaultTemplateId)).Some? ==>
              (r.Success? <==> !HasKey(old(db.templates), TemplateKey, id))
    ensures r.Success? ==> db.templates == old(db.templates) + [r.value]
    ensures r.Success? ==>
      && r.value.id == id && r.value.userId == userId && r.value.templateType == DefaultType
      && r.value.defaultTemplateId == Some(defaultTemplateId) && r.value.customImagePath.None?
      && r.value.logoPath == (if Truthy(c.logo) then c.logo else None)
      && CarriesCustomization(r.value, c)
    ensures r.Failure? ==> db.templates == old(db.templates)
  {
    if db.FindDefaultTemplateById(defaultTemplateId).None? {
      return Failure(DEFAULT_TEMPLATE_NOT_FOUND);
    }
    var input := TemplateInput(userId, DefaultType, Some(defaultTemplateId), None,
      if Truthy(c.logo) then c.logo else None, c.primaryColor, c.textX, c.textY, c.fontSize,
      c.fontColor, c.fontFamily);
    r := db.CreateTemplate(id, input, now);
  }

  /** `createCustomTemplate`: stores a 'custom' template on the uploaded
      image, with no default template. */
  method CreateCustomTemplate(db: Database, userId: string, customImagePath: string,
                              c: TemplateCustomization, id: string, now: int)
    returns (r: Result<Template>)
    requires db.Valid()
    modifies db`templates
    ensures db.Valid()
    ensures r.Success? <==> !HasKey(old(db.templates), TemplateKey, id)
    ensures r.Success? ==> db.templates == old(db.templates) + [r.value]
    ensures r.Success? ==>
      && r.value.id == id && r.value.userId == userId && r.value.templateType == CustomType
      && r.value.defaultTemplateId.None? && r.value.customImagePath == Some(customImagePath)
      && r.value.logoPath == (if Truthy(c.logo) then c.logo else None)
      && CarriesCustomization(r.value, c)
    ensures r.Failure? ==> db.templates == old(db.templates)
  {
    var input := TemplateInput(userId, CustomType, None, Some(customImagePath),
      if Truthy(c.logo) then c.logo else None, c.primaryColor, c.textX, c.textY, c.fontSize,
      c.fontColor, c.fontFamily);
    r := db.CreateTemplate(id, input, now);
  }

  predicate CarriesCustomization(t: Template, c: TemplateCustomization) {
    && t.primaryColor == c.primaryColor && t.textX == c.textX && t.textY == c.textY
    && t.fontSize == c.fontSize && t.fontColor == c.fontColor && t.fontFamily == c.fontFamily
  }

  datatype DefaultSettings = DefaultSettings(
    primaryColor: string, textX: int, textY: int, fontSize: int, fontColor: string, fontFamily: string)

  /** `getDefaultSettings`: the `default_*` fields of a default template, in
      the shape of a customization, with the default font family. */
  function GetDefaultSettings(d: DefaultTemplate): (s: DefaultSettings)
    ensures s.primaryColor == d.defaultPrimaryColor && s.fontColor == d.defaultFontColor
    ensures s.textX == d.defaultTextX && s.textY == d.defaultTextY && s.fontSize == d.defaultFontSize
    ensures s.fontFamily == DEFAULT_FONT_FAMILY
  {
    DefaultSettings(d.defaultPrimaryColor, d.defaultTextX, d.defaultTextY, d.defaultFontSize,
      d.defaultFontColor, DEFAULT_FONT_FAMILY)
  }
}
