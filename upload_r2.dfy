/**
 * The web app's POST handler at api/upload-r2: it names the object
 * `demos/<millis>-<random>.<extension>`, stores the posted file under that name with the
 * file's type (or a generic binary type), and answers with the object's public URL. The
 * clock, the random text, the public base URL and whether the store accepted the object are
 * parameters.
 */
module UploadR2 {
  import opened Wrappers
  import opened Text
  import BackendUpload

  /** What the handler reads of the posted `File`. */
  datatype FormFile = FormFile(name: string, mime: string)

  /** The value of a form field: a file, or plain text. */
  datatype FormField = FileField(file: FormFile) | TextField(text: string)

  /**
   * The request body: a multipart form with the values of its `file` and `type` fields (None
   * when absent), or a body that `request.formData()` cannot parse.
   */
  datatype FormBody = Form(file: Option<FormField>, kind: Option<string>) | NotMultipart

  /** The `PutObjectCommand` the handler sends. */
  datatype R2Put = R2Put(key: string, contentType: string)

  datatype Body =
    | Uploaded(url: string, fileName: string, kind: Option<string>)
    | Failed(error: string)

  datatype RouteResponse = RouteResponse(status: nat, body: Body)

  const NoFile := RouteResponse(400, Failed("No file provided"))
  const UploadFailed := RouteResponse(500, Failed("Upload failed"))
  const DefaultContentType := "application/octet-stream"

  /** "zip" for a zip upload, otherwise what follows the last "." of the file name. */
  function Extension(kind: Option<string>, name: string): string {
    if kind == Some("zip") then "zip" else LastPiece(name, '.')
  }

  function ObjectName(millis: nat, random36: string, extension: string): string {
    "demos/" + NatToString(millis) + "-" + Substring(random36, 2, 15) + "." + extension
  }

  function ContentType(mime: string): string {
    if mime == "" then DefaultContentType else mime
  }

  /**
   * `POST`: the response and the object sent to the store, if any. `file` is only cast to
   * `File`: a missing field or empty text is falsy and refused, and non-empty text has neither
   * `name` nor `arrayBuffer`, so the handler throws and its catch answers 500, as it does when
   * the body is not a form.
   */
  function Post(body: FormBody, millis: nat, random36: string, publicBase: string, stored: bool): (RouteResponse, Option<R2Put>)
  {
    match body
    case NotMultipart => (UploadFailed, None)
    case Form(None, _) => (NoFile, None)
    case Form(Some(TextField(text)), _) => if text == "" then (NoFile, None) else (UploadFailed, None)
    case Form(Some(FileField(file)), kind) =>
      var fileName := ObjectName(millis, random36, Extension(kind, file.name));
      var put := R2Put(fileName, ContentType(file.mime));
      if !stored then (UploadFailed, Some(put))
      else (RouteResponse(200, Uploaded(BackendUpload.PublicUrl(publicBase, fileName), fileName, kind)), Some(put))
  }

  /**
   * Outside zip uploads the extension is the longest dot-free end of the file name: the
   * whole name when it has no dot, and otherwise the part that a dot precedes.
   */
  lemma ExtensionSpec(kind: Option<string>, name: string)
    ensures kind == Some("zip") ==> Extension(kind, name) == "zip"
    ensures kind != Some("zip") ==>
      var e := Extension(kind, name);
      && '.' !in e
      && |e| <= |name| && name[|name| - |e|..] == e
      && ('.' in name ==> name[|name| - |e| - 1] == '.')
      && ('.' !in name ==> e == name)
  {
    LastPieceIsSuffix(name, '.');
    if '.' !in name {
      SplitWithoutSeparator(name, '.');
    }
  }

  /** The last piece of `a.b` split at dots is `b` when `b` has no dot. */
  lemma LastPieceAfterDot(a: string, b: string)
    requires '.' !in b
    ensures LastPiece(a + "." + b, '.') == b
  {
    var s := a + "." + b;
    assert s[|a|] == '.';
    LastPieceIsSuffix(s, '.');
    var p := LastPiece(s, '.');
    assert s[|s| - |b|..] == b;
    if |p| < |b| {
      assert false;
    } else if |p| > |b| {
      assert false;
    }
  }

  /**
   * The object name keeps the moment it was made, and its part after the last dot is the
   * extension.
   */
  lemma ObjectNameSpec(millis: nat, random36: string, extension: string)
    requires '.' !in extension
    ensures var key := ObjectName(millis, random36, extension);
      && BackendUpload.ParseKey("demos/", key) == Some((millis, Substring(random36, 2, 15) + "." + extension))
      && LastPiece(key, '.') == extension
  {
    var rnd := Substring(random36, 2, 15);
    BackendUpload.ParseKeyOf("demos/", millis, rnd + "." + extension);
    var key := ObjectName(millis, random36, extension);
    assert key == ("demos/" + NatToString(millis) + "-" + rnd) + "." + extension;
    assert key == "demos/" + NatToString(millis) + "-" + (rnd + "." + extension);
    LastPieceAfterDot("demos/" + NatToString(millis) + "-" + rnd, extension);
  }

  /**
   * A request without a file is refused before anything is stored, and so is one whose
   * `file` field is not a file or whose body is not a form; otherwise the object goes under
   * the derived name with the file's type or the default, and success echoes the name, the
   * type field and the public URL of the name.
   */
  lemma PostSpec(body: FormBody, millis: nat, random36: string, publicBase: string, stored: bool)
    ensures var (resp, put) := Post(body, millis, random36, publicBase, stored);
      && (body.NotMultipart? ==> resp == UploadFailed && put.None?)
      && (body.Form? && (body.file.None? || body.file == Some(TextField(""))) ==> resp == NoFile && put.None?)
      && (body.Form? && body.file.Some? && body.file.value.TextField? && body.file.value.text != "" ==>
            resp == UploadFailed && put.None?)
      && (put.Some? <==> body.Form? && body.file.Some? && body.file.value.FileField?)
      && (body.Form? && body.file.Some? && body.file.value.FileField? ==>
            var file := body.file.value.file;
            && put == Some(R2Put(ObjectName(millis, random36, Extension(body.kind, file.name)),
                                 if file.mime == "" then DefaultContentType else file.mime))
            && (resp.status == 200 <==> stored)
            && (!stored ==> resp == UploadFailed)
            && (stored ==> resp.body == Uploaded(BackendUpload.PublicUrl(publicBase, put.value.key), put.value.key, body.kind)))
  {
  }
}
