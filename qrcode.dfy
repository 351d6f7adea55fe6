/**
 * The QR code helper: the relative address it returns for a written image,
 * and the message of the error it rethrows when writing fails. Rendering
 * the image, creating its directory and writing or removing the file are
 * parameters: each either succeeds or yields what it threw. `path.join` is
 * a parameter too.
 */
module QrCode {
  import opened Wrappers
  import opened JsString
  import opened Errors
  import opened Records
  import LansiaService

  /** `replace(/\\/g, '/')`: every backslash becomes a forward slash. */
  function ForwardSlashes(p: string): (r: string)
    ensures |r| == |p|
    ensures forall i | 0 <= i < |p| :: r[i] == (if p[i] == '\\' then '/' else p[i])
  {
    if p == [] then [] else [if p[0] == '\\' then '/' else p[0]] + ForwardSlashes(p[1..])
  }

  /** `replace(/^\./, '')`: one leading dot is dropped. */
  function DropLeadingDot(s: string): (r: string)
    ensures (s != [] && s[0] == '.') ==> r == s[1..]
    ensures (s == [] || s[0] != '.') ==> r == s
  {
    if s != [] && s[0] == '.' then s[1..] else s
  }

  /**
   * The address stored for an image written at `outputPath`: separators
   * made forward slashes, then one leading dot dropped. Every other
   * character is kept, in order.
   */
  function RelativePath(outputPath: string): (r: string)
    ensures '\\' !in r
    ensures |r| == |outputPath| || |r| == |outputPath| - 1
    ensures var d := |outputPath| - |r|;
      forall i | 0 <= i < |r| :: r[i] == (if outputPath[i + d] == '\\' then '/' else outputPath[i + d])
    ensures |r| == |outputPath| - 1 <==> (outputPath != [] && outputPath[0] == '.')
  {
    var s := ForwardSlashes(outputPath);
    var r := DropLeadingDot(s);
    assert forall i | 0 <= i < |s| :: s[i] != '\\';
    r
  }

  /** A path that already uses forward slashes keeps them. */
  lemma ForwardSlashesKeep(p: string)
    requires '\\' !in p
    ensures ForwardSlashes(p) == p
  {
    var r := ForwardSlashes(p);
    assert forall i | 0 <= i < |p| :: r[i] == p[i];
  }

  /**
   * A path relative to the working directory becomes an address under the
   * site root: `./uploads/qr/x.png` becomes `/uploads/qr/x.png`.
   */
  lemma DotPathBecomesRooted(rest: string)
    requires '\\' !in rest
    ensures RelativePath("." + rest) == rest
  {
    ForwardSlashesKeep("." + rest);
    assert ("." + rest)[1..] == rest;
  }

  /** Windows separators are rewritten before the dot is looked at, so both spellings give one address. */
  lemma SeparatorsDoNotMatter(p: string)
    ensures RelativePath(p) == RelativePath(ForwardSlashes(p))
  {
    ForwardSlashesKeep(ForwardSlashes(p));
  }

  /**
   * Only the first dot goes, so the rewrite is not idempotent: `../x`
   * becomes `./x`, which a second pass would turn into `/x`. An address that
   * does not start with a dot is left alone.
   */
  lemma RelativePathOnce(p: string, rest: string)
    requires '\\' !in rest
    ensures RelativePath(".." + rest) == "." + rest
    ensures var r := RelativePath(p); (r == [] || r[0] != '.') ==> RelativePath(r) == r
  {
    assert ".." + rest == "." + ("." + rest);
    DotPathBecomesRooted("." + rest);
    ForwardSlashesKeep(RelativePath(p));
  }

  const GeneratePrefix := "Failed to generate QR Code: "
  const DeletePrefix := "Failed to delete QR Code: "

  /** `${error instanceof Error ? error.message : 'Unknown error'}`. */
  function Reason(t: Thrown): (m: string)
    ensures t.NonError? ==> m == "Unknown error"
    ensures !t.NonError? ==> Some(m) == MessageOf(t)
  {
    match MessageOf(t)
    case Some(msg) => msg
    case None => "Unknown error"
  }

  /**
   * `generateQRCode(data, outputPath)`: `write(outputPath, data)` stands for
   * creating the directory and rendering the image into the file. On
   * success the answer is the relative address; on failure a plain error
   * whose message is the prefix and the reason.
   */
  function GenerateQRCode(data: string, outputPath: string, write: (string, string) -> Option<Thrown>): (r: Result<string, Thrown>)
    ensures r.Ok? <==> write(outputPath, data).None?
    ensures r.Ok? ==> r.value == RelativePath(outputPath)
    ensures r.Err? ==> r.error == PlainError(GeneratePrefix + Reason(write(outputPath, data).value))
  {
    match write(outputPath, data)
    case None => Ok(RelativePath(outputPath))
    case Some(error) => Err(PlainError(GeneratePrefix + Reason(error)))
  }

  /** Whatever went wrong, the rethrown message starts with the generation prefix. */
  lemma GenerateFailureMessage(data: string, outputPath: string, write: (string, string) -> Option<Thrown>)
    requires write(outputPath, data).Some?
    ensures var r := GenerateQRCode(data, outputPath, write);
      r.Err? && r.error.PlainError? && StartsWith(r.error.plainMessage, GeneratePrefix)
  {
    var m := GenerateQRCode(data, outputPath, write).error.plainMessage;
    assert m[..|GeneratePrefix|] == GeneratePrefix;
  }

  /** `process.env.QR_CODE_DIR || './uploads/qr'`. */
  function QrDir(configured: Option<string>): (dir: string)
    ensures Truthy(configured) ==> dir == configured.value
    ensures !Truthy(configured) ==> dir == "./uploads/qr"
  {
    if Truthy(configured) then configured.value else "./uploads/qr"
  }

  /** `generateLansiaQRCode(lansiaId)`: the elder's id is encoded, into `<dir>/<id>.png`. */
  function GenerateLansiaQRCode(lansiaId: string, configured: Option<string>, join: (string, string) -> string,
                                write: (string, string) -> Option<Thrown>): (r: Result<string, Thrown>)
    ensures r == GenerateQRCode(lansiaId, join(QrDir(configured), lansiaId + ".png"), write)
    ensures r.Ok? ==> '\\' !in r.value
  {
    var qrDir := QrDir(configured);
    var outputPath := join(qrDir, lansiaId + ".png");
    GenerateQRCode(lansiaId, outputPath, write)
  }

  /** An elder created with this generator never stores an address containing a backslash. */
  lemma StoredQrAddressUsesSlashes(data: LansiaService.NewLansia, id: string, now: int, dateMs: string -> int,
                                   configured: Option<string>, join: (string, string) -> string,
                                   write: (string, string) -> Option<Thrown>)
    ensures var l := LansiaService.Stored(data, id, now, dateMs, i => GenerateLansiaQRCode(i, configured, join, write));
      l.qrCodeUrl.Some? ==> '\\' !in l.qrCodeUrl.value
  {
    var g := (i: string) => GenerateLansiaQRCode(i, configured, join, write);
    assert g(id) == GenerateLansiaQRCode(id, configured, join, write);
  }

  /**
   * `deleteQRCode(filePath)`: nothing happens for a missing file; a failed
   * removal is rethrown with the deletion prefix.
   */
  function DeleteQRCode(filePath: string, fileExists: string -> bool, unlink: string -> Option<Thrown>): (r: Result<(), Thrown>)
    ensures !fileExists(filePath) ==> r.Ok?
    ensures r.Err? <==> fileExists(filePath) && unlink(filePath).Some?
    ensures r.Err? ==> r.error == PlainError(DeletePrefix + Reason(unlink(filePath).value))
  {
    if !fileExists(filePath) then Ok(())
    else match unlink(filePath)
      case None => Ok(())
      case Some(error) => Err(PlainError(DeletePrefix + Reason(error)))
  }
}
