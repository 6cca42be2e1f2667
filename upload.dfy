/**
 * The instructor upload route: after the instructor gate it takes the
 * multipart `file` entry, accepts it by MIME type or by extension, and
 * stores it under `<timestamp>_<sanitised name>` below `/uploads/`.
 * The clock reading and the outcome of the filesystem write are parameters.
 */
module Upload {
  import opened Wrappers
  import opened Text
  import opened Http
  import opened Auth

  /** What `formData.get('file')` returns: nothing, a plain text entry, or an uploaded file. */
  datatype FormEntry = Absent | TextEntry(text: string) | FileEntry(name: string, mimeType: string, size: nat)

  /** The JSON body of a successful upload. */
  datatype Uploaded = Uploaded(fileUrl: string, fileName: string, fileSize: nat, fileType: string)

  const AllowedMimeTypes: seq<string> := [
    "application/pdf",
    "application/msword",
    "application/vnd.openxmlformats-officedocument.wordprocessingml.document",
    "application/vnd.ms-powerpoint",
    "application/vnd.openxmlformats-officedocument.presentationml.presentation"
  ]

  const AllowedExtensions: seq<string> := [".pdf", ".doc", ".docx", ".ppt", ".pptx"]

  const UploadsPath: string := "/uploads/"

  /** The file's MIME type is listed, or its lower-cased name ends in a listed extension. */
  function IsValidType(name: string, mimeType: string): (ok: bool)
    ensures ok <==>
              mimeType in AllowedMimeTypes
              || exists k :: 0 <= k < |AllowedExtensions| && EndsWith(ToLower(name), AllowedExtensions[k])
  {
    ExtensionTestsMatchList(ToLower(name));
    mimeType in AllowedMimeTypes || EndsInListedExtension(ToLower(name))
  }

  /** The five extension tests, as the route writes them out. */
  predicate EndsInListedExtension(lower: string) {
    EndsWith(lower, ".pdf") || EndsWith(lower, ".doc") || EndsWith(lower, ".docx")
    || EndsWith(lower, ".ppt") || EndsWith(lower, ".pptx")
  }

  lemma ListedExtensionIsChecked(lower: string, k: int)
    requires 0 <= k < |AllowedExtensions| && EndsWith(lower, AllowedExtensions[k])
    ensures EndsInListedExtension(lower)
  {
    if k == 0 { assert AllowedExtensions[k] == ".pdf"; }
    else if k == 1 { assert AllowedExtensions[k] == ".doc"; }
    else if k == 2 { assert AllowedExtensions[k] == ".docx"; }
    else if k == 3 { assert AllowedExtensions[k] == ".ppt"; }
    else { assert AllowedExtensions[k] == ".pptx"; }
  }

  /** Each of the five extension tests is a listed extension. */
  lemma CheckedExtensionIsListed(lower: string)
    requires EndsInListedExtension(lower)
    ensures exists k :: 0 <= k < |AllowedExtensions| && EndsWith(lower, AllowedExtensions[k])
  {
    if EndsWith(lower, ".pdf") { ListedWitness(lower, 0); }
    if EndsWith(lower, ".doc") { ListedWitness(lower, 1); }
    if EndsWith(lower, ".docx") { ListedWitness(lower, 2); }
    if EndsWith(lower, ".ppt") { ListedWitness(lower, 3); }
    if EndsWith(lower, ".pptx") { ListedWitness(lower, 4); }
  }

  lemma ListedWitness(lower: string, k: int)
    requires 0 <= k < |AllowedExtensions| && EndsWith(lower, AllowedExtensions[k])
    ensures exists j :: 0 <= j < |AllowedExtensions| && EndsWith(lower, AllowedExtensions[j])
  {
  }

  /** The five tests the route writes out accept exactly the names ending in a listed extension. */
  lemma ExtensionTestsMatchList(lower: string)
    ensures EndsInListedExtension(lower) <==>
              exists k :: 0 <= k < |AllowedExtensions| && EndsWith(lower, AllowedExtensions[k])
  {
    if EndsInListedExtension(lower) {
      CheckedExtensionIsListed(lower);
    }
    forall k | 0 <= k < |AllowedExtensions| && EndsWith(lower, AllowedExtensions[k])
      ensures EndsInListedExtension(lower)
    {
      ListedExtensionIsChecked(lower, k);
    }
  }

  /** The extension test ignores case: a name and its lower-case form are judged alike. */
  lemma ValidTypeIgnoresCase(name: string, mimeType: string)
    ensures IsValidType(ToLower(name), mimeType) == IsValidType(name, mimeType)
  {
    ToLowerIdempotent(name);
  }

  /** An upper-case extension is accepted whatever the MIME type: `REPORT.PDF`, say. */
  lemma UpperCasePdfAccepted(name: string, mimeType: string)
    requires |name| >= 4 && name[|name| - 4..] == ".PDF"
    ensures IsValidType(name, mimeType)
  {
    var n := |name|;
    var lower := ToLower(name);
    assert name[n - 4] == '.' && name[n - 3] == 'P' && name[n - 2] == 'D' && name[n - 1] == 'F';
    assert lower[n - 4] == '.' && lower[n - 3] == 'p' && lower[n - 2] == 'd' && lower[n - 1] == 'f';
    assert lower[n - 4..] == ".pdf";
  }

  /** A name without a listed extension and an unlisted MIME type is refused. */
  lemma PlainTextRefused()
    ensures !IsValidType("notes.txt", "text/plain")
  {
    var lower := ToLower("notes.txt");
    assert lower[|lower| - 1] == 't';
    assert lower[|lower| - 2] == 'x';
    assert lower[|lower| - 3] == 't';
  }

  /** The characters `[A-Za-z0-9.-]` that the sanitiser keeps. */
  predicate SafeChar(c: char) {
    ('a' <= c <= 'z') || ('A' <= c <= 'Z') || ('0' <= c <= '9') || c == '.' || c == '-'
  }

  /** `name.replace(/[^a-zA-Z0-9.-]/g, '_')`. */
  function Sanitize(name: string): (r: string)
    ensures |r| == |name|
    ensures forall i :: 0 <= i < |name| && SafeChar(name[i]) ==> r[i] == name[i]
    ensures forall i :: 0 <= i < |name| && !SafeChar(name[i]) ==> r[i] == '_'
  {
    if name == [] then []
    else [if SafeChar(name[0]) then name[0] else '_'] + Sanitize(name[1..])
  }

  /** Every character of a sanitised name is a kept character or an underscore. */
  lemma SanitizedAlphabet(name: string)
    ensures forall i :: 0 <= i < |Sanitize(name)| ==> SafeChar(Sanitize(name)[i]) || Sanitize(name)[i] == '_'
  {
  }

  /** A name made only of kept characters is left as it is. */
  lemma {:induction false} SanitizeKeepsSafeName(name: string)
    requires forall i :: 0 <= i < |name| ==> SafeChar(name[i])
    ensures Sanitize(name) == name
  {
    if name != [] {
      SanitizeKeepsSafeName(name[1..]);
      assert name == [name[0]] + name[1..];
    }
  }

  /** Sanitising is idempotent. */
  lemma {:induction false} SanitizeIdempotent(name: string)
    ensures Sanitize(Sanitize(name)) == Sanitize(name)
  {
    if name != [] {
      SanitizeIdempotent(name[1..]);
      assert Sanitize(name)[1..] == Sanitize(name[1..]);
    }
  }

  /** The stored file name: the decimal timestamp, an underscore, the sanitised name. The timestamp has no underscore, so the first one separates the two and both read back. */
  function StoredFilename(timestamp: nat, name: string): (f: string)
    ensures ParseStoredFilename(f) == Some((timestamp, Sanitize(name)))
    ensures |f| == |Decimal(timestamp)| + 1 + |name|
  {
    var d := Decimal(timestamp);
    var f := d + "_" + Sanitize(name);
    assert f[|d|..|d| + 1] == "_";
    assert OccursAt(f, "_", |d|);
    forall j | 0 <= j < |d| ensures !OccursAt(f, "_", j) {
      assert f[j..j + 1] == [d[j]] && IsDigit(d[j]);
    }
    var i := IndexOf(f, "_").value;
    assert i == |d|;
    assert f[..i] == d;
    assert f[i + 1..] == Sanitize(name);
    DecimalRoundTrip(timestamp);
    f
  }

  /** Two uploads stored under the same name came at the same millisecond with the same sanitised name. */
  lemma StoredFilenameInjective(t: nat, name: string, t': nat, name': string)
    requires StoredFilename(t, name) == StoredFilename(t', name')
    ensures t == t' && Sanitize(name) == Sanitize(name')
  {
    var f := StoredFilename(t, name);
    assert ParseStoredFilename(f) == Some((t, Sanitize(name)));
    assert ParseStoredFilename(f) == Some((t', Sanitize(name')));
  }

  /** The public URL of a stored file: the uploads path, then the file name. */
  function FileUrl(filename: string): (u: string)
    ensures StartsWith(u, UploadsPath) && u[|UploadsPath|..] == filename
  {
    UploadsPath + filename
  }

  /** Reads a stored file name back into its timestamp and its sanitised name. */
  function ParseStoredFilename(f: string): Option<(nat, string)> {
    match IndexOf(f, "_")
    case None => None
    case Some(i) =>
      if i > 0 && forall j :: 0 <= j < i ==> IsDigit(f[j])
      then Some((DecimalValue(f[..i]), f[i + 1..]))
      else None
  }

  /** A form entry the route's `!file` test lets through. */
  predicate Present(entry: FormEntry) {
    !(entry.Absent? || entry == TextEntry(""))
  }

  /**
   * POST /api/instructor/upload. `now` is `Date.now()`; `written` is whether
   * the filesystem write (with its create-the-directory retry) succeeded.
   * A text entry has no name, so reading its name throws and the catch
   * answers 500.
   */
  function Post(header: Option<string>, verify: Verifier, entry: FormEntry, now: nat, written: bool): (r: Response<Uploaded>)
    ensures r.Status() == 401 <==> ReplacedToken(header).None?
    ensures r.Status() == 403 <==> InstructorGate(header, verify) == Failure(Forbidden)
    ensures r.Status() == 400 <==>
              InstructorGate(header, verify).Success?
              && (!Present(entry) || (entry.FileEntry? && !IsValidType(entry.name, entry.mimeType)))
    ensures r.Ok? <==>
              InstructorGate(header, verify).Success? && entry.FileEntry?
              && IsValidType(entry.name, entry.mimeType) && written
    ensures r.Ok? ==> r.status == 200
                      && r.body.fileUrl == UploadsPath + StoredFilename(now, entry.name)
                      && r.body.fileName == entry.name
                      && r.body.fileSize == entry.size && r.body.fileType == entry.mimeType
    ensures r.Status() in {200, 400, 401, 403, 500}
  {
    match InstructorGate(header, verify)
    case Failure(e) => Fail(e)
    case Success(_) =>
      if !Present(entry) then Fail(Error(400, "No file provided"))
      else if entry.TextEntry? then Fail(InternalError)
      else if !IsValidType(entry.name, entry.mimeType) then
        Fail(Error(400, "Invalid file type. Only PDF, Word, and PowerPoint files are allowed."))
      else if !written then Fail(InternalError)
      else
        var filename := StoredFilename(now, entry.name);
        Ok(200, Uploaded(FileUrl(filename), entry.name, entry.size, entry.mimeType))
  }

  /** The URL of an accepted upload names a file from which the timestamp and the sanitised name can be read back. */
  lemma UploadedUrlDecodes(header: Option<string>, verify: Verifier, entry: FormEntry, now: nat)
    requires Post(header, verify, entry, now, true).Ok?
    ensures var url := Post(header, verify, entry, now, true).body.fileUrl;
            StartsWith(url, UploadsPath)
            && ParseStoredFilename(url[|UploadsPath|..]) == Some((now, Sanitize(entry.name)))
  {
    var url := Post(header, verify, entry, now, true).body.fileUrl;
    assert url[|UploadsPath|..] == StoredFilename(now, entry.name);
  }
}
