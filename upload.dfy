/**
 * The upload configuration of index.js: multer's disk storage (destination
 * directory and stored file name), the 10 MiB size limit and the file
 * filter that admits audio only, and what `upload.single('audio')` hands on
 * to the route once these rules have been applied.
 */
module Upload {
  import opened Wrappers
  import opened JsString

  /** The directory every accepted file is stored in. */
  const UploadDestination: string := "uploads/"

  /** `limits.fileSize`: ten mebibytes. */
  const FileSizeLimit: nat := 10 * 1024 * 1024

  const AudioPrefix: string := "audio/"

  /** The message of the error the filter reports for a rejected file. */
  const OnlyAudioMessage: string := "Only audio files are allowed!"

  /** The largest value `Date.now()` can return (the end of JavaScript's date range). */
  const MaxTimestamp: nat := 8_640_000_000_000_000

  /** A millisecond timestamp as `Date.now()` returns it. */
  type Timestamp = t: nat | t <= MaxTimestamp

  /** The file part of a multipart request, as multer describes it to the storage and the filter. */
  datatype FilePart = FilePart(originalname: string, mimetype: string, size: nat)

  /** What the filter passes to its callback: an error, if any, and whether to accept. */
  datatype FilterVerdict = FilterVerdict(error: Option<string>, accept: bool)

  /** `req.file` after a successful upload. */
  datatype UploadedFile = UploadedFile(
    originalname: string,
    mimetype: string,
    size: nat,
    destination: string,
    filename: string,
    path: string)

  /** How the upload middleware ends: with an error carrying a message, or with or without a file. */
  datatype UploadResult = UploadFailed(message: string) | Uploaded(file: Option<UploadedFile>)

  lemma FileSizeLimitIsTenMiB()
    ensures FileSizeLimit == 10485760
  {
  }

  /** `fileFilter`: accept exactly the files whose MIME type starts with `audio/`. */
  function FileFilter(file: FilePart): (v: FilterVerdict)
    ensures v.accept <==> StartsWith(file.mimetype, AudioPrefix)
    ensures v.accept ==> v.error == None
    ensures !v.accept ==> v.error == Some(OnlyAudioMessage)
  {
    if StartsWith(file.mimetype, AudioPrefix) then FilterVerdict(None, true)
    else FilterVerdict(Some(OnlyAudioMessage), false)
  }

  /** The prefix test is case-sensitive: `Audio/mpeg` is turned away, `audio/mpeg` admitted. */
  lemma FileFilterIsCaseSensitive(originalname: string, size: nat)
    ensures !FileFilter(FilePart(originalname, "Audio/mpeg", size)).accept
    ensures FileFilter(FilePart(originalname, "audio/mpeg", size)).accept
  {
    assert "Audio/mpeg"[..|AudioPrefix|] != AudioPrefix by {
      assert "Audio/mpeg"[0] != AudioPrefix[0];
    }
    assert "audio/mpeg"[..|AudioPrefix|] == AudioPrefix;
  }

  /** The filter accepts a file exactly when its type is `audio/` followed by anything. */
  lemma FileFilterAcceptsAudioTypes(file: FilePart)
    ensures FileFilter(file).accept <==> exists subtype :: file.mimetype == AudioPrefix + subtype
  {
    StartsWithIffPrefix(file.mimetype, AudioPrefix);
  }

  /** `destination`: the same directory whatever the file. */
  function Destination(file: FilePart): (dir: string)
    ensures dir == "uploads/"
  {
    UploadDestination
  }

  /** `filename`: the decimal timestamp, a dash, then the original name. */
  function StoredFilename(now: Timestamp, file: FilePart): (name: string)
    ensures EndsWith(name, "-" + file.originalname)
    ensures name[..|name| - |file.originalname| - 1] == NumberToString(now)
  {
    var name := NumberToString(now) + "-" + file.originalname;
    assert name[|name| - |file.originalname| - 1..] == "-" + file.originalname;
    name
  }

  /**
   * Reads a stored file name back into its timestamp and original name: the
   * timestamp is the digits before the first dash, the original name all
   * that follows it.
   */
  function ParseStoredFilename(name: string): Option<(nat, string)> {
    match IndexOf(name, '-')
    case None => None
    case Some(k) =>
      if k > 0 && IsDigits(name[..k]) then Some((ParseDigits(name[..k]), name[k + 1..])) else None
  }

  /** The stored name determines both the timestamp and the original name, even when the latter holds dashes. */
  lemma StoredFilenameRoundTrip(now: Timestamp, file: FilePart)
    ensures ParseStoredFilename(StoredFilename(now, file)) == Some((now as nat, file.originalname))
  {
    var digits := NumberToString(now);
    var name := StoredFilename(now, file);
    assert name == digits + ("-" + file.originalname);
    assert '-' !in digits by {
      forall i | 0 <= i < |digits| ensures digits[i] != '-' {
        assert IsDigit(digits[i]);
      }
    }
    IndexOfAfterFreePrefix(digits, "-" + file.originalname, '-');
    assert name[..|digits|] == digits;
    assert name[|digits| + 1..] == file.originalname;
    ParseNumberToString(now);
  }

  lemma IndexOfAfterFreePrefix(a: string, b: string, c: char)
    requires c !in a && |b| > 0 && b[0] == c
    ensures IndexOf(a + b, c) == Some(|a|)
  {
    var s := a + b;
    assert s[|a|] == c;
    assert forall j :: 0 <= j < |a| ==> s[j] == a[j];
    assert forall k :: |a| < k <= |s| ==> s[..k][|a|] == c;
  }

  /**
   * `upload.single('audio')` with this configuration, for a request whose
   * `audio` part is `part`: no part means no file; a part the filter rejects
   * ends in the filter's error; an accepted part is stored under the
   * destination with the generated name.
   */
  function StoreSingle(part: Option<FilePart>, now: Timestamp): (r: UploadResult)
    ensures r == Uploaded(None) <==> part.None?
    ensures part.Some? && StartsWith(part.value.mimetype, AudioPrefix) ==> r.Uploaded? && r.file.Some?
    ensures r.UploadFailed? <==> part.Some? && !StartsWith(part.value.mimetype, AudioPrefix)
    ensures r.UploadFailed? ==> r.message == OnlyAudioMessage
    ensures r.Uploaded? && r.file.Some? ==>
      part.Some? &&
      var file := r.file.value;
      && file.originalname == part.value.originalname
      && file.mimetype == part.value.mimetype
      && file.size == part.value.size
      && file.destination == UploadDestination
      && file.filename == StoredFilename(now, part.value)
      && file.path == UploadDestination + StoredFilename(now, part.value)
  {
    match part
    case None => Uploaded(None)
    case Some(p) =>
      var verdict := FileFilter(p);
      if !verdict.accept then UploadFailed(verdict.error.value)
      else
        var dir := Destination(p);
        var name := StoredFilename(now, p);
        Uploaded(Some(UploadedFile(p.originalname, p.mimetype, p.size, dir, name, dir + name)))
  }
}
