/** The checks made before an image is sent to Cloudinary, the loop that
    gathers a streamed file into one buffer, the upload outcome, and the
    public id read back from a hosted URL. */
module Cloudinary {
  import opened Wrappers
  import opened Strings
  import opened Environment

  type Byte = bv8

  const MiB := 1024 * 1024
  const ImageTypePrefix := "image/"

  /** How a file object lets its bytes be read: `arrayBuffer()`, a readable
      `stream()` (the chunks its reader yields, in order), or neither. */
  datatype ByteSource = ArrayBuffer(bytes: seq<Byte>) | Stream(chunks: seq<seq<Byte>>) | NoReader

  datatype UploadFile = UploadFile(name: string, size: nat, mimeType: string, source: ByteSource)

  /** The two upload paths, which differ only in limits, folder and wording. */
  datatype ImageKind = ProfilePhoto | QrCodeImage

  function SizeLimit(kind: ImageKind): nat {
    match kind
    case ProfilePhoto => 10 * MiB
    case QrCodeImage => 5 * MiB
  }

  function Folder(kind: ImageKind): string {
    match kind
    case ProfilePhoto => "user-photos"
    case QrCodeImage => "qr_codes"
  }

  function TooLargeMessage(kind: ImageKind): string {
    match kind
    case ProfilePhoto => "File size too large (max 10MB)"
    case QrCodeImage => "QR code file size too large (max 5MB)"
  }

  function NotImageMessage(kind: ImageKind): string {
    match kind
    case ProfilePhoto => "File must be an image"
    case QrCodeImage => "QR code file must be an image"
  }

  function UnreadableMessage(kind: ImageKind): string {
    match kind
    case ProfilePhoto => "Unable to read file data - unsupported file format"
    case QrCodeImage => "Unable to read QR code file data - unsupported file format"
  }

  function UploadFailedMessage(kind: ImageKind, detail: string): string {
    match kind
    case ProfilePhoto => "Cloudinary upload failed: " + detail
    case QrCodeImage => "QR code upload failed: " + detail
  }

  function NoUrlMessage(kind: ImageKind): string {
    match kind
    case ProfilePhoto => "Upload completed but no URL returned"
    case QrCodeImage => "QR code upload completed but no URL returned"
  }

  const ConfigMissingMessage := "Cloudinary configuration missing"

  predicate CloudinaryConfigured(env: Env) {
    Truthy(env.cloudinaryCloudName) && Truthy(env.cloudinaryApiKey) && Truthy(env.cloudinaryApiSecret)
  }

  /** The checks made before any byte is read, in their order: size, then
      type, then configuration. `None` means the file may be read. */
  function Precheck(kind: ImageKind, env: Env, file: UploadFile): (r: Option<string>)
    ensures r.None? <==>
      file.size <= SizeLimit(kind) && StartsWith(file.mimeType, ImageTypePrefix) && CloudinaryConfigured(env)
    ensures file.size > SizeLimit(kind) ==> r == Some(TooLargeMessage(kind))
    ensures file.size <= SizeLimit(kind) && !StartsWith(file.mimeType, ImageTypePrefix) ==>
              r == Some(NotImageMessage(kind))
    ensures (file.size <= SizeLimit(kind) && StartsWith(file.mimeType, ImageTypePrefix)
             && !CloudinaryConfigured(env)) ==> r == Some(ConfigMissingMessage)
  {
    if file.size > SizeLimit(kind) then Some(TooLargeMessage(kind))
    else if !StartsWith(file.mimeType, ImageTypePrefix) then Some(NotImageMessage(kind))
    else if !CloudinaryConfigured(env) then Some(ConfigMissingMessage)
    else None
  }

  // ---------------------------------------------------------------------------
  // Gathering a stream
  // ---------------------------------------------------------------------------

  /** `chunks.reduce((acc, chunk) => acc + chunk.length, 0)`. */
  function TotalLength(chunks: seq<seq<Byte>>): nat
    decreases |chunks|
  {
    if chunks == [] then 0 else TotalLength(chunks[..|chunks| - 1]) + |chunks[|chunks| - 1]|
  }

  /** The chunks laid end to end, in order. */
  function Flatten(chunks: seq<seq<Byte>>): seq<Byte>
    decreases |chunks|
  {
    if chunks == [] then [] else Flatten(chunks[..|chunks| - 1]) + chunks[|chunks| - 1]
  }

  /** The reduced length is the length of the concatenation. */
  lemma {:induction false} FlattenLength(chunks: seq<seq<Byte>>)
    ensures |Flatten(chunks)| == TotalLength(chunks)
    decreases |chunks|
  {
    if chunks != [] {
      FlattenLength(chunks[..|chunks| - 1]);
    }
  }

  /** A prefix of the chunks never has more bytes than all of them. */
  lemma {:induction false} TotalLengthPrefix(chunks: seq<seq<Byte>>, k: nat)
    requires k <= |chunks|
    ensures TotalLength(chunks[..k]) <= TotalLength(chunks)
    decreases |chunks| - k
  {
    if k < |chunks| {
      TotalLengthPrefix(chunks, k + 1);
      var p := chunks[..k + 1];
      assert p[..|p| - 1] == chunks[..k];
      assert TotalLength(p) == TotalLength(chunks[..k]) + |p[|p| - 1]|;
    } else {
      assert chunks[..k] == chunks;
    }
  }

  /** The stream branch of `uploadProfilePhoto` and `uploadQRCode`: collect the
      chunks, size the buffer by their total length, and copy chunk `k` to the
      offset that sums the lengths before it. */
  method ReadStream(stream: seq<seq<Byte>>) returns (buffer: seq<Byte>)
    ensures buffer == Flatten(stream)
    ensures |buffer| == TotalLength(stream)
  {
    var chunks: seq<seq<Byte>> := [];
    var i := 0;
    while i < |stream|
      invariant 0 <= i <= |stream|
      invariant chunks == stream[..i]
    {
      chunks := chunks + [stream[i]];
      i := i + 1;
    }
    assert chunks == stream;

    var totalLength := TotalLength(chunks);
    var combined := new Byte[totalLength];
    var offset := 0;
    var k := 0;
    while k < |chunks|
      invariant 0 <= k <= |chunks|
      invariant offset == TotalLength(chunks[..k]) <= totalLength
      invariant combined[..offset] == Flatten(chunks[..k])
    {
      var chunk := chunks[k];
      assert chunks[..k + 1][..k] == chunks[..k];
      TotalLengthPrefix(chunks, k + 1);
      Set(combined, chunk, offset);
      assert combined[..offset + |chunk|] == combined[..offset] + combined[offset..offset + |chunk|];
      offset := offset + |chunk|;
      k := k + 1;
    }
    assert chunks[..k] == chunks;
    assert combined[..offset] == combined[..];
    buffer := combined[..];
    FlattenLength(stream);
  }

  /** `combined.set(chunk, offset)`: copies `chunk` into `combined` from
      `offset` on and leaves every other byte alone. */
  method Set(combined: array<Byte>, chunk: seq<Byte>, offset: nat)
    requires offset + |chunk| <= combined.Length
    modifies combined
    ensures combined[..offset] == old(combined[..offset])
    ensures combined[offset..offset + |chunk|] == chunk
    ensures combined[offset + |chunk|..] == old(combined[offset + |chunk|..])
  {
    var j := 0;
    while j < |chunk|
      invariant 0 <= j <= |chunk|
      invariant combined[..offset] == old(combined[..offset])
      invariant combined[offset..offset + j] == chunk[..j]
      invariant combined[offset + |chunk|..] == old(combined[offset + |chunk|..])
    {
      combined[offset + j] := chunk[j];
      assert combined[offset..offset + j + 1] == combined[offset..offset + j] + [chunk[j]];
      j := j + 1;
    }
  }

  /** The bytes of a file, or the error raised when it offers no way to read them. */
  function FileBytes(kind: ImageKind, file: UploadFile): Result<seq<Byte>, string> {
    match file.source
    case ArrayBuffer(bytes) => Ok(bytes)
    case Stream(chunks) => Ok(Flatten(chunks))
    case NoReader => Err(UnreadableMessage(kind))
  }

  /** What `upload_stream` reports back: an error message, or a result whose
      `secure_url` may be missing. */
  datatype UploadReply = UploadFailed(message: string) | Uploaded(secureUrl: Option<string>)

  /** The hosted URL, or the message of the error thrown, for one upload.
      `upload` stands for the Cloudinary upload of a buffer into a folder. */
  function UploadOutcome(kind: ImageKind, env: Env, file: UploadFile,
                         upload: (string, seq<Byte>) -> UploadReply): (r: Result<string, string>)
    ensures Precheck(kind, env, file).Some? ==> r == Err(Precheck(kind, env, file).value)
    ensures r.Ok? ==> Precheck(kind, env, file).None? && r.value != ""
                      && file.source != NoReader
    ensures r.Ok? ==> FileBytes(kind, file).Ok?
                      && upload(Folder(kind), FileBytes(kind, file).value) == Uploaded(Some(r.value))
  {
    if Precheck(kind, env, file).Some? then Err(Precheck(kind, env, file).value)
    else match FileBytes(kind, file)
      case Err(e) => Err(e)
      case Ok(bytes) =>
        match upload(Folder(kind), bytes)
        case UploadFailed(message) => Err(UploadFailedMessage(kind, message))
        case Uploaded(url) =>
          if url.None? || url.value == "" then Err(NoUrlMessage(kind)) else Ok(url.value)
  }

  /** The errors after the checks pass: a file with no way to read it, an
      upload Cloudinary refuses (its message passed on), and a reply without
      a `secure_url`. */
  lemma UploadFailures(kind: ImageKind, env: Env, file: UploadFile,
                       upload: (string, seq<Byte>) -> UploadReply)
    requires Precheck(kind, env, file).None?
    ensures file.source == NoReader ==> UploadOutcome(kind, env, file, upload) == Err(UnreadableMessage(kind))
    ensures FileBytes(kind, file).Ok? && upload(Folder(kind), FileBytes(kind, file).value).UploadFailed? ==>
              UploadOutcome(kind, env, file, upload)
              == Err(UploadFailedMessage(kind, upload(Folder(kind), FileBytes(kind, file).value).message))
    ensures FileBytes(kind, file).Ok? && upload(Folder(kind), FileBytes(kind, file).value) in {Uploaded(None), Uploaded(Some(""))} ==>
              UploadOutcome(kind, env, file, upload) == Err(NoUrlMessage(kind))
  {
  }

  /** `uploadProfilePhoto` (with `ProfilePhoto`) and `uploadQRCode` (with
      `QrCodeImage`): checks, reads and uploads the file. */
  method UploadImage(kind: ImageKind, env: Env, file: UploadFile,
                     upload: (string, seq<Byte>) -> UploadReply) returns (r: Result<string, string>)
    ensures r == UploadOutcome(kind, env, file, upload)
  {
    var rejected := Precheck(kind, env, file);
    if rejected.Some? {
      return Err(rejected.value);
    }
    var buffer: seq<Byte>;
    match file.source {
      case ArrayBuffer(bytes) =>
        buffer := bytes;
      case Stream(chunks) =>
        buffer := ReadStream(chunks);
      case NoReader =>
        assert FileBytes(kind, file) == Err(UnreadableMessage(kind));
        return Err(UnreadableMessage(kind));
    }
    assert FileBytes(kind, file) == Ok(buffer);
    var reply := upload(Folder(kind), buffer);
    match reply {
      case UploadFailed(message) =>
        r := Err(UploadFailedMessage(kind, message));
      case Uploaded(url) =>
        if url.None? || url.value == "" {
          r := Err(NoUrlMessage(kind));
        } else {
          r := Ok(url.value);
        }
    }
  }

  /** The file sent for a streamed file is byte for byte what an array buffer
      of the same content would send. */
  lemma StreamAndBufferAgree(kind: ImageKind, env: Env, name: string, size: nat, mimeType: string,
                             chunks: seq<seq<Byte>>, upload: (string, seq<Byte>) -> UploadReply)
    ensures UploadOutcome(kind, env, UploadFile(name, size, mimeType, Stream(chunks)), upload)
         == UploadOutcome(kind, env, UploadFile(name, size, mimeType, ArrayBuffer(Flatten(chunks))), upload)
  {
  }

  // ---------------------------------------------------------------------------
  // Public ids
  // ---------------------------------------------------------------------------

  /** `getPublicIdFromUrl`: the second-to-last `/`-segment, `/`, and the last
      segment up to its first `.`. With no `/` at all the folder reads as the
      text `undefined`, which is what the template prints for a missing element. */
  function GetPublicIdFromUrl(url: string): (r: string)
    ensures var parts := Split(url, '/');
            |parts| >= 2 ==> r == parts[|parts| - 2] + "/" + BeforeFirst(parts[|parts| - 1], '.')
    ensures '/' !in url ==> r == "undefined" + "/" + BeforeFirst(url, '.')
  {
    var parts := Split(url, '/');
    var filename := parts[|parts| - 1];
    SplitShape(url, '/');
    SplitShape(filename, '.');
    var publicId := Split(filename, '.')[0];
    var folder := if |parts| >= 2 then parts[|parts| - 2] else "undefined";
    folder + "/" + publicId
  }

  /** A hosted URL `<base>/<folder>/<name>.<ext>` gives back `<folder>/<name>`. */
  lemma PublicIdOfHostedUrl(base: string, folder: string, name: string, ext: string)
    requires '/' !in folder && '/' !in name && '/' !in ext && '.' !in name
    ensures GetPublicIdFromUrl(base + "/" + folder + "/" + name + "." + ext) == folder + "/" + name
  {
    var file := FileNameFree(name, ext);
    var url := base + "/" + folder + "/" + name + "." + ext;
    ConcatRegroup(base + "/" + folder, "/", name, ".", ext);
    assert url == base + "/" + folder + "/" + file;
    var parts := HostedUrlParts(base, folder, file);
    assert parts[|parts| - 2] == folder && parts[|parts| - 1] == file;
    BeforeFirstOfJoined(name, ext, '.');
  }

  /** `<name>.<ext>` holds no `/` when neither part does. */
  lemma FileNameFree(name: string, ext: string) returns (file: string)
    requires '/' !in name && '/' !in ext
    ensures file == name + "." + ext && file == name + ['.'] + ext && '/' !in file
  {
    file := name + "." + ext;
    forall k | 0 <= k < |file| ensures file[k] != '/' {
      if k < |name| { assert file[k] == name[k]; }
      else if k > |name| { assert file[k] == ext[k - |name| - 1]; }
    }
  }

  /** The last two `/`-segments of `<base>/<folder>/<file>` are the folder and the file. */
  lemma HostedUrlParts(base: string, folder: string, file: string) returns (parts: seq<string>)
    requires '/' !in folder && '/' !in file
    ensures parts == Split(base + "/" + folder + "/" + file, '/')
    ensures parts == Split(base, '/') + [folder, file]
  {
    ConcatRegroup(base, "/", folder, "/", file);
    var tail := folder + "/" + file;
    SplitAppend(base, tail, '/');
    SplitAppendFree(folder, file, '/');
    SplitShape(file, '/');
    assert Split(tail, '/') == [folder, file];
    parts := Split(base + "/" + folder + "/" + file, '/');
  }
}
