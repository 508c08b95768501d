/** The reward-image upload rules: the validation chain, the public URL of a stored
    image, the base-URL choice, and which file a delete or replace touches. Writing and
    deleting files stays outside; whether a file exists is passed in. */
module ImageService {
  import opened Wrappers
  import opened DotNet

  const MaxFileSize: nat := 5 * 1024 * 1024
  const AllowedExtensions: seq<string> := [".jpg", ".jpeg", ".png", ".gif", ".webp"]
  const UploadsPath: string := "/uploads/rewards/"
  const FallbackBaseUrl: string := "https://localhost:44375"

  /** The parts of an uploaded `IFormFile` the service looks at. */
  datatype FormFile = FormFile(length: nat, fileName: string, contentType: string)

  /** Why an upload was rejected; each is thrown as an `ArgumentException`. */
  datatype UploadError = NoFileUploaded | FileTooLarge | ExtensionNotAllowed | NotAnImage

  function UploadErrorKind(e: UploadError): (k: ExceptionKind)
    ensures k.IsArgument()
  {
    ArgumentException
  }

  /** The current request's scheme and `Host.Value`. */
  datatype Request = Request(scheme: string, host: string)

  /** What the service reads besides the file: the generated GUID text, the configured
      `AppSettings:BackendUrl`, and the current request if there is one. */
  datatype ImageEnv = ImageEnv(guid: string, backendUrl: Option<string>, request: Option<Request>)

  /** Directory separators on the Windows host the service targets. */
  predicate IsDirectorySeparator(c: char) {
    c == '/' || c == '\\'
  }

  /** `Path.GetExtension`: from the last '.' of the last path component to the end, or
      empty when that component has no '.' or ends in one. */
  function GetExtension(path: string): (r: string)
    ensures r != [] ==> 2 <= |r| <= |path| && r[0] == '.' && r == path[|path| - |r|..]
    ensures r != [] ==> forall k :: |path| - |r| < k < |path| ==> path[k] != '.' && !IsDirectorySeparator(path[k])
    ensures r == [] && path != [] && path[|path| - 1] != '.' ==>
      forall k :: 0 <= k < |path| && path[k] == '.' ==> exists m :: k < m < |path| && IsDirectorySeparator(path[m])
  {
    ExtensionScan(path, |path|)
  }

  /** Scans `path[..i]` from the right; `path[i..]` holds neither '.' nor a separator. */
  function ExtensionScan(path: string, i: nat): (r: string)
    requires i <= |path|
    requires forall k :: i <= k < |path| ==> path[k] != '.' && !IsDirectorySeparator(path[k])
    ensures r != [] ==> 2 <= |r| <= |path| && r[0] == '.' && r == path[|path| - |r|..]
    ensures r != [] ==> forall k :: |path| - |r| < k < |path| ==> path[k] != '.' && !IsDirectorySeparator(path[k])
    ensures r == [] && (i < |path| || (path != [] && path[|path| - 1] != '.')) ==>
      forall k :: 0 <= k < |path| && path[k] == '.' ==> exists m :: k < m < |path| && IsDirectorySeparator(path[m])
    decreases i
  {
    if i == 0 then ""
    else if path[i - 1] == '.' then (if i - 1 != |path| - 1 then path[i - 1..] else "")
    else if IsDirectorySeparator(path[i - 1]) then ""
    else ExtensionScan(path, i - 1)
  }

  /** The validation chain of `SaveRewardImageAsync`: on success, the lower-cased extension. */
  function CheckUpload(file: Option<FormFile>): (r: Result<string, UploadError>)
    ensures r.Ok? ==> file.Some? && 0 < file.value.length <= MaxFileSize
    ensures r.Ok? ==> r.value in AllowedExtensions
    ensures r.Ok? ==> r.value == ToLowerInvariant(GetExtension(file.value.fileName))
    ensures r.Ok? ==> StartsWith(file.value.contentType, "image/")
  {
    if file.None? || file.value.length == 0 then Err(NoFileUploaded)
    else if file.value.length > MaxFileSize then Err(FileTooLarge)
    else
      var ext := ToLowerInvariant(GetExtension(file.value.fileName));
      if ext !in AllowedExtensions then Err(ExtensionNotAllowed)
      else if !StartsWith(file.value.contentType, "image/") then Err(NotAnImage)
      else Ok(ext)
  }

  /** The first failing check decides the error. */
  lemma UploadChecksInOrder(file: Option<FormFile>)
    ensures CheckUpload(file) == Err(NoFileUploaded) <==> file.None? || file.value.length == 0
    ensures CheckUpload(file) == Err(FileTooLarge) <==> file.Some? && file.value.length > MaxFileSize
    ensures CheckUpload(file) == Err(ExtensionNotAllowed) <==>
      file.Some? && 0 < file.value.length <= MaxFileSize
      && ToLowerInvariant(GetExtension(file.value.fileName)) !in AllowedExtensions
    ensures CheckUpload(file) == Err(NotAnImage) <==>
      file.Some? && 0 < file.value.length <= MaxFileSize
      && ToLowerInvariant(GetExtension(file.value.fileName)) in AllowedExtensions
      && !StartsWith(file.value.contentType, "image/")
  {
  }

  /** The size limit is inclusive, and the extension is compared after lower-casing. */
  lemma UploadAtSizeLimit()
    ensures CheckUpload(Some(FormFile(MaxFileSize, "photo.PNG", "image/png"))) == Ok(".png")
  {
    ExtensionOfName("photo", ".PNG");
    assert "photo" + ".PNG" == "photo.PNG";
    assert ToLowerInvariant(".PNG") == ".png";
  }

  /** One byte over the limit is rejected before the name is looked at. */
  lemma UploadOneByteOver()
    ensures CheckUpload(Some(FormFile(MaxFileSize + 1, "photo.png", "image/png"))) == Err(FileTooLarge)
  {
  }

  /** An allowed extension with a content type outside `image/` is rejected. */
  lemma UploadNotAnImage()
    ensures CheckUpload(Some(FormFile(10, "photo.png", "text/plain"))) == Err(NotAnImage)
  {
    ExtensionOfName("photo", ".png");
    assert "photo" + ".png" == "photo.png";
    assert ToLowerInvariant(".png") == ".png";
    assert !StartsWith("text/plain", "image/") by {
      assert "text/plain"[..6][0] != "image/"[0];
    }
  }

  /** An image type whose extension is not on the list is rejected. */
  lemma UploadExtensionNotAllowed()
    ensures CheckUpload(Some(FormFile(10, "photo.bmp", "image/bmp"))) == Err(ExtensionNotAllowed)
  {
    ExtensionOfName("photo", ".bmp");
    assert "photo" + ".bmp" == "photo.bmp";
    assert ToLowerInvariant(".bmp") == ".bmp";
  }

  /** A name ending in '.' followed by at least one character other than '.' and the
      separators has exactly that ending as its extension. */
  lemma ExtensionOfName(stem: string, ext: string)
    requires |ext| >= 2 && ext[0] == '.'
    requires forall k :: 1 <= k < |ext| ==> ext[k] != '.' && !IsDirectorySeparator(ext[k])
    ensures GetExtension(stem + ext) == ext
  {
    var path := stem + ext;
    var r := GetExtension(path);
    assert path[|stem|] == '.';
    assert path[|path| - 1] == ext[|ext| - 1];
    assert forall m :: |stem| < m < |path| ==> path[m] == ext[m - |stem|];
    assert r != [];
    assert path[|path| - |r|] == '.';
    assert |r| == |ext|;
    assert path[|stem|..] == ext;
  }

  /** `GetBaseUrl`: the configured backend URL without trailing slashes; failing that,
      `scheme://host` of the current request; failing that, the development address. */
  function GetBaseUrl(env: ImageEnv): (r: string)
    ensures !IsNullOrEmpty(env.backendUrl) ==>
      && StartsWith(env.backendUrl.value, r)
      && (r == [] || r[|r| - 1] != '/')
      && forall k :: |r| <= k < |env.backendUrl.value| ==> env.backendUrl.value[k] == '/'
    ensures IsNullOrEmpty(env.backendUrl) && env.request.Some? ==>
      r == env.request.value.scheme + "://" + env.request.value.host
    ensures IsNullOrEmpty(env.backendUrl) && env.request.None? ==> r == FallbackBaseUrl
  {
    if !IsNullOrEmpty(env.backendUrl) then TrimEnd(env.backendUrl.value, '/')
    else if env.request.Some? then env.request.value.scheme + "://" + env.request.value.host
    else FallbackBaseUrl
  }

  /** `SaveRewardImageAsync`: the full public URL of the stored image, named by the GUID
      and the lower-cased extension. */
  function SaveRewardImage(file: Option<FormFile>, env: ImageEnv): (r: Result<string, UploadError>)
    ensures r.Err? <==> CheckUpload(file).Err?
    ensures r.Err? ==> r.error == CheckUpload(file).error
    ensures r.Ok? ==> r.value == GetBaseUrl(env) + UploadsPath + env.guid + CheckUpload(file).value
  {
    match CheckUpload(file)
    case Err(e) => Err(e)
    case Ok(ext) => Ok(GetBaseUrl(env) + UploadsPath + env.guid + ext)
  }

  /** The stored file name is recoverable from the URL the upload returns. */
  lemma SavedUrlNamesFile(file: Option<FormFile>, env: ImageEnv)
    requires SaveRewardImage(file, env).Ok?
    requires forall k :: 0 <= k < |env.guid| ==> !IsDirectorySeparator(env.guid[k])
    ensures FileName(SaveRewardImage(file, env).value) == env.guid + CheckUpload(file).value
  {
    var ext := CheckUpload(file).value;
    var prefix := GetBaseUrl(env) + UploadsPath;
    AcceptedExtensionHasNoSeparator(file);
    JoinHasNoSeparator(env.guid, ext);
    assert prefix[|prefix| - 1] == '/';
    assert SaveRewardImage(file, env).value == prefix + (env.guid + ext);
    FileNameOfSuffix(prefix, env.guid + ext);
  }

  /** Joining two separator-free strings gives a separator-free string. */
  lemma JoinHasNoSeparator(a: string, b: string)
    requires forall k :: 0 <= k < |a| ==> !IsDirectorySeparator(a[k])
    requires forall k :: 0 <= k < |b| ==> !IsDirectorySeparator(b[k])
    ensures forall k :: 0 <= k < |a + b| ==> !IsDirectorySeparator((a + b)[k])
  {
  }

  /** None of the allowed extensions holds a directory separator. */
  lemma AllowedExtensionHasNoSeparator(ext: string)
    requires ext in AllowedExtensions
    ensures forall k :: 0 <= k < |ext| ==> !IsDirectorySeparator(ext[k])
  {
    assert ext == ".jpg" || ext == ".jpeg" || ext == ".png" || ext == ".gif" || ext == ".webp";
  }

  /** So neither does the extension of an accepted upload. */
  lemma AcceptedExtensionHasNoSeparator(file: Option<FormFile>)
    requires CheckUpload(file).Ok?
    ensures forall k :: 0 <= k < |CheckUpload(file).value| ==> !IsDirectorySeparator(CheckUpload(file).value[k])
  {
    AllowedExtensionHasNoSeparator(CheckUpload(file).value);
  }

  /** `Path.GetFileName`: the part after the last directory separator. */
  function FileName(path: string): (r: string)
    ensures |r| <= |path| && r == path[|path| - |r|..]
    ensures forall k :: |path| - |r| <= k < |path| ==> !IsDirectorySeparator(path[k])
    ensures |r| < |path| ==> IsDirectorySeparator(path[|path| - |r| - 1])
  {
    path[FileNameStart(path, |path|)..]
  }

  /** Scans `path[..i]` from the right for the last separator; `path[i..]` holds none. */
  function FileNameStart(path: string, i: nat): (r: nat)
    requires i <= |path|
    requires forall k :: i <= k < |path| ==> !IsDirectorySeparator(path[k])
    ensures r <= i
    ensures forall k :: r <= k < |path| ==> !IsDirectorySeparator(path[k])
    ensures r > 0 ==> IsDirectorySeparator(path[r - 1])
    decreases i
  {
    if i == 0 || IsDirectorySeparator(path[i - 1]) then i
    else FileNameStart(path, i - 1)
  }

  /** The file name of `prefix + name`, when `prefix` ends in a separator and `name`
      holds none, is `name`. */
  lemma FileNameOfSuffix(prefix: string, name: string)
    requires prefix != [] && IsDirectorySeparator(prefix[|prefix| - 1])
    requires forall k :: 0 <= k < |name| ==> !IsDirectorySeparator(name[k])
    ensures FileName(prefix + name) == name
  {
    var path := prefix + name;
    var r := FileName(path);
    assert path[|prefix| - 1] == prefix[|prefix| - 1];
    assert forall m :: |prefix| <= m < |path| ==> path[m] == name[m - |prefix|];
    assert |r| == |name|;
    assert path[|prefix|..] == name;
  }

  /** The first index in `s` of a character in `cs`, or `|s|`. */
  function IndexOfAny(s: string, cs: set<char>): (r: nat)
    ensures r <= |s|
    ensures r < |s| ==> s[r] in cs
    ensures forall k :: 0 <= k < r ==> s[k] !in cs
  {
    if s == [] then 0
    else if s[0] in cs then 0
    else 1 + IndexOfAny(s[1..], cs)
  }

  /** `new Uri(url).LocalPath` for an absolute URL: the path after the authority,
      without query or fragment, "/" when empty; `None` where the constructor throws
      because `url` has no "scheme://". Percent-decoding is not modelled. */
  function LocalPath(url: string): (r: Option<string>)
    ensures r.Some? ==> r.value != [] && r.value[0] == '/'
  {
    var c := IndexOfAny(url, {':'});
    if c + 3 > |url| || url[c..c + 3] != "://" then None
    else
      var rest := url[c + 3..];
      var afterAuthority := rest[IndexOfAny(rest, {'/', '?', '#'})..];
      var path := afterAuthority[..IndexOfAny(afterAuthority, {'?', '#'})];
      Some(if path == [] then "/" else path)
  }

  /** The file name `DeleteRewardImage` looks for, or `None` when parsing the URL throws. */
  function ImageFileName(imageUrl: string): (r: Option<string>)
    ensures r.Some? ==> forall k :: 0 <= k < |r.value| ==> !IsDirectorySeparator(r.value[k])
    ensures StartsWith(imageUrl, "http") ==> (r.Some? <==> LocalPath(imageUrl).Some?)
    ensures !StartsWith(imageUrl, "http") ==>
      r.Some? && |r.value| <= |imageUrl| && r.value == imageUrl[|imageUrl| - |r.value|..]
  {
    if StartsWith(imageUrl, "http") then
      match LocalPath(imageUrl)
      case None => None
      case Some(p) => Some(FileName(p))
    else Some(FileName(imageUrl))
  }

  /** `DeleteRewardImage`: true exactly when the URL names a file that exists in the
      rewards upload folder (which is then deleted). It never throws: a blank URL or a
      URL that cannot be parsed gives false. */
  function DeleteRewardImage(imageUrl: Option<string>, fileExists: string -> bool): (r: bool)
    ensures IsNullOrWhiteSpace(imageUrl) ==> !r
    ensures r <==> !IsNullOrWhiteSpace(imageUrl) && ImageFileName(imageUrl.value).Some?
                   && ImageFileName(imageUrl.value).value != "" && fileExists(ImageFileName(imageUrl.value).value)
  {
    if IsNullOrWhiteSpace(imageUrl) then false
    else
      match ImageFileName(imageUrl.value)
      case None => false
      case Some(name) => name != "" && fileExists(name)
  }

  /** A relative path is looked up by its last component. */
  lemma DeleteRelativePath(imageUrl: string, fileExists: string -> bool)
    requires !IsNullOrWhiteSpace(Some(imageUrl)) && !StartsWith(imageUrl, "http")
    ensures DeleteRewardImage(Some(imageUrl), fileExists) == (FileName(imageUrl) != "" && fileExists(FileName(imageUrl)))
  {
  }

  /** What `UpdateRewardImageAsync` did: whether it tried to delete the old image,
      whether a file was deleted, and the outcome of saving the new one. */
  datatype ImageReplacement = ImageReplacement(deleteAttempted: bool, oldDeleted: bool, newUrl: Result<string, UploadError>)

  /** `UpdateRewardImageAsync`: deletes the old image when its URL is not blank, then
      saves the new file. */
  function UpdateRewardImage(oldImageUrl: Option<string>, newFile: Option<FormFile>, env: ImageEnv,
                             fileExists: string -> bool): (r: ImageReplacement)
    ensures r.deleteAttempted <==> !IsNullOrWhiteSpace(oldImageUrl)
    ensures r.oldDeleted ==> r.deleteAttempted
    ensures r.oldDeleted == DeleteRewardImage(oldImageUrl, fileExists)
    ensures r.newUrl == SaveRewardImage(newFile, env)
  {
    var attempted := !IsNullOrWhiteSpace(oldImageUrl);
    var deleted := if attempted then DeleteRewardImage(oldImageUrl, fileExists) else false;
    ImageReplacement(attempted, deleted, SaveRewardImage(newFile, env))
  }

  /** The old image is deleted before the new file is validated, so a rejected
      replacement still removes it. */
  lemma RejectedReplacementStillDeletes(oldImageUrl: Option<string>, newFile: Option<FormFile>, env: ImageEnv,
                                        fileExists: string -> bool)
    requires DeleteRewardImage(oldImageUrl, fileExists)
    requires CheckUpload(newFile).Err?
    ensures UpdateRewardImage(oldImageUrl, newFile, env, fileExists).oldDeleted
    ensures UpdateRewardImage(oldImageUrl, newFile, env, fileExists).newUrl.Err?
  {
  }
}
