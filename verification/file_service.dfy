/** internal/service/file_service.go: upload validation and the storage key
    and URL of an uploaded file. The object store is not modelled; the one
    upload call is reported as the key it was asked to store, and its error
    is an input. */
module FileService {
  import opened Wrappers
  import Constants

  /** The extensions the service accepts, compared exactly (no case folding). */
  const AllowedExtensions: set<string> := {".jpg", ".png", ".mp4", ".mkv", ".jpeg"}

  /** filepath.Ext with '/' as the separator: the suffix starting at the last
      '.' of the final path element, or "" when that element has no '.'. */
  function Ext(path: string): (r: string)
    ensures |r| <= |path| && r == path[|path| - |r|..]
    ensures r != "" ==> r[0] == '.' && forall i :: 1 <= i < |r| ==> r[i] != '.' && r[i] != '/'
    ensures r == "" ==> forall i :: 0 <= i < |path| && path[i] == '.' ==> exists j :: i < j < |path| && path[j] == '/'
  {
    if path == [] then ""
    else
      var last := path[|path| - 1];
      var init := path[..|path| - 1];
      if last == '/' then ""
      else if last == '.' then "."
      else
        var e := Ext(init);
        if e == "" then "" else e + [last]
  }

  /** A name ending in an extension has that extension, whatever comes
      before it. */
  lemma {:induction false} ExtOfSuffix(base: string, ext: string)
    requires ext != [] && ext[0] == '.'
    requires forall i :: 1 <= i < |ext| ==> ext[i] != '.' && ext[i] != '/'
    ensures Ext(base + ext) == ext
  {
    if |ext| > 1 {
      var init := ext[..|ext| - 1];
      ExtOfSuffix(base, init);
      assert (base + ext)[..|base + ext| - 1] == base + init;
    } else {
      assert (base + ext)[|base + ext| - 1] == '.';
    }
  }

  /** A dot in a directory name is no extension: a final element without a
      dot has none. */
  lemma {:induction false} ExtOfDotlessElement(dir: string, name: string)
    requires '.' !in name && '/' !in name
    ensures Ext(dir + "/" + name) == ""
  {
    if name != [] {
      var init := name[..|name| - 1];
      ExtOfDotlessElement(dir, init);
      assert (dir + "/" + name)[..|dir + "/" + name| - 1] == dir + "/" + init;
      assert name[|name| - 1] in name;
    } else {
      assert (dir + "/" + name)[|dir + "/" + name| - 1] == '/';
    }
  }

  /** The check is case-sensitive: an upper-case extension is refused. */
  lemma UpperCaseRefused(base: string)
    ensures Ext(base + ".JPG") == ".JPG" && Ext(base + ".JPG") !in AllowedExtensions
    ensures Ext(base + ".jpg") == ".jpg" && Ext(base + ".jpg") in AllowedExtensions
  {
    ExtOfSuffix(base, ".JPG");
    ExtOfSuffix(base, ".jpg");
  }

  /** A file name with no dot has no extension and is refused. */
  lemma NoDotRefused(fileName: string)
    requires '.' !in fileName
    ensures Ext(fileName) == "" && Ext(fileName) !in AllowedExtensions
  {
  }

  /** The payload: something that is an io.Reader (its bytes), or not. */
  datatype FileData = Reader(bytes: seq<bv8>) | NotReader

  /** The call's effect and answer: the key handed to the store, if any
      upload was attempted, and the URL or the error. */
  datatype Upload = Upload(uploadedKey: Option<string>, result: Result<string>)

  function StorageKey(fileName: string): (key: string)
    ensures |key| == |fileName| + 8 && key[..8] == "uploads/" && key[8..] == fileName
  {
    "uploads/" + fileName
  }

  /** The URL is built from the constant names themselves, not from the
      environment's values. */
  const UrlPrefix: string := "https://" + Constants.EnvS3Bucket + ".s3." + Constants.EnvAWSRegion + ".amazonaws.com/"

  function ObjectUrl(key: string): (url: string)
    ensures |url| == |UrlPrefix| + |key| && url[..|UrlPrefix|] == UrlPrefix && url[|UrlPrefix|..] == key
  {
    UrlPrefix + key
  }

  /** The URL of an upload gives back its storage key and, past "uploads/",
      its file name. */
  lemma UrlNamesTheFile(fileName: string)
    ensures ObjectUrl(StorageKey(fileName))[|UrlPrefix|..] == StorageKey(fileName)
    ensures ObjectUrl(StorageKey(fileName))[|UrlPrefix| + 8..] == fileName
  {
    var url := ObjectUrl(StorageKey(fileName));
    assert url[|UrlPrefix| + 8..] == url[|UrlPrefix|..][8..];
  }

  /** UploadFile: refuse a disallowed extension, then a payload that is not
      a reader, each before any upload; otherwise upload under the key and
      return the upload's error unchanged, or the URL. */
  function UploadFile(fileName: string, fileData: FileData, uploadErr: Option<Error>): (u: Upload)
    ensures u.uploadedKey.Some? <==> Ext(fileName) in AllowedExtensions && fileData.Reader?
    ensures u.uploadedKey.Some? ==> u.uploadedKey.value == "uploads/" + fileName
    ensures Ext(fileName) !in AllowedExtensions ==> u.result == Err(New("file type not allowed"))
    ensures Ext(fileName) in AllowedExtensions && fileData.NotReader? ==> u.result == Err(New("invalid file reader"))
    ensures u.uploadedKey.Some? && uploadErr.Some? ==> u.result == Err(uploadErr.value)
    ensures u.result.Ok? <==> u.uploadedKey.Some? && uploadErr.None?
    ensures u.result.Ok? ==> u.result.value == UrlPrefix + "uploads/" + fileName
  {
    if Ext(fileName) !in AllowedExtensions then Upload(None, Err(New("file type not allowed")))
    else
      var key := StorageKey(fileName);
      if fileData.NotReader? then Upload(None, Err(New("invalid file reader")))
      else if uploadErr.Some? then Upload(Some(key), Err(uploadErr.value))
      else Upload(Some(key), Ok(ObjectUrl(key)))
  }
}
