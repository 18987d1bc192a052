/** Image assets (db.py, class Asset): the allow-list of extensions, the
    random file-name stem ("salt"), and the public URL of the stored object.
    The image itself, its decoding and its upload are not modelled: the
    extension the MIME guess yields, the random draws, whether and how
    decoding fails, the decoded size and whether and how the upload fails
    are parameters. */
module Assets {
  import opened Wrappers
  import opened PickUp

  /** The file types an asset may have. */
  const Extensions: seq<string> := ["png", "gif", "jpg", "jpeg"]

  /** Upper-case ASCII letters followed by decimal digits. */
  const SaltAlphabet: string := "ABCDEFGHIJKLMNOPQRSTUVWXYZ0123456789"

  const SaltLength := 16

  /** A salt is 16 characters, each an upper-case letter or a digit. */
  predicate IsSalt(s: string) {
    |s| == SaltLength && forall i :: 0 <= i < |s| ==> s[i] in SaltAlphabet
  }

  /** The public base URL of the storage bucket. */
  function BucketUrl(bucket: string): string {
    "https://" + bucket + ".s3.us-east-1.amazonaws.com"
  }

  /** The name the image is uploaded under: `salt.extension`. */
  function FileName(salt: string, extension: string): string {
    salt + "." + extension
  }

  /** The public URL `Asset.serialize` reports. */
  function Url(baseUrl: string, salt: string, extension: string): string {
    baseUrl + "/" + salt + "." + extension
  }

  /** The last path segment of `s`: what follows its last '/'. */
  function LastSegment(s: string): (r: string)
    ensures |r| <= |s| && '/' !in r
  {
    if s == [] || s[|s| - 1] == '/' then [] else LastSegment(s[..|s| - 1]) + [s[|s| - 1]]
  }

  lemma {:induction false} LastSegmentAfterSlash(prefix: string, name: string)
    requires '/' !in name
    ensures LastSegment(prefix + "/" + name) == name
  {
    if name != [] {
      var init := name[..|name| - 1];
      assert prefix + "/" + name == (prefix + "/" + init) + [name[|name| - 1]];
      assert (prefix + "/" + name)[..|prefix + "/" + name| - 1] == prefix + "/" + init;
      assert forall c :: c in init ==> c in name;
      LastSegmentAfterSlash(prefix, init);
      assert init + [name[|name| - 1]] == name;
    } else {
      assert prefix + "/" + name == prefix + "/";
    }
  }

  /** The URL names exactly the object that was uploaded: its last segment is
      the upload's file name, whatever the base URL. */
  lemma UrlNamesUploadedFile(baseUrl: string, salt: string, extension: string)
    requires IsSalt(salt)
    requires '/' !in extension
    ensures LastSegment(Url(baseUrl, salt, extension)) == FileName(salt, extension)
  {
    assert '/' !in SaltAlphabet;
    assert '/' !in salt;
    assert '/' !in FileName(salt, extension);
    assert Url(baseUrl, salt, extension) == baseUrl + "/" + FileName(salt, extension);
    LastSegmentAfterSlash(baseUrl, FileName(salt, extension));
  }

  /** Builds the salt from 16 draws, each an index into the alphabet (the
      draws stand for the system random source). */
  method MakeSalt(draws: seq<int>) returns (salt: string)
    requires |draws| == SaltLength
    requires forall i :: 0 <= i < |draws| ==> 0 <= draws[i] < |SaltAlphabet|
    ensures IsSalt(salt)
    ensures forall i :: 0 <= i < SaltLength ==> salt[i] == SaltAlphabet[draws[i]]
  {
    salt := "";
    for i := 0 to SaltLength
      invariant |salt| == i
      invariant forall j :: 0 <= j < i ==> salt[j] == SaltAlphabet[draws[j]]
    {
      salt := salt + [SaltAlphabet[draws[i]]];
    }
  }

  datatype AssetView = AssetView(url: string, createdAt: Timestamp)

  /** An asset row. Its fields stay unset when creation fails: the failure is
      only printed, and the object is left as it was. */
  class Asset {
    var baseUrl: Option<string>
    var salt: Option<string>
    var extension: Option<string>
    var width: Option<int>
    var height: Option<int>
    var createdAt: Option<Timestamp>
    /** What creation printed. */
    var log: seq<string>

    predicate Built()
      reads this
    {
      baseUrl.Some? && salt.Some? && extension.Some? && width.Some? && height.Some? && createdAt.Some?
    }

    /** `Asset.__init__` and `Asset.create`: rejects an extension outside the
        allow-list, then an image that does not decode; otherwise draws the
        salt, sets every field and uploads the image. A failed upload is only
        printed: the fields stay set. `decodeError` and `uploadError` are the
        messages of the exceptions decoding and uploading raise, if any. */
    constructor (ext: string, draws: seq<int>, decodeError: Option<string>, imageWidth: int, imageHeight: int,
                 now: Timestamp, bucket: string, uploadError: Option<string>)
      requires |draws| == SaltLength
      requires forall i :: 0 <= i < |draws| ==> 0 <= draws[i] < |SaltAlphabet|
      ensures Built() <==> ext in Extensions && decodeError.None?
      ensures Built() ==>
        (&& IsSalt(salt.value)
         && (forall i :: 0 <= i < SaltLength ==> salt.value[i] == SaltAlphabet[draws[i]])
         && baseUrl == Some(BucketUrl(bucket)) && extension == Some(ext)
         && width == Some(imageWidth) && height == Some(imageHeight) && createdAt == Some(now)
         && log == (if uploadError.Some? then ["Error when uploading image: " + uploadError.value] else []))
      ensures !Built() ==>
        (&& baseUrl.None? && salt.None? && extension.None? && width.None? && height.None? && createdAt.None?)
      ensures ext !in Extensions ==> log == ["Error when creating image: Unsupported file type: " + ext]
      ensures ext in Extensions && decodeError.Some? ==> log == ["Error when creating image: " + decodeError.value]
    {
      baseUrl, salt, extension := None, None, None;
      width, height, createdAt := None, None, None;
      log := [];
      new;
      if ext !in Extensions {
        log := ["Error when creating image: Unsupported file type: " + ext];
      } else {
        var s := MakeSalt(draws);
        if decodeError.Some? {
          log := ["Error when creating image: " + decodeError.value];
        } else {
          baseUrl := Some(BucketUrl(bucket));
          salt := Some(s);
          extension := Some(ext);
          width := Some(imageWidth);
          height := Some(imageHeight);
          createdAt := Some(now);
          if uploadError.Some? {
            log := ["Error when uploading image: " + uploadError.value];
          }
        }
      }
    }

    /** `Asset.serialize`. */
    function Serialize(): (v: AssetView)
      reads this
      requires Built()
      ensures v.createdAt == createdAt.value
      ensures v.url == baseUrl.value + "/" + FileName(salt.value, extension.value)
    {
      AssetView(Url(baseUrl.value, salt.value, extension.value), createdAt.value)
    }
  }
}
