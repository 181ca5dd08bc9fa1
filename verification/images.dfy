/**
 * Uploaded files: the image service's checks and paths, and the file store they are
 * written to. The store is the set of file paths under the application's root
 * directory, written relative to it ("uploads/presets/before/x.png").
 */
module Images {
  import opened Wrappers
  import opened Text
  import opened Guids
  import opened Models

  /** The largest image accepted: 10 MiB. */
  const MAX_IMAGE_SIZE: int := 10 * 1024 * 1024

  const ALLOWED_IMAGE_EXTENSIONS: seq<string> := [".jpg", ".jpeg", ".png", ".webp"]
  const ALLOWED_IMAGE_TYPES: seq<string> := ["image/jpeg", "image/jpg", "image/png", "image/webp"]

  /** The files under the root directory, as paths relative to it. */
  class FileStore {
    var files: set<string>

    constructor (files: set<string>)
      ensures this.files == files
    {
      this.files := files;
    }

    /** The path below the root that a returned URL such as "/uploads/a/b.png" names. */
    static function KeyOf(url: string): (key: string)
      ensures IsSuffix(key, url) && (key == "" || key[0] != '/')
    {
      TrimStart(url, '/')
    }

    /**
     * Delete the file a URL names: nothing happens for an empty URL or a missing
     * file; `existed` tells whether a file was deleted.
     */
    method Delete(url: string) returns (existed: bool)
      modifies this
      ensures existed <==> url != "" && KeyOf(url) in old(files)
      ensures files == if url == "" then old(files) else old(files) - {KeyOf(url)}
    {
      if url == "" {
        return false;
      }
      var key := KeyOf(url);
      existed := key in files;
      if existed {
        files := files - {key};
      }
    }
  }

  /** The four checks of `ValidateImage`, each of which the upload must pass. */
  ghost predicate ImageAccepted(file: Option<FormFile>) {
    && file.Some?
    && 0 < file.value.length <= MAX_IMAGE_SIZE
    && ToLowerInvariant(GetExtension(file.value.fileName)) in ALLOWED_IMAGE_EXTENSIONS
    && ToLowerInvariant(file.value.contentType) in ALLOWED_IMAGE_TYPES
  }

  /**
   * `ValidateImage(file)`: false for a missing or empty file, then for one over 10 MiB,
   * then for an extension outside the allowed list, then for a content type outside
   * it; both comparisons are made on the lower-cased value.
   */
  function ValidateImage(file: Option<FormFile>): (ok: bool)
    ensures ok <==> ImageAccepted(file)
  {
    if file.None? || file.value.length == 0 then false
    else if file.value.length > MAX_IMAGE_SIZE then false
    else if ToLowerInvariant(GetExtension(file.value.fileName)) !in ALLOWED_IMAGE_EXTENSIONS then false
    else if ToLowerInvariant(file.value.contentType) !in ALLOWED_IMAGE_TYPES then false
    else true
  }

  /**
   * Content types are compared after invariant lower-casing: "IMAGE/PNG" passes, but
   * a capital I with dot above is kept as it is and fails.
   */
  lemma ContentTypeCase(name: string, length: nat)
    requires ToLowerInvariant(GetExtension(name)) in ALLOWED_IMAGE_EXTENSIONS
    requires 0 < length <= MAX_IMAGE_SIZE
    ensures ValidateImage(Some(FormFile(name, length, "IMAGE/PNG")))
    ensures !ValidateImage(Some(FormFile(name, length, "\U{130}MAGE/PNG")))
  {
    assert ToLowerInvariant("IMAGE/PNG") == "image/png";
    assert ToLowerInvariant("\U{130}MAGE/PNG")[0] == '\U{130}';
  }

  /** The size limit is inclusive: a file of exactly 10 MiB passes it, one byte more does not. */
  lemma ImageSizeBoundary(name: string, contentType: string)
    requires ToLowerInvariant(GetExtension(name)) in ALLOWED_IMAGE_EXTENSIONS
    requires ToLowerInvariant(contentType) in ALLOWED_IMAGE_TYPES
    ensures ValidateImage(Some(FormFile(name, MAX_IMAGE_SIZE, contentType)))
    ensures !ValidateImage(Some(FormFile(name, MAX_IMAGE_SIZE + 1, contentType)))
  {
  }

  /** The URL `SaveImageAsync` returns: the folder, a fresh GUID and the extension as uploaded. */
  function ImageUrl(folder: string, g: Guid, fileName: string): (url: string)
    ensures |url| > |"/uploads/" + folder + "/"| && url[..|"/uploads/" + folder + "/"|] == "/uploads/" + folder + "/"
  {
    "/uploads/" + folder + "/" + FormatD(g) + GetExtension(fileName)
  }

  /** A path made of `prefix`, a segment of neither dots nor separators, and then `ext`, has extension `ext`. */
  lemma {:induction false} ExtensionAfterPlainSegment(prefix: string, segment: string, ext: string)
    requires |prefix| > 0 && prefix[|prefix| - 1] == '/'
    requires forall k :: 0 <= k < |segment| ==> segment[k] != '.' && segment[k] != '/'
    requires ext == "" || IsExtension(ext)
    ensures GetExtension(prefix + segment + ext) == ext
  {
    var path := prefix + segment + ext;
    if ext != "" {
      assert path[|prefix| + |segment|..] == ext;
    } else {
      assert path == prefix + segment;
      var i := |path|;
      while i > |prefix|
        invariant |prefix| <= i <= |path|
        invariant ExtensionBefore(path, i) == ExtensionBefore(path, |path|)
      {
        assert path[i - 1] == segment[i - 1 - |prefix|];
        i := i - 1;
      }
      assert path[i - 1] == '/';
    }
  }

  /** The saved file keeps the uploaded extension: the returned URL's extension is the upload's, case and all. */
  lemma ImageUrlExtension(folder: string, g: Guid, fileName: string)
    ensures GetExtension(ImageUrl(folder, g, fileName)) == GetExtension(fileName)
  {
    var prefix := "/uploads/" + folder + "/";
    assert ImageUrl(folder, g, fileName) == prefix + FormatD(g) + GetExtension(fileName);
    ExtensionAfterPlainSegment(prefix, FormatD(g), GetExtension(fileName));
  }

  /** Uploads saved under different GUIDs get different URLs, whatever their names. */
  lemma ImageUrlsDistinct(folder: string, g: Guid, h: Guid, name: string, otherName: string)
    requires g != h
    ensures ImageUrl(folder, g, name) != ImageUrl(folder, h, otherName)
  {
    var prefix := "/uploads/" + folder + "/";
    var u := ImageUrl(folder, g, name);
    var v := ImageUrl(folder, h, otherName);
    FormatDInjective(g, h);
    assert u[|prefix|..|prefix| + 36] == FormatD(g);
    assert v[|prefix|..|prefix| + 36] == FormatD(h);
  }

  /** The URL an optional image upload is saved under. */
  function NewImageUrl(file: Option<FormFile>, folder: string, g: Guid): Option<string> {
    if file.Some? then Some(ImageUrl(folder, g, file.value.fileName)) else None
  }

  /** The file a stored URL names, if it names one. */
  function UrlKey(url: Option<string>): set<string> {
    if IsNullOrEmpty(url) then {} else {FileStore.KeyOf(url.value)}
  }

  /** The files after one slot's replacement: when an upload is given, the old file goes and the new one comes. */
  function AfterReplace(files: set<string>, given: bool, current: Option<string>, replacement: Option<string>): set<string> {
    if given then files - UrlKey(current) + UrlKey(replacement) else files
  }

  /** The image service writes to the file store. */
  class ImageService {
    const store: FileStore

    constructor (store: FileStore)
      ensures this.store == store
    {
      this.store := store;
    }

    /**
     * `SaveImageAsync(file, folder)`: an upload that fails validation throws
     * `ArgumentException("Invalid image file")` and writes nothing; otherwise the file
     * is written under "uploads/{folder}" with a fresh name, and its URL returned.
     */
    method SaveImage(file: FormFile, folder: string, g: Guid) returns (r: Result<string, Exception>)
      modifies store
      ensures r.Failure? <==> !ImageAccepted(Some(file))
      ensures r.Failure? ==> r.error == ArgumentException("Invalid image file") && store.files == old(store.files)
      ensures r.Success? ==> r.value == ImageUrl(folder, g, file.fileName)
      ensures r.Success? ==> store.files == old(store.files) + {FileStore.KeyOf(r.value)}
    {
      if !ValidateImage(Some(file)) {
        return Failure(ArgumentException("Invalid image file"));
      }
      var fileName := FormatD(g) + GetExtension(file.fileName);
      var url := "/uploads/" + folder + "/" + fileName;
      store.files := store.files + {FileStore.KeyOf(url)};
      r := Success(url);
    }

    /** `if (file != null) url = await SaveImageAsync(file, folder)`: the URL of the upload, if there is one. */
    method SaveOptional(file: Option<FormFile>, folder: string, g: Guid) returns (r: Result<Option<string>, Exception>)
      modifies store
      ensures r.Success? <==> file.None? || ImageAccepted(file)
      ensures r.Failure? ==> r.error == ArgumentException("Invalid image file") && store.files == old(store.files)
      ensures r.Success? ==> r.value == NewImageUrl(file, folder, g)
      ensures r.Success? ==> store.files == old(store.files) + UrlKey(r.value)
    {
      if file.None? {
        return Success(None);
      }
      var saved := SaveImage(file.value, folder, g);
      if saved.Failure? {
        return Failure(saved.error);
      }
      SavedImageKey(folder, g, file.value.fileName);
      r := Success(Some(saved.value));
    }

    /**
     * The replacement of one image slot by an upload: when there is an upload, the old
     * image (if any) is deleted and the new one saved; without one the slot keeps its URL.
     */
    method ReplaceOptional(current: Option<string>, file: Option<FormFile>, folder: string, g: Guid)
      returns (r: Result<Option<string>, Exception>)
      modifies store
      ensures r.Success? <==> file.None? || ImageAccepted(file)
      ensures r.Failure? ==> r.error == ArgumentException("Invalid image file")
      ensures file.None? ==> r == Success(current) && store.files == old(store.files)
      ensures file.Some? && r.Failure? ==> store.files == old(store.files) - UrlKey(current)
      ensures file.Some? && r.Success? ==>
        r.value == NewImageUrl(file, folder, g) && store.files == old(store.files) - UrlKey(current) + UrlKey(r.value)
    {
      if file.None? {
        return Success(current);
      }
      if !IsNullOrEmpty(current) {
        var _ := DeleteImage(current.value);
      }
      r := SaveOptional(file, folder, g);
    }

    /** `if (!string.IsNullOrEmpty(url)) await DeleteImageAsync(url)`. */
    method DeleteIfPresent(url: Option<string>)
      modifies store
      ensures store.files == old(store.files) - UrlKey(url)
    {
      if !IsNullOrEmpty(url) {
        var _ := DeleteImage(url.value);
      }
    }

    /** `DeleteImageAsync(path)`: true only when the file existed, and then it is gone. */
    method DeleteImage(url: string) returns (deleted: bool)
      modifies store
      ensures deleted <==> url != "" && FileStore.KeyOf(url) in old(store.files)
      ensures store.files == if url == "" then old(store.files) else old(store.files) - {FileStore.KeyOf(url)}
    {
      deleted := store.Delete(url);
    }
  }

  /** The file a saved image's URL names is the one that was written, so deleting by that URL removes it. */
  lemma SavedImageKey(folder: string, g: Guid, fileName: string)
    ensures FileStore.KeyOf(ImageUrl(folder, g, fileName)) == "uploads/" + folder + "/" + FormatD(g) + GetExtension(fileName)
    ensures ImageUrl(folder, g, fileName) != ""
  {
    var url := ImageUrl(folder, g, fileName);
    assert url == "/" + ("uploads/" + folder + "/" + FormatD(g) + GetExtension(fileName));
    assert url[1..] == "uploads/" + folder + "/" + FormatD(g) + GetExtension(fileName);
    assert url[1..][0] == 'u' && TrimStart(url[1..], '/') == url[1..];
  }
}
