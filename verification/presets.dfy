/**
 * The preset service: the active-preset listing, lookup, creation with optional
 * uploads, partial update with replacement of uploads, deletion, and the checks and
 * path of an uploaded preset file.
 */
module Presets {
  import opened Wrappers
  import opened Text
  import opened Guids
  import opened Ordering
  import opened Tables
  import opened Models
  import opened Schema
  import opened Images

  const BEFORE_FOLDER: string := "presets/before"
  const AFTER_FOLDER: string := "presets/after"

  // ---------------------------------------------------------------------------
  // Preset files
  // ---------------------------------------------------------------------------

  const ALLOWED_PRESET_EXTENSIONS: seq<string> := [".zip", ".lrtemplate", ".xmp", ".dng"]

  /** The largest preset file accepted: 50 MiB. */
  const MAX_PRESET_FILE_SIZE: int := 50 * 1024 * 1024

  const INVALID_PRESET_FILE: string := "Invalid preset file"
  const INVALID_PRESET_FILE_TYPE: string := "Invalid file type. Allowed: ZIP, LRTEMPLATE, XMP, DNG"
  const PRESET_FILE_TOO_LARGE: string := "File size exceeds 50MB limit"

  /**
   * The checks of `SavePresetFileAsync`, in their order: an empty file, then an
   * extension (compared lower-cased) outside the allowed list, then a size over
   * 50 MiB. An accepted file yields its lower-cased extension.
   */
  function CheckPresetFile(file: FormFile): (r: Result<string, Exception>)
    ensures file.length == 0 ==> r == Failure(ArgumentException(INVALID_PRESET_FILE))
    ensures file.length != 0 && ToLowerInvariant(GetExtension(file.fileName)) !in ALLOWED_PRESET_EXTENSIONS ==>
      r == Failure(ArgumentException(INVALID_PRESET_FILE_TYPE))
    ensures file.length > MAX_PRESET_FILE_SIZE && ToLowerInvariant(GetExtension(file.fileName)) in ALLOWED_PRESET_EXTENSIONS ==>
      r == Failure(ArgumentException(PRESET_FILE_TOO_LARGE))
    ensures r.Success? <==>
      0 < file.length <= MAX_PRESET_FILE_SIZE && ToLowerInvariant(GetExtension(file.fileName)) in ALLOWED_PRESET_EXTENSIONS
    ensures r.Success? ==> r.value == ToLowerInvariant(GetExtension(file.fileName))
  {
    if file.length == 0 then Failure(ArgumentException(INVALID_PRESET_FILE))
    else
      var extension := ToLowerInvariant(GetExtension(file.fileName));
      if extension !in ALLOWED_PRESET_EXTENSIONS then Failure(ArgumentException(INVALID_PRESET_FILE_TYPE))
      else if file.length > MAX_PRESET_FILE_SIZE then Failure(ArgumentException(PRESET_FILE_TOO_LARGE))
      else Success(extension)
  }

  /** The URL a saved preset file is returned under. */
  function PresetFileUrl(g: Guid, extension: string): string {
    "/uploads/presets/files/" + FormatD(g) + extension
  }

  /** The URL of an accepted preset file ends in one of the allowed extensions, in lower case. */
  lemma PresetFileUrlExtension(file: FormFile, g: Guid)
    requires CheckPresetFile(file).Success?
    ensures GetExtension(PresetFileUrl(g, CheckPresetFile(file).value)) in ALLOWED_PRESET_EXTENSIONS
    ensures GetExtension(PresetFileUrl(g, CheckPresetFile(file).value)) == CheckPresetFile(file).value
  {
    var extension := CheckPresetFile(file).value;
    assert IsExtension(extension) by {
      assert extension == ".zip" || extension == ".lrtemplate" || extension == ".xmp" || extension == ".dng";
    }
    ExtensionAfterPlainSegment("/uploads/presets/files/", FormatD(g), extension);
  }

  // ---------------------------------------------------------------------------
  // Queries
  // ---------------------------------------------------------------------------

  /** `preset.Category?.Name` once the category is loaded. */
  function CategoryNameOf(categories: Table<Category>, p: Preset): (name: Option<string>)
    ensures name.Some? <==> p.categoryId.Some? && p.categoryId.value in categories.rows
    ensures name.Some? ==> name.value == categories.rows[p.categoryId.value].name
  {
    if p.categoryId.Some? && p.categoryId.value in categories.rows then Some(categories.rows[p.categoryId.value].name) else None
  }

  /** The DTO of preset `id`: every column but `UpdatedAt`, and the category's name. */
  function MapToDto(id: int, p: Preset, categoryName: Option<string>): (d: PresetDto)
    ensures d.id == id && d.categoryName == categoryName
    ensures Preset(d.name, d.description, d.price, d.categoryId, d.beforeImageUrl, d.afterImageUrl,
                   d.presetFileUrl, d.isActive, d.createdAt, p.updatedAt) == p
  {
    PresetDto(id, p.name, p.description, p.price, p.categoryId, categoryName,
              p.beforeImageUrl, p.afterImageUrl, p.presetFileUrl, p.isActive, p.createdAt)
  }

  /** Two rows that differ only in `UpdatedAt` show the same DTO. */
  lemma MapToDtoOmitsUpdatedAt(id: int, p: Preset, q: Preset, categoryName: Option<string>)
    ensures MapToDto(id, p, categoryName) == MapToDto(id, q, categoryName) <==> p.(updatedAt := q.updatedAt) == q
  {
  }

  /** `OrderByDescending(p => p.CreatedAt)`. */
  predicate NewestFirst(a: PresetDto, b: PresetDto) {
    NewerFirst(a.createdAt, b.createdAt)
  }

  /** The presets `GetAllPresetsAsync(categoryId)` lists: active ones, in the category when one is given. */
  predicate Listed(p: Preset, categoryId: Option<int>) {
    p.isActive && (categoryId.None? || p.categoryId == categoryId)
  }

  /**
   * `GetAllPresetsAsync(categoryId)`: every active preset (of the category, when one is
   * given), each once, newest first (a preset with no creation time comes first).
   */
  function GetAllPresets(presets: Table<Preset>, categories: Table<Category>, categoryId: Option<int>): (r: seq<PresetDto>)
    requires presets.Valid()
    ensures SortedBy(r, NewestFirst)
    ensures forall i :: 0 <= i < |r| ==> r[i].isActive && (categoryId.None? || r[i].categoryId == categoryId)
    ensures multiset(r) == multiset(set id | id in presets.rows && Listed(presets.rows[id], categoryId) ::
                                      MapToDto(id, presets.rows[id], CategoryNameOf(categories, presets.rows[id])))
  {
    NewerFirstTotalPreorder();
    assert TotalPreorder(NewestFirst);
    var r := Query(presets, (p: Preset) => Listed(p, categoryId),
                   (id: int, p: Preset) => MapToDto(id, p, CategoryNameOf(categories, p)),
                   (d: PresetDto) => d.id, NewestFirst);
    ListedOnly(presets, categories, categoryId, r);
    r
  }

  lemma ListedOnly(presets: Table<Preset>, categories: Table<Category>, categoryId: Option<int>, r: seq<PresetDto>)
    requires multiset(r) == multiset(set id | id in presets.rows && Listed(presets.rows[id], categoryId) ::
                                       MapToDto(id, presets.rows[id], CategoryNameOf(categories, presets.rows[id])))
    ensures forall i :: 0 <= i < |r| ==> r[i].isActive && (categoryId.None? || r[i].categoryId == categoryId)
  {
    forall i | 0 <= i < |r| ensures r[i].isActive && (categoryId.None? || r[i].categoryId == categoryId) {
      assert r[i] in multiset(r);
    }
  }

  /** `GetPresetByIdAsync(id)`: the preset with key `id`, active or not, or null. */
  function GetPresetById(presets: Table<Preset>, categories: Table<Category>, id: int): (r: Option<PresetDto>)
    ensures r.Some? <==> id in presets.rows
    ensures r.Some? ==> r.value == MapToDto(id, presets.rows[id], CategoryNameOf(categories, presets.rows[id]))
  {
    if id in presets.rows then Some(MapToDto(id, presets.rows[id], CategoryNameOf(categories, presets.rows[id]))) else None
  }

  // ---------------------------------------------------------------------------
  // Uploads of the create and update operations
  // ---------------------------------------------------------------------------

  /** The URL an optional preset-file upload is saved under. */
  function NewPresetFileUrl(file: Option<FormFile>, g: Guid): Option<string> {
    if file.Some? then Some(PresetFileUrl(g, ToLowerInvariant(GetExtension(file.value.fileName)))) else None
  }

  /** The files the uploads of a create or update write. */
  function UploadedKeys(before: Option<FormFile>, after: Option<FormFile>, presetFile: Option<FormFile>,
                        gBefore: Guid, gAfter: Guid, gFile: Guid): set<string> {
    UrlKey(NewImageUrl(before, BEFORE_FOLDER, gBefore)) + UrlKey(NewImageUrl(after, AFTER_FOLDER, gAfter))
      + UrlKey(NewPresetFileUrl(presetFile, gFile))
  }

  /** Every upload present passes its checks. */
  ghost predicate UploadsAccepted(before: Option<FormFile>, after: Option<FormFile>, presetFile: Option<FormFile>) {
    && (before.None? || ImageAccepted(before))
    && (after.None? || ImageAccepted(after))
    && (presetFile.None? || CheckPresetFile(presetFile.value).Success?)
  }

  /** The preset `CreatePresetAsync` stores: the DTO's fields, active, and the URLs of its uploads. */
  function CreatedPreset(dto: CreatePresetDto, now: Timestamp, gBefore: Guid, gAfter: Guid, gFile: Guid): Preset {
    Preset(dto.name, dto.description, dto.price, dto.categoryId,
           NewImageUrl(dto.beforeImage, BEFORE_FOLDER, gBefore), NewImageUrl(dto.afterImage, AFTER_FOLDER, gAfter),
           NewPresetFileUrl(dto.presetFile, gFile), true, Some(now), Some(now))
  }

  /** The files of a preset: those its non-empty URLs name. */
  function PresetFiles(p: Preset): set<string> {
    UrlKey(p.beforeImageUrl) + UrlKey(p.afterImageUrl) + UrlKey(p.presetFileUrl)
  }

  /** The files an update replaces: those of the slots that receive a new upload. */
  function ReplacedKeys(p: Preset, dto: UpdatePresetDto): set<string> {
    (if dto.beforeImage.Some? then UrlKey(p.beforeImageUrl) else {})
      + (if dto.afterImage.Some? then UrlKey(p.afterImageUrl) else {})
      + (if dto.presetFile.Some? then UrlKey(p.presetFileUrl) else {})
  }

  /**
   * The scalar fields of an update: name and description change only to a non-empty
   * value; price, category and active flag only when given.
   */
  function Patched(p: Preset, dto: UpdatePresetDto): Preset {
    p.(name := if IsNullOrEmpty(dto.name) then p.name else dto.name.value,
       description := if IsNullOrEmpty(dto.description) then p.description else dto.description.value,
       price := if dto.price.Some? then dto.price.value else p.price,
       categoryId := if dto.categoryId.Some? then dto.categoryId else p.categoryId,
       isActive := if dto.isActive.Some? then dto.isActive.value else p.isActive)
  }

  /** The URL slots after an update: each slot that receives an upload holds its new URL. */
  function WithUploads(p: Preset, dto: UpdatePresetDto, gBefore: Guid, gAfter: Guid, gFile: Guid): Preset {
    p.(beforeImageUrl := if dto.beforeImage.Some? then NewImageUrl(dto.beforeImage, BEFORE_FOLDER, gBefore) else p.beforeImageUrl,
       afterImageUrl := if dto.afterImage.Some? then NewImageUrl(dto.afterImage, AFTER_FOLDER, gAfter) else p.afterImageUrl,
       presetFileUrl := if dto.presetFile.Some? then NewPresetFileUrl(dto.presetFile, gFile) else p.presetFileUrl)
  }

  /** The row `UpdatePresetAsync` saves. */
  function UpdatedPreset(p: Preset, dto: UpdatePresetDto, now: Timestamp, gBefore: Guid, gAfter: Guid, gFile: Guid): Preset {
    WithUploads(Patched(p, dto), dto, gBefore, gAfter, gFile).(updatedAt := Some(now))
  }

  /** The files after a successful update's uploads: slot by slot, the old file replaced by the new. */
  function UploadedFiles(files: set<string>, p: Preset, dto: UpdatePresetDto, gBefore: Guid, gAfter: Guid, gFile: Guid): set<string> {
    AfterReplace(AfterReplace(AfterReplace(files,
      dto.beforeImage.Some?, p.beforeImageUrl, NewImageUrl(dto.beforeImage, BEFORE_FOLDER, gBefore)),
      dto.afterImage.Some?, p.afterImageUrl, NewImageUrl(dto.afterImage, AFTER_FOLDER, gAfter)),
      dto.presetFile.Some?, p.presetFileUrl, NewPresetFileUrl(dto.presetFile, gFile))
  }

  /**
   * What an update promises of the saved row: each scalar field takes the DTO's value
   * only when one is given (a non-empty one for name and description), each slot with
   * an upload takes its new URL, the creation time stays and `UpdatedAt` is now.
   */
  lemma UpdatedPresetFields(p: Preset, dto: UpdatePresetDto, now: Timestamp, gBefore: Guid, gAfter: Guid, gFile: Guid)
    ensures var u := UpdatedPreset(p, dto, now, gBefore, gAfter, gFile);
      && u.name == (if IsNullOrEmpty(dto.name) then p.name else dto.name.value)
      && u.description == (if IsNullOrEmpty(dto.description) then p.description else dto.description.value)
      && u.price == (if dto.price.Some? then dto.price.value else p.price)
      && u.categoryId == (if dto.categoryId.Some? then dto.categoryId else p.categoryId)
      && u.isActive == (if dto.isActive.Some? then dto.isActive.value else p.isActive)
      && u.beforeImageUrl == (if dto.beforeImage.Some? then NewImageUrl(dto.beforeImage, BEFORE_FOLDER, gBefore) else p.beforeImageUrl)
      && u.afterImageUrl == (if dto.afterImage.Some? then NewImageUrl(dto.afterImage, AFTER_FOLDER, gAfter) else p.afterImageUrl)
      && u.presetFileUrl == (if dto.presetFile.Some? then NewPresetFileUrl(dto.presetFile, gFile) else p.presetFileUrl)
      && u.createdAt == p.createdAt
      && u.updatedAt == Some(now)
  {
  }

  /** An update can move a preset to another category but never out of every category. */
  lemma UpdateNeverClearsCategory(p: Preset, dto: UpdatePresetDto, now: Timestamp, gBefore: Guid, gAfter: Guid, gFile: Guid)
    requires p.categoryId.Some?
    ensures UpdatedPreset(p, dto, now, gBefore, gAfter, gFile).categoryId.Some?
  {
  }

  /** An update that gives nothing, or only empty strings for name and description, only stamps `UpdatedAt`. */
  lemma EmptyUpdateOnlyStamps(p: Preset, name: Option<string>, description: Option<string>, now: Timestamp, gBefore: Guid, gAfter: Guid, gFile: Guid)
    requires IsNullOrEmpty(name) && IsNullOrEmpty(description)
    ensures UpdatedPreset(p, UpdatePresetDto(name, description, None, None, None, None, None, None), now, gBefore, gAfter, gFile)
      == p.(updatedAt := Some(now))
  {
  }

  /** A created preset's files are exactly those its uploads wrote, so deleting it removes what creating it wrote. */
  lemma CreatedPresetFiles(dto: CreatePresetDto, now: Timestamp, gBefore: Guid, gAfter: Guid, gFile: Guid)
    ensures PresetFiles(CreatedPreset(dto, now, gBefore, gAfter, gFile))
      == UploadedKeys(dto.beforeImage, dto.afterImage, dto.presetFile, gBefore, gAfter, gFile)
  {
  }

  class PresetService {
    const context: AppDbContext
    const images: ImageService

    constructor (context: AppDbContext, images: ImageService)
      ensures this.context == context && this.images == images
    {
      this.context := context;
      this.images := images;
    }

    /** `SavePresetFileAsync(file)`: a refused file throws and writes nothing; an accepted one is written and its URL returned. */
    method SavePresetFile(file: FormFile, g: Guid) returns (r: Result<string, Exception>)
      modifies images.store
      ensures CheckPresetFile(file).Failure? ==> r == Failure(CheckPresetFile(file).error)
      ensures r.Failure? ==> images.store.files == old(images.store.files)
      ensures r.Success? <==> CheckPresetFile(file).Success?
      ensures r.Success? ==> r.value == PresetFileUrl(g, CheckPresetFile(file).value)
      ensures r.Success? ==> images.store.files == old(images.store.files) + {FileStore.KeyOf(r.value)}
    {
      var check := CheckPresetFile(file);
      if check.Failure? {
        return Failure(check.error);
      }
      var url := PresetFileUrl(g, check.value);
      images.store.files := images.store.files + {FileStore.KeyOf(url)};
      r := Success(url);
    }

    /** `DeletePresetFileAsync(path)`: true only when the file existed, and then it is gone. */
    method DeletePresetFile(url: string) returns (deleted: bool)
      modifies images.store
      ensures deleted <==> url != "" && FileStore.KeyOf(url) in old(images.store.files)
      ensures images.store.files == if url == "" then old(images.store.files) else old(images.store.files) - {FileStore.KeyOf(url)}
    {
      deleted := images.store.Delete(url);
    }

    /** `if (dto.PresetFile != null) url = await SavePresetFileAsync(dto.PresetFile)`. */
    method SaveOptionalPresetFile(file: Option<FormFile>, g: Guid) returns (r: Result<Option<string>, Exception>)
      modifies images.store
      ensures r.Success? <==> file.None? || CheckPresetFile(file.value).Success?
      ensures r.Failure? ==> r.error.ArgumentException? && images.store.files == old(images.store.files)
      ensures r.Success? ==> r.value == NewPresetFileUrl(file, g)
      ensures r.Success? ==> images.store.files == old(images.store.files) + UrlKey(r.value)
    {
      if file.None? {
        return Success(None);
      }
      var saved := SavePresetFile(file.value, g);
      if saved.Failure? {
        return Failure(saved.error);
      }
      assert saved.value[0] == '/';
      r := Success(Some(saved.value));
    }

    /** The replacement of the preset-file slot by an upload, as `ReplaceOptional` does for an image slot. */
    method ReplacePresetFile(current: Option<string>, file: Option<FormFile>, g: Guid) returns (r: Result<Option<string>, Exception>)
      modifies images.store
      ensures r.Success? <==> file.None? || CheckPresetFile(file.value).Success?
      ensures r.Failure? ==> r.error.ArgumentException?
      ensures file.None? ==> r == Success(current) && images.store.files == old(images.store.files)
      ensures file.Some? && r.Failure? ==> images.store.files == old(images.store.files) - UrlKey(current)
      ensures file.Some? && r.Success? ==>
        r.value == NewPresetFileUrl(file, g) && images.store.files == old(images.store.files) - UrlKey(current) + UrlKey(r.value)
    {
      if file.None? {
        return Success(current);
      }
      if !IsNullOrEmpty(current) {
        var _ := DeletePresetFile(current.value);
      }
      r := SaveOptionalPresetFile(file, g);
    }

    /**
     * `CreatePresetAsync(dto)`: saves the uploads that are present, then inserts an
     * active preset with the DTO's fields. A refused upload throws before the insert;
     * the database refuses a category id that names no category.
     */
    method CreatePreset(dto: CreatePresetDto, now: Timestamp, gBefore: Guid, gAfter: Guid, gFile: Guid)
      returns (r: Result<PresetDto, Exception>)
      requires context.Valid()
      modifies context`presets, images.store
      ensures context.Valid()
      ensures r.Success? <==>
        UploadsAccepted(dto.beforeImage, dto.afterImage, dto.presetFile)
        && (dto.categoryId.None? || dto.categoryId.value in context.categories.rows)
      ensures r.Failure? ==> context.presets == old(context.presets)
      ensures r.Failure? && !UploadsAccepted(dto.beforeImage, dto.afterImage, dto.presetFile) ==> r.error.ArgumentException?
      ensures r.Failure? && UploadsAccepted(dto.beforeImage, dto.afterImage, dto.presetFile) ==>
        r.error == DbUpdateException(FK_PRESETS_CATEGORIES)
      ensures r.Success? ==>
        var created := CreatedPreset(dto, now, gBefore, gAfter, gFile);
        && context.presets == Add(old(context.presets), created)
        && r.value == MapToDto(old(context.presets.nextId), created, CategoryNameOf(context.categories, created))
      ensures old(images.store.files) <= images.store.files
      ensures images.store.files <= old(images.store.files) + UploadedKeys(dto.beforeImage, dto.afterImage, dto.presetFile, gBefore, gAfter, gFile)
      ensures UploadsAccepted(dto.beforeImage, dto.afterImage, dto.presetFile) ==>
        images.store.files == old(images.store.files) + UploadedKeys(dto.beforeImage, dto.afterImage, dto.presetFile, gBefore, gAfter, gFile)
    {
      var before := images.SaveOptional(dto.beforeImage, BEFORE_FOLDER, gBefore);
      if before.Failure? {
        return Failure(before.error);
      }
      var after := images.SaveOptional(dto.afterImage, AFTER_FOLDER, gAfter);
      if after.Failure? {
        return Failure(after.error);
      }
      var file := SaveOptionalPresetFile(dto.presetFile, gFile);
      if file.Failure? {
        return Failure(file.error);
      }
      var preset := Preset(dto.name, dto.description, dto.price, dto.categoryId,
                           before.value, after.value, file.value, true, Some(now), Some(now));
      var added := context.AddPreset(preset);
      if added.Failure? {
        return Failure(added.error);
      }
      r := Success(MapToDto(added.value, preset, CategoryNameOf(context.categories, preset)));
    }

    /**
     * The uploads of `UpdatePresetAsync`, slot by slot: each upload given replaces the
     * file of its slot; a refused one throws, the slots before it already replaced.
     */
    method ReplaceUploads(p: Preset, dto: UpdatePresetDto, gBefore: Guid, gAfter: Guid, gFile: Guid)
      returns (r: Result<Preset, Exception>)
      modifies images.store
      ensures r.Success? <==> UploadsAccepted(dto.beforeImage, dto.afterImage, dto.presetFile)
      ensures r.Failure? ==> r.error.ArgumentException?
      ensures r.Success? ==> r.value == WithUploads(p, dto, gBefore, gAfter, gFile)
      ensures images.store.files <= old(images.store.files) + UploadedKeys(dto.beforeImage, dto.afterImage, dto.presetFile, gBefore, gAfter, gFile)
      ensures forall k :: k in old(images.store.files) && k !in ReplacedKeys(p, dto) ==> k in images.store.files
      ensures r.Success? ==> images.store.files == UploadedFiles(old(images.store.files), p, dto, gBefore, gAfter, gFile)
    {
      var before := images.ReplaceOptional(p.beforeImageUrl, dto.beforeImage, BEFORE_FOLDER, gBefore);
      if before.Failure? {
        return Failure(before.error);
      }
      var after := images.ReplaceOptional(p.afterImageUrl, dto.afterImage, AFTER_FOLDER, gAfter);
      if after.Failure? {
        return Failure(after.error);
      }
      var file := ReplacePresetFile(p.presetFileUrl, dto.presetFile, gFile);
      if file.Failure? {
        return Failure(file.error);
      }
      r := Success(p.(beforeImageUrl := before.value, afterImageUrl := after.value, presetFileUrl := file.value));
    }

    /**
     * `UpdatePresetAsync(id, dto)`: null for an absent id. The row becomes
     * `UpdatedPreset` of the old one (see the lemmas below); each upload given replaces
     * the old file of its slot. A refused upload throws, leaving the row as it was but
     * the files already replaced gone; so does the database's refusal of a category id
     * that names no category.
     */
    method UpdatePreset(id: int, dto: UpdatePresetDto, now: Timestamp, gBefore: Guid, gAfter: Guid, gFile: Guid)
      returns (r: Result<Option<PresetDto>, Exception>)
      requires context.Valid()
      modifies context`presets, images.store
      ensures context.Valid()
      ensures id !in old(context.presets.rows) ==>
        r == Success(None) && context.presets == old(context.presets) && images.store.files == old(images.store.files)
      ensures r.Failure? ==> context.presets == old(context.presets)
      ensures id in old(context.presets.rows) ==>
        (r.Failure? <==>
          !UploadsAccepted(dto.beforeImage, dto.afterImage, dto.presetFile)
          || (dto.categoryId.Some? && dto.categoryId.value !in context.categories.rows))
      ensures r.Failure? && !UploadsAccepted(dto.beforeImage, dto.afterImage, dto.presetFile) ==> r.error.ArgumentException?
      ensures r.Failure? && UploadsAccepted(dto.beforeImage, dto.afterImage, dto.presetFile) ==>
        r.error == DbUpdateException(FK_PRESETS_CATEGORIES)
      ensures id in old(context.presets.rows) && r.Success? ==>
        var updated := UpdatedPreset(old(context.presets.rows)[id], dto, now, gBefore, gAfter, gFile);
        && context.presets == Replace(old(context.presets), id, updated)
        && r.value == Some(MapToDto(id, updated, CategoryNameOf(context.categories, updated)))
      ensures id in old(context.presets.rows) ==>
        var was := old(context.presets.rows)[id];
        && images.store.files <= old(images.store.files) + UploadedKeys(dto.beforeImage, dto.afterImage, dto.presetFile, gBefore, gAfter, gFile)
        && (forall k :: k in old(images.store.files) && k !in ReplacedKeys(was, dto) ==> k in images.store.files)
      ensures id in old(context.presets.rows) && UploadsAccepted(dto.beforeImage, dto.afterImage, dto.presetFile) ==>
        images.store.files == UploadedFiles(old(images.store.files), old(context.presets.rows)[id], dto, gBefore, gAfter, gFile)
    {
      if id !in context.presets.rows {
        return Success(None);
      }
      var preset := Patched(context.presets.rows[id], dto);
      var replaced := ReplaceUploads(preset, dto, gBefore, gAfter, gFile);
      if replaced.Failure? {
        return Failure(replaced.error);
      }
      preset := replaced.value.(updatedAt := Some(now));
      var error := context.SavePreset(id, preset);
      if error.Some? {
        return Failure(error.value);
      }
      r := Success(Some(MapToDto(id, preset, CategoryNameOf(context.categories, preset))));
    }

    /** The file deletions of `DeletePresetAsync`: both images, then the preset file. */
    method DeletePresetFiles(preset: Preset)
      modifies images.store
      ensures images.store.files == old(images.store.files) - PresetFiles(preset)
    {
      images.DeleteIfPresent(preset.beforeImageUrl);
      images.DeleteIfPresent(preset.afterImageUrl);
      if !IsNullOrEmpty(preset.presetFileUrl) {
        var _ := DeletePresetFile(preset.presetFileUrl.value);
      }
    }

    /**
     * `DeletePresetAsync(id)`: false for an absent id. Otherwise the preset's files are
     * deleted first; then the row is deleted, which the database refuses while a
     * purchase refers to the preset (the files are gone either way).
     */
    method DeletePreset(id: int) returns (r: Result<bool, Exception>)
      requires context.Valid()
      modifies context`presets, images.store
      ensures context.Valid()
      ensures r == Success(false) <==> id !in old(context.presets.rows)
      ensures r == Success(false) ==> context.presets == old(context.presets) && images.store.files == old(images.store.files)
      ensures r.Failure? <==> id in old(context.presets.rows) && PresetHasPurchases(context.purchases, id)
      ensures r.Failure? ==> r.error == DbUpdateException(FK_PURCHASES_PRESETS) && context.presets == old(context.presets)
      ensures r == Success(true) ==> context.presets == Delete(old(context.presets), id)
      ensures id in old(context.presets.rows) ==>
        images.store.files == old(images.store.files) - PresetFiles(old(context.presets.rows)[id])
    {
      if id !in context.presets.rows {
        return Success(false);
      }
      var preset := context.presets.rows[id];
      DeletePresetFiles(preset);
      var error := context.RemovePreset(id);
      if error.Some? {
        return Failure(error.value);
      }
      r := Success(true);
    }

    /**
     * `DeletePresetAsync` with its steps in the order that keeps a refused delete
     * harmless: the row is deleted first, and the files only once that succeeded.
     */
    method DeletePresetRowFirst(id: int) returns (r: Result<bool, Exception>)
      requires context.Valid()
      modifies context`presets, images.store
      ensures context.Valid()
      ensures r == Success(false) <==> id !in old(context.presets.rows)
      ensures r.Failure? <==> id in old(context.presets.rows) && PresetHasPurchases(context.purchases, id)
      ensures r.Failure? ==> r.error == DbUpdateException(FK_PURCHASES_PRESETS)
      ensures !(r == Success(true)) ==> context.presets == old(context.presets) && images.store.files == old(images.store.files)
      ensures r == Success(true) ==>
        && context.presets == Delete(old(context.presets), id)
        && images.store.files == old(images.store.files) - PresetFiles(old(context.presets.rows)[id])
    {
      if id !in context.presets.rows {
        return Success(false);
      }
      var preset := context.presets.rows[id];
      var error := context.RemovePreset(id);
      if error.Some? {
        return Failure(error.value);
      }
      DeletePresetFiles(preset);
      r := Success(true);
    }
  }
}
