# PresetShop backend, modelled in Dafny

PresetShop sells Lightroom presets and photo products. This project models the
service layer of its ASP.NET backend and proves properties of that model.

It covers these parts:

- **Purchases.** Buying a preset records a completed, demonstration purchase at the
  preset's current price. The buyer can then list their purchases, ask whether they
  own a preset, and get its download URL.
- **The purchases API.** The `User` role gate, the reading of the user id from the
  caller's claims, and the fixed order in which the endpoints answer 400, 401, 403,
  404 or 500.
- **Authentication.** Admin login (active admins only, recording the login time),
  user login, and user registration with a unique e-mail.
- **Catalog.** Categories, presets and products. This covers listings, lookups,
  creation with optional uploads, partial updates that replace uploads, and deletion.
- **Uploads.** The image and preset-file checks, the URLs uploads are saved under,
  and their deletion from the file store.
- **Seeding.** The default admin and the default categories.
- **The database schema.** Unique indexes, foreign keys, and what the database does
  when a referenced row is deleted (cascade, set null or refuse).

How the system is represented:

- Each table is a `Tables.Table`, a map from identity value to row, plus the next
  identity value. A row's `Id` is its key.
- The database context is the class `Schema.AppDbContext`. It has one field per table.
  Its `Valid()` predicate holds the constraints the database enforces.
- Each service is a class holding the context. The services that touch files also hold
  an `ImageService` whose `FileStore` is the set of file paths under the application's
  root directory.
- A service method that writes is a `method`. Its `ensures` gives the new tables and
  files as functions of the old ones, plus the result.
- A read is a function over table values. Each listing is proved to hold exactly the
  matching rows, each once, in the source's order.
- Inputs from the environment are parameters:
  - the current time (`now`);
  - fresh GUIDs (`g`, `gBefore`, …);
  - the BCrypt salt;
  - the caller's claims (`Principal`).

Prices are whole cents. Timestamps are integers. A nullable column is an `Option`.

## Model

| member | source | states |
|---|---|---|
| Tables.Add | backend/src/Data/ApplicationDbContext.cs:45-49 | an insert gives the row the next identity value, keeps every other row, and adds exactly one key |
| Tables.Replace | backend/src/Service/CategoryService.cs:100-101 | saving a tracked row changes that row only; the keys and the identity counter stay |
| Tables.Delete | backend/src/Service/CategoryService.cs:120-121 | a delete removes exactly that key, and every other row stays as it was |
| Tables.RemoveWhere | backend/src/Data/ApplicationDbContext.cs:54-65 | a set-based delete removes exactly the rows that match and keeps the others unchanged |
| Tables.FirstOrDefault | backend/src/Service/AuthService.cs:28-29 | `FirstOrDefault(p)` is null iff no row matches; otherwise it is a matching row with no smaller matching id |
| Tables.Any | backend/src/Service/PurchaseService.cs:84-85 | `Any(p)` holds iff some row satisfies `p` |
| Tables.Query | backend/src/Service/CategoryService.cs:21-26 | `Where(p).OrderBy(k).Select(f)` is sorted by the order and holds every matching row, mapped, exactly once |
| Ordering.SortBySorted | backend/src/Service/CategoryService.cs:23 | the sort used for `OrderBy` returns a sorted permutation of its input |
| Ordering.NewerFirstTotalPreorder | backend/src/Service/PresetService.cs:36 | PostgreSQL's descending order on a nullable timestamp (null first) is a total preorder |
| Ordering.StringLessEqTotalPreorder | backend/src/Service/CategoryService.cs:23 | ordering names character by character is total and transitive |
| Text.ToLowerInvariant | backend/src/Service/ImageService.cs:31 | lower-casing keeps the length and maps each character: A–Z and the Kelvin sign go to their ASCII lower case, every other character (U+0130 included) is kept; the result holds no A–Z |
| Text.IntToString | backend/src/Service/TokenService.cs:31 | `int.ToString()` is a non-empty string of decimal digits, with a leading "-" for a negative number |
| Text.LowerInvariantIdempotent | backend/src/Service/ImageService.cs:31 | lower-casing twice is lower-casing once |
| Text.GetExtension | backend/src/Service/ImageService.cs:31 | `Path.GetExtension` is "" or the path's last dotted suffix, and no later dotted suffix exists |
| Text.TrimStart | backend/src/Service/ImageService.cs:91 | `TrimStart(c)` drops exactly the leading run of `c` |
| Text.GetFileName | backend/src/Controllers/PurchasesController.cs:109 | `Path.GetFileName` is the suffix after the last separator and holds no separator |
| Text.TryParseInt32 | backend/src/Controllers/PurchasesController.cs:125 | `int.TryParse` succeeds only on a present value within 32 bits; a blank value fails |
| Text.ParseInt32ToString | backend/src/Controllers/PurchasesController.cs:125 | parsing the decimal form of a 32-bit integer gives the integer back |
| Guids.FormatN | backend/src/Service/PurchaseService.cs:49 | `Guid.ToString("N")` is 32 lower-case hexadecimal digits |
| Guids.FormatD | backend/src/Service/ImageService.cs:63 | `Guid.ToString()` is 36 characters, none a dot or a path separator, with each digit of the GUID at its place in the 8-4-4-4-12 grouping |
| Guids.FormatDInjective | backend/src/Service/ImageService.cs:63 | different GUIDs print differently |
| Crypto.Utf8Encode | backend/src/Service/AuthService.cs:118 | the UTF-8 encoding has at least one byte per character |
| Crypto.Utf8EncodeAppend | backend/src/Service/AuthService.cs:118 | encoding a concatenation concatenates the encodings |
| Crypto.BCryptKey | backend/src/Service/AuthService.cs:118 | BCrypt reads the password's UTF-8 bytes followed by a NUL, cut at 72 bytes |
| Crypto.BCryptKeyIgnoresTail | backend/src/Service/AuthService.cs:118 | once a password's encoding fills 72 bytes, anything appended to it is not read |
| Crypto.KeyCutInBytes | backend/src/Service/AuthService.cs:118 | the cut is in bytes: forty "é" and thirty-six "é" then "xxxx" share their key |
| Crypto.VerifyHash | backend/src/Service/AuthService.cs:37-41 | a password verifies against its own hash, whatever the salt |
| Crypto.VerifyReadsKeyOnly | backend/src/Service/AuthService.cs:78-81 | two passwords with the same first 72 key bytes verify against the same hashes |
| Crypto.GenerateToken | backend/src/Service/TokenService.cs:29-35 | the token carries the e-mail and the role given, and its subject parses back to the account id |
| Schema.NullifyCategory | backend/src/Data/ApplicationDbContext.cs:75-79 | deleting a category keeps every preset; those in it lose their category and nothing else changes |
| Schema.CategoryAdded | backend/src/Data/ApplicationDbContext.cs:117-119 | adding a category with a new name keeps names unique and every preset's category reference valid |
| Schema.CategoryReplaced | backend/src/Data/ApplicationDbContext.cs:117-119 | renaming a category to a name no other category holds keeps names unique and references valid |
| Schema.DuplicatePurchasesAdmitted | backend/src/Data/ApplicationDbContext.cs:81-93 | two purchases of the same user and preset satisfy every schema constraint, so only the service prevents them |
| Schema.AppDbContext.constructor | backend/src/Data/ApplicationDbContext.cs:21-49 | a freshly migrated database is empty and satisfies every constraint |
| Schema.AppDbContext.AddPreset | backend/src/Data/ApplicationDbContext.cs:75-79 | an insert is refused iff the preset names a missing category; otherwise the row is added |
| Schema.AppDbContext.SavePreset | backend/src/Data/ApplicationDbContext.cs:75-79 | an update is refused iff it names a missing category; otherwise that row is replaced |
| Schema.AppDbContext.AddProduct | backend/src/Data/ApplicationDbContext.cs:33-34 | a product is always accepted and added under the next id |
| Schema.AppDbContext.SaveProduct | backend/src/Data/ApplicationDbContext.cs:33-34 | a product update replaces that row only |
| Schema.AppDbContext.AddUser | backend/src/Data/ApplicationDbContext.cs:113-115 | the unique e-mail index refuses an insert iff a user already has the e-mail |
| Schema.AppDbContext.AddAdmin | backend/src/Data/ApplicationDbContext.cs:109-111 | the unique e-mail index refuses an insert iff an admin already has the e-mail |
| Schema.AppDbContext.SaveAdmin | backend/src/Data/ApplicationDbContext.cs:109-111 | an admin update that keeps the e-mail replaces that row and keeps the index unique |
| Schema.AppDbContext.AddPurchase | backend/src/Data/ApplicationDbContext.cs:81-93 | an insert is refused iff its preset or its user is missing; otherwise the row is added |
| Schema.AppDbContext.RemoveCategory | backend/src/Data/ApplicationDbContext.cs:74-79 | deleting a category removes it and sets its presets' category to null |
| Schema.AppDbContext.RemovePreset | backend/src/Data/ApplicationDbContext.cs:88-93 | deleting a preset is refused iff a purchase refers to it, and a refusal changes nothing |
| Schema.AppDbContext.RemoveProduct | backend/src/Data/ApplicationDbContext.cs:67-72 | deleting a product is refused iff an order item refers to it |
| Schema.AppDbContext.RemoveUser | backend/src/Data/ApplicationDbContext.cs:53-65 | deleting a user is refused iff the user has purchases (lines 81-86); otherwise the user's orders and their items go too |
| Images.FileStore.KeyOf | backend/src/Service/ImageService.cs:91 | the file a URL names is the URL without its leading separators |
| Images.FileStore.Delete | backend/src/Service/ImageService.cs:84-100 | deleting reports whether the file existed; an empty URL changes nothing, otherwise the file is gone |
| Images.ValidateImage | backend/src/Service/ImageService.cs:16-47 | an image is accepted iff it is present, non-empty, at most 10 MiB, and its lower-cased extension and content type are allowed |
| Images.ImageSizeBoundary | backend/src/Service/ImageService.cs:8 | the size limit is inclusive: exactly 10 MiB passes and one byte more fails |
| Images.ContentTypeCase | backend/src/Service/ImageService.cs:38-44 | a content type is compared after invariant lower-casing: "IMAGE/PNG" passes, a dotted capital I does not |
| Images.ImageUrl | backend/src/Service/ImageService.cs:63-73 | the URL of a saved image lies under "/uploads/{folder}/" |
| Images.ImageUrlsDistinct | backend/src/Service/ImageService.cs:63-73 | uploads saved under different GUIDs get different URLs, whatever their names |
| Images.ImageUrlExtension | backend/src/Service/ImageService.cs:63 | a saved image's URL keeps the uploaded extension, case included |
| Images.SavedImageKey | backend/src/Service/ImageService.cs:59-73 | the returned URL names the file that was written, so deleting by that URL removes it |
| Images.ImageService.SaveImage | backend/src/Service/ImageService.cs:49-80 | a rejected image throws `ArgumentException` and writes nothing; an accepted one is written and its URL returned |
| Images.ImageService.SaveOptional | backend/src/Service/PresetService.cs:66-76 | an optional upload succeeds iff it is absent or accepted; on success exactly its file is added |
| Images.ImageService.ReplaceOptional | backend/src/Service/PresetService.cs:124-142 | an upload deletes the slot's old file and saves the new one; without an upload the slot and the files are unchanged |
| Images.ImageService.DeleteIfPresent | backend/src/Service/PresetService.cs:180-188 | deleting a possibly empty URL removes exactly the file it names |
| Images.ImageService.DeleteImage | backend/src/Service/ImageService.cs:82-107 | returns false for an empty path; returns true only when the file existed, and afterwards the file is gone |
| Categories.GetAllCategories | backend/src/Service/CategoryService.cs:19-27 | exactly the active categories, each once, in ascending name order |
| Categories.GetCategoryById | backend/src/Service/CategoryService.cs:29-33 | the category with that id, active or not, or null for an absent id |
| Categories.CategoryService.CreateCategory | backend/src/Service/CategoryService.cs:35-65 | refused iff any category, active or not, has the name; otherwise exactly one active category is added |
| Categories.CategoryService.UpdateCategory | backend/src/Service/CategoryService.cs:67-108 | returns null for an absent id; a rename is refused only when another category holds the name; each field changes only under its own guard; nothing else changes |
| Categories.CategoryService.DeleteCategory | backend/src/Service/CategoryService.cs:110-129 | false for an absent id; otherwise exactly that category goes and its presets lose their category |
| Presets.CheckPresetFile | backend/src/Service/PresetService.cs:208-224 | an empty file, a disallowed lower-cased extension and a file over 50 MiB are refused in that order; otherwise the lower-cased extension is returned |
| Presets.PresetFileUrlExtension | backend/src/Service/PresetService.cs:228-239 | the URL of an accepted preset file ends in an allowed, lower-cased extension |
| Presets.GetAllPresets | backend/src/Service/PresetService.cs:24-40 | exactly the active presets (of the category, when given), each once, newest first |
| Presets.GetPresetById | backend/src/Service/PresetService.cs:42-49 | the preset with that id, active or not, or null |
| Presets.UpdatedPresetFields | backend/src/Service/PresetService.cs:109-154 | each field of an updated preset changes only under its own guard; each slot with an upload gets its new URL; `UpdatedAt` becomes now |
| Presets.UpdateNeverClearsCategory | backend/src/Service/PresetService.cs:118 | an update never clears a preset's category to null |
| Presets.EmptyUpdateOnlyStamps | backend/src/Service/PresetService.cs:109-154 | an update that gives nothing changes only `UpdatedAt` |
| Presets.CreatedPresetFiles | backend/src/Service/PresetService.cs:55-82 | a created preset's files are exactly those its uploads wrote |
| Presets.PresetService.SavePresetFile | backend/src/Service/PresetService.cs:206-246 | a refused file throws its check's error and writes nothing; an accepted one is written under "/uploads/presets/files/" |
| Presets.PresetService.DeletePresetFile | backend/src/Service/PresetService.cs:248-273 | returns true only when the file existed, and afterwards the file is gone |
| Presets.PresetService.SaveOptionalPresetFile | backend/src/Service/PresetService.cs:78-82 | an optional preset file succeeds iff it is absent or accepted; on success exactly its file is added |
| Presets.PresetService.ReplacePresetFile | backend/src/Service/PresetService.cs:144-152 | a new preset file deletes the old one and saves the new one; without one, nothing changes |
| Presets.PresetService.CreatePreset | backend/src/Service/PresetService.cs:51-97 | succeeds iff every upload is accepted and the category exists; then exactly one active preset with the DTO's fields is added, along with exactly the uploaded files |
| Presets.PresetService.ReplaceUploads | backend/src/Service/PresetService.cs:124-152 | the uploads replace their slots' files one by one; a refused upload throws; no file outside the replaced slots is lost |
| Presets.PresetService.UpdatePreset | backend/src/Service/PresetService.cs:99-167 | returns null for an absent id; on success the row becomes the patched preset stamped with now; a refusal leaves the row as it was |
| Presets.PresetService.DeletePresetFiles | backend/src/Service/PresetService.cs:179-193 | deleting a preset's files removes exactly the files its non-empty URLs name |
| Presets.PresetService.DeletePreset | backend/src/Service/PresetService.cs:169-204 | false for an absent id; refused while purchases refer to the preset; the preset's files are deleted either way |
| Presets.PresetService.DeletePresetRowFirst | backend/src/Service/PresetService.cs:169-204 | corrected order: a refused delete keeps both the row and its files; a successful one removes both |
| Products.ProductEnumRoundTrip | backend/src/Service/ProductService.cs:112-113 | the stored state and the shown flag determine each other |
| Categories.MapToDto | backend/src/Service/CategoryService.cs:131-141 | the DTO carries the id and every column of the category, so the row can be read back from it |
| Presets.CategoryNameOf | backend/src/Service/PresetService.cs:285 | the category name is present iff the preset has a category and that category exists; it is then that category's name |
| Presets.MapToDto | backend/src/Service/PresetService.cs:275-291 | the DTO carries the id, the category name and every column of the preset but `UpdatedAt` |
| Presets.MapToDtoOmitsUpdatedAt | backend/src/Service/PresetService.cs:275-291 | two rows show the same DTO iff they differ at most in `UpdatedAt` |
| Products.MapToDto | backend/src/Service/ProductService.cs:193-209 | the DTO shows the product as active iff its state is `IsActive` |
| Products.GetAllProducts | backend/src/Service/ProductService.cs:76-84 | exactly the products in state `IsActive`, each once, newest first |
| Products.GetProductById | backend/src/Service/ProductService.cs:70-74 | the product with that id, active or not, or null |
| Products.UpdatedProductFields | backend/src/Service/ProductService.cs:96-144 | each field of an updated product changes only under its own guard; each slot with an image gets its new URL; the creation time stays |
| Products.CreatedProductListed | backend/src/Service/ProductService.cs:29-38 | a created product is stored in state `IsActive` and shown as active |
| Products.ProductService.CreateProduct | backend/src/Service/ProductService.cs:25-68 | succeeds iff every image given is accepted; then exactly one product in state `IsActive` is added, along with exactly its images |
| Products.ProductService.ReplaceImages | backend/src/Service/ProductService.cs:115-144 | the images given replace their slots' files one by one; no file outside the replaced slots is lost |
| Products.ProductService.UpdateProduct | backend/src/Service/ProductService.cs:86-154 | returns null for an absent id; on success the row becomes the patched product; a refused image leaves the row as it was |
| Products.ProductService.DeleteProductFiles | backend/src/Service/ProductService.cs:166-179 | deleting a product's images removes exactly the files its non-empty URLs name |
| Products.ProductService.DeleteProduct | backend/src/Service/ProductService.cs:156-191 | false for an absent id; refused while order items refer to the product; its images are deleted either way |
| Products.ProductService.DeleteProductRowFirst | backend/src/Service/ProductService.cs:156-191 | corrected order: a refused delete keeps both the row and its images |
| Purchases.PresetNameOf | backend/src/Service/PurchaseService.cs:109 | `Preset?.Name`: the name of the referenced preset, or null when it is missing |
| Purchases.GetUserPurchases | backend/src/Service/PurchaseService.cs:71-80 | exactly the user's purchases, completed or not, each once, latest first |
| Purchases.HasUserPurchased | backend/src/Service/PurchaseService.cs:82-86 | true iff some purchase of that user and preset is completed |
| Purchases.GetDownloadUrl | backend/src/Service/PurchaseService.cs:88-100 | the preset's file URL iff a completed purchase exists and the preset exists, whether or not it is active; otherwise null |
| Purchases.MapToDto | backend/src/Service/PurchaseService.cs:102-115 | the DTO carries the id, the preset name and every column of the purchase |
| Purchases.TransactionIdFor | backend/src/Service/PurchaseService.cs:49 | a transaction id is 17 characters and begins with "DEMO-" |
| Purchases.TransactionIdShape | backend/src/Service/PurchaseService.cs:49 | after "DEMO-" come the GUID's first 12 hexadecimal digits in upper case, within the column's length limit |
| Purchases.PurchaseRefusal | backend/src/Service/PurchaseService.cs:23-41 | the order of the checks: missing preset, then inactive preset, then any existing purchase of the pair, completed or not |
| Purchases.PurchaseKeepsOnePerPair | backend/src/Service/PurchaseService.cs:35-55 | a purchase that passes the checks keeps at most one purchase per user and preset |
| Purchases.PurchaseGrantsDownload | backend/src/Service/PurchaseService.cs:38-55 | after a purchase the user owns the preset, gets its file URL, and a second purchase is refused |
| Purchases.IncompletePurchaseBlocks | backend/src/Service/PurchaseService.cs:35-41 | an incomplete purchase blocks a new purchase as a duplicate, yet grants neither ownership nor a download |
| Purchases.DeactivationKeepsDownloads | backend/src/Service/PurchaseService.cs:29-32 | deactivating a preset refuses new purchases but keeps the download URL its buyers get |
| Purchases.PurchaseService.CreatePurchase | backend/src/Service/PurchaseService.cs:19-69 | refused with the message of the first failed check and nothing inserted; otherwise exactly one completed purchase at the preset's price is added |
| Auth.UserLogin | backend/src/Service/AuthService.cs:64-99 | succeeds iff a user has the e-mail and the password verifies; any failure is the same null; on success the role is "User" |
| Auth.RegisteredPasswordVerifies | backend/src/Service/AuthService.cs:115-126 | the stored user holds only the hash of the password, and the password verifies against it |
| Auth.RegisterTakesEmail | backend/src/Service/AuthService.cs:106-112 | after a registration the e-mail is taken |
| Auth.RegisterThenLogin | backend/src/Service/AuthService.cs:101-147 | a registered user can log in with the same e-mail and password, and gets the answer registration gave |
| Auth.AuthService.AdminLogin | backend/src/Service/AuthService.cs:24-62 | succeeds iff an active admin has the e-mail and the password verifies; on success `LastLoginAt` becomes now and the answer carries role "Admin" and the username; a failure changes nothing |
| Auth.AuthService.UserRegister | backend/src/Service/AuthService.cs:101-147 | refused iff a user has the e-mail, with nothing changed; otherwise exactly one user with the hashed password is added |
| Seeding.SeedAdmins | backend/src/Data/DbInitializer.cs:7-26 | a non-empty admins table stays; an empty one gets exactly the active default admin |
| Seeding.SeedCategories | backend/src/Data/DbInitializer.cs:28-56 | a non-empty categories table stays; an empty one gets exactly the two default categories |
| Seeding.SeedAdminsIdempotent | backend/src/Data/DbInitializer.cs:10-25 | seeding admins twice leaves the table seeding once left |
| Seeding.SeedCategoriesIdempotent | backend/src/Data/DbInitializer.cs:31-55 | seeding categories twice leaves the table seeding once left |
| Seeding.DefaultAdminPasswordVerifies | backend/src/Data/DbInitializer.cs:19 | the seeded admin can log in with the default password |
| Seeding.SeedDefaultAdmin | backend/src/Data/DbInitializer.cs:7-26 | the admins table becomes `SeedAdmins` of the old one, and the constraints keep holding |
| Seeding.SeedDefaultCategories | backend/src/Data/DbInitializer.cs:28-56 | the categories table becomes `SeedCategories` of the old one, and the constraints keep holding |
| PurchasesApi.FindFirst | backend/src/Controllers/PurchasesController.cs:122-123 | `FindFirst(type)` is null iff no claim has the type, ignoring case; otherwise it is the value of the first claim of that type |
| PurchasesApi.UpperCaseSubClaim | backend/src/Controllers/PurchasesController.cs:122-125 | a claim typed "SUB" identifies the caller as "sub" would |
| PurchasesApi.GetUserId | backend/src/Controllers/PurchasesController.cs:120-126 | the `NameIdentifier` claim, else "sub" (claim types compared ignoring case), parsed as a 32-bit integer; null for an anonymous caller |
| PurchasesApi.TokenIdentifiesAccount | backend/src/Controllers/PurchasesController.cs:120-126 | the caller holding a token issued for account `id` is identified as `id`, whether or not claim types are mapped |
| PurchasesApi.Authorize | backend/src/Controllers/PurchasesController.cs:11 | 401 for an anonymous caller, 403 for a caller without the "User" role, and the action runs iff the caller has the role |
| PurchasesApi.TokenRoleGate | backend/src/Controllers/PurchasesController.cs:11 | a user's token passes the gate and an admin's token gets 403 |
| PurchasesApi.GetMyPurchases | backend/src/Controllers/PurchasesController.cs:55-73 | the gate, then 401 without a user id, else the caller's purchases |
| PurchasesApi.DownloadPreset | backend/src/Controllers/PurchasesController.cs:79-118 | the gate; 401 without a user id; 403 unless purchased; 404 for an empty URL; 404 for a missing file; otherwise the file |
| PurchasesApi.DeactivationKeepsDownload | backend/src/Controllers/PurchasesController.cs:89-111 | deactivating a preset does not change what the download endpoint answers |
| PurchasesApi.PurchaseThenDownload | backend/src/Controllers/PurchasesController.cs:79-111 | a user who just bought a preset whose file exists gets the file |
| PurchasesApi.RefusedDeleteBreaksDownload | backend/src/Service/PresetService.cs:179-197 | a purchased preset's delete is refused, but with its files removed its buyers' download turns from the file into 404 |
| PurchasesApi.PurchasesController.CreatePurchase | backend/src/Controllers/PurchasesController.cs:27-49 | the gate; 401 without a user id; the service's `InvalidOperationException` becomes 400 with its message and any other failure 500; nothing changes unless it succeeds |

## Left out

- File I/O is a set of relative paths. Directory creation, stream copies and the
  content root path are not modelled. So are I/O failures: the "Failed to save image"
  wrapping in `SaveImageAsync`, and the swallowed exception in `DeleteImageAsync`.
- `async`/`await`, EF Core change tracking and logging are not modelled. The
  services' outer `catch` blocks only log and rethrow, so each failure is the
  exception itself.
- The controllers' outer `catch` blocks that turn an unexpected exception into 500 in
  `GetMyPurchases` and `DownloadPreset` are not modelled; the model has no
  unexpected exceptions there.
- The read-then-insert race between two concurrent purchases is not modelled. Every
  operation runs alone. `Schema.DuplicatePurchasesAdmitted` shows that the schema would
  not stop such a race.
- BCrypt is a stand-in digest. The model uses only two facts: a password verifies
  against its own hash, and only the first 72 bytes of its UTF-8 encoding (with the
  NUL terminator) count. The random salt is a parameter. Strings are sequences of
  Unicode scalar values, so a lone UTF-16 surrogate is not modelled.
- A token is the triple (subject, e-mail, role). HMAC signing, issuer, audience, expiry
  and the `jti` claim are not modelled.
- Authentication middleware is not modelled; `backend/src/Program.cs` does not register
  it. The caller is given as a `Principal`, with the claims of a validated token.
- `PurchasesApi.TokenClaims`: with the inbound claim-type mapping switched off, a
  token's "role" claim is not the role claim type `IsInRole` reads. Which handler
  options the application would use is not part of this model.
- `Text.ToLowerInvariant` maps only the characters whose invariant lower case is
  ASCII (A–Z and the Kelvin sign); other characters are kept as they are. The
  library's mapping of other non-ASCII capitals is left out. It cannot change the
  outcome of the ASCII allow-lists in `Images.ValidateImage` and
  `Presets.CheckPresetFile`.
- Presets.CheckPresetFile: an extension holding a non-ASCII capital that the library
  would lower-case is refused either way, so the extension returned is unaffected.
- `Text.EqualsIgnoreCase` folds ASCII letters only. `OrdinalIgnoreCase` also folds
  non-ASCII letters. The claim types compared here are ASCII.
- Name ordering is by character code, as under
  the "C" collation. The database's configured collation is not part of this model.
- Identity columns are unbounded integers; `int` overflow of an id is not modelled.
- `User.cs`, `Order.cs`, `OrderItem.cs`, `CreateProductDto` and `ProductEnum` are
  not part of this model. Their fields are inferred from how the
  services use them. `ProductEnum` has the two values the code uses.
- The other controllers are not modelled (auth, categories, presets, products), and
  neither is the frontend.
- Products.ProductService.CreateProduct: the images saved before a refused image
  stay on disk. The contract bounds the files between the old set and the old set plus
  the uploads, but does not name which ones remain.
- Presets.PresetService.CreatePreset: as for products, the contract bounds the files
  left after a refused upload but does not name them.
- Presets.PresetService.UpdatePreset: after a refused upload, the contract bounds the
  files as for creation but does not name them.
- Products.ProductService.UpdateProduct: the same bound after a refused image.
- Deleting a preset or product that is still referenced is refused by the database.
  Read alone, the service code appears to promise a plain removal that returns true.
  The model follows the code and the schema.

## Findings

| source | as written | input that shows it | evidently intended | confidence | as-written member | corrected member |
|---|---|---|---|---|---|---|
| backend/src/Service/PresetService.cs:179-197 | deletes the preset's images and preset file, then removes the row; the database refuses that removal while a purchase refers to the preset (backend/src/Data/ApplicationDbContext.cs:88-93) | a preset with a stored file and one completed purchase: `DeletePresetAsync` throws, the preset stays listed and in the buyer's history, and the buyer's download answers 404 "Preset file not found" | a refused delete leaves the preset's files in place; the files go only once the row is gone | medium, not executed | Presets.PresetService.DeletePreset, PurchasesApi.RefusedDeleteBreaksDownload | Presets.PresetService.DeletePresetRowFirst |
| backend/src/Service/ProductService.cs:166-184 | deletes the product's three images, then removes the row; the database refuses that removal while an order item refers to the product (backend/src/Data/ApplicationDbContext.cs:67-72) | a product with an image and one order item: `DeleteProductAsync` throws and the product stays, but its images are gone | a refused delete leaves the product's images in place | medium, not executed | Products.ProductService.DeleteProduct | Products.ProductService.DeleteProductRowFirst |
