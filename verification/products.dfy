/**
 * The product service: the active-product listing, lookup, creation with optional
 * images, partial update with replacement of images, and deletion. A product's
 * availability is stored as a `ProductEnum` and shown as a boolean.
 */
module Products {
  import opened Wrappers
  import opened Text
  import opened Guids
  import opened Ordering
  import opened Tables
  import opened Models
  import opened Schema
  import opened Images

  const MAIN_FOLDER: string := "products"
  const BEFORE_FOLDER: string := "before"
  const AFTER_FOLDER: string := "after"

  /** `dto.IsActive.Value ? ProductEnum.IsActive : ProductEnum.IsDeActive`. */
  function ToProductEnum(active: bool): ProductEnum {
    if active then IsActive else IsDeActive
  }

  /** `product.IsActive == ProductEnum.IsActive`. */
  predicate IsActiveFlag(e: ProductEnum) {
    e == IsActive
  }

  /** The stored value and the shown flag determine each other. */
  lemma ProductEnumRoundTrip(active: bool, e: ProductEnum)
    ensures IsActiveFlag(ToProductEnum(active)) == active
    ensures ToProductEnum(IsActiveFlag(e)) == e
  {
  }

  /** The DTO of product `id`: its fields, with the enum shown as a flag. */
  function MapToDto(id: int, p: Product): (d: ProductResponseDto)
    ensures d.id == id && d.isActive == (p.isActive == IsActive)
  {
    ProductResponseDto(id, p.name, p.description, p.price, p.imageUrl, p.beforeImageUrl, p.afterImageUrl,
                       p.category, p.presetCount, IsActiveFlag(p.isActive), p.createAt)
  }

  /** `OrderByDescending(p => p.CreateAt)`. */
  predicate NewestFirst(a: ProductResponseDto, b: ProductResponseDto) {
    NewerFirst(a.createdAt, b.createdAt)
  }

  /**
   * `GetAllProductsAsync()`: every product whose state is `IsActive`, each once,
   * newest first (a product with no creation time comes first).
   */
  function GetAllProducts(products: Table<Product>): (r: seq<ProductResponseDto>)
    requires products.Valid()
    ensures SortedBy(r, NewestFirst)
    ensures forall i :: 0 <= i < |r| ==> r[i].isActive
    ensures multiset(r) == multiset(set id | id in products.rows && products.rows[id].isActive == IsActive :: MapToDto(id, products.rows[id]))
  {
    NewerFirstTotalPreorder();
    assert TotalPreorder(NewestFirst);
    var r := Query(products, (p: Product) => p.isActive == IsActive, MapToDto, (d: ProductResponseDto) => d.id, NewestFirst);
    ActiveOnly(products, r);
    r
  }

  lemma ActiveOnly(products: Table<Product>, r: seq<ProductResponseDto>)
    requires multiset(r) == multiset(set id | id in products.rows && products.rows[id].isActive == IsActive :: MapToDto(id, products.rows[id]))
    ensures forall i :: 0 <= i < |r| ==> r[i].isActive
  {
    forall i | 0 <= i < |r| ensures r[i].isActive {
      assert r[i] in multiset(r);
    }
  }

  /** `GetProductByIdAsync(id)`: the product with key `id`, active or not, or null. */
  function GetProductById(products: Table<Product>, id: int): (r: Option<ProductResponseDto>)
    ensures r.Some? <==> id in products.rows
    ensures r.Some? ==> r.value == MapToDto(id, products.rows[id])
  {
    if id in products.rows then Some(MapToDto(id, products.rows[id])) else None
  }

  /** The product `CreateProductAsync` stores: the DTO's fields, `IsActive`, and the URLs of its images. */
  function CreatedProduct(dto: CreateProductDto, now: Timestamp, gMain: Guid, gBefore: Guid, gAfter: Guid): Product {
    Product(dto.name, dto.description, dto.price,
            NewImageUrl(dto.mainImage, MAIN_FOLDER, gMain), NewImageUrl(dto.beforeImage, BEFORE_FOLDER, gBefore),
            NewImageUrl(dto.afterImage, AFTER_FOLDER, gAfter), dto.category, dto.presetCount, IsActive, Some(now))
  }

  /** Every image present passes `ValidateImage`. */
  ghost predicate ImagesAccepted(main: Option<FormFile>, before: Option<FormFile>, after: Option<FormFile>) {
    (main.None? || ImageAccepted(main)) && (before.None? || ImageAccepted(before)) && (after.None? || ImageAccepted(after))
  }

  /** The files the images of a create or update write. */
  function UploadedKeys(main: Option<FormFile>, before: Option<FormFile>, after: Option<FormFile>,
                        gMain: Guid, gBefore: Guid, gAfter: Guid): set<string> {
    UrlKey(NewImageUrl(main, MAIN_FOLDER, gMain)) + UrlKey(NewImageUrl(before, BEFORE_FOLDER, gBefore))
      + UrlKey(NewImageUrl(after, AFTER_FOLDER, gAfter))
  }

  /** The files of a product: those its non-empty URLs name. */
  function ProductFiles(p: Product): set<string> {
    UrlKey(p.imageUrl) + UrlKey(p.beforeImageUrl) + UrlKey(p.afterImageUrl)
  }

  /** The files an update replaces: those of the slots that receive a new image. */
  function ReplacedKeys(p: Product, dto: UpdateProductDto): set<string> {
    (if dto.mainImage.Some? then UrlKey(p.imageUrl) else {})
      + (if dto.beforeImage.Some? then UrlKey(p.beforeImageUrl) else {})
      + (if dto.afterImage.Some? then UrlKey(p.afterImageUrl) else {})
  }

  /**
   * The scalar fields of an update: name, description and category change only to a
   * non-empty value; price, preset count and state only when given.
   */
  function Patched(p: Product, dto: UpdateProductDto): Product {
    p.(name := if IsNullOrEmpty(dto.name) then p.name else dto.name,
       description := if IsNullOrEmpty(dto.description) then p.description else dto.description,
       price := if dto.price.Some? then dto.price else p.price,
       category := if IsNullOrEmpty(dto.category) then p.category else dto.category,
       presetCount := if dto.presetCount.Some? then dto.presetCount.value else p.presetCount,
       isActive := if dto.isActive.Some? then ToProductEnum(dto.isActive.value) else p.isActive)
  }

  /** The image slots after an update: each slot that receives an image holds its new URL. */
  function WithImages(p: Product, dto: UpdateProductDto, gMain: Guid, gBefore: Guid, gAfter: Guid): Product {
    p.(imageUrl := if dto.mainImage.Some? then NewImageUrl(dto.mainImage, MAIN_FOLDER, gMain) else p.imageUrl,
       beforeImageUrl := if dto.beforeImage.Some? then NewImageUrl(dto.beforeImage, BEFORE_FOLDER, gBefore) else p.beforeImageUrl,
       afterImageUrl := if dto.afterImage.Some? then NewImageUrl(dto.afterImage, AFTER_FOLDER, gAfter) else p.afterImageUrl)
  }

  /** The row `UpdateProductAsync` saves. */
  function UpdatedProduct(p: Product, dto: UpdateProductDto, gMain: Guid, gBefore: Guid, gAfter: Guid): Product {
    WithImages(Patched(p, dto), dto, gMain, gBefore, gAfter)
  }

  /** The files after a successful update's images: slot by slot, the old file replaced by the new. */
  function UploadedFiles(files: set<string>, p: Product, dto: UpdateProductDto, gMain: Guid, gBefore: Guid, gAfter: Guid): set<string> {
    AfterReplace(AfterReplace(AfterReplace(files,
      dto.mainImage.Some?, p.imageUrl, NewImageUrl(dto.mainImage, MAIN_FOLDER, gMain)),
      dto.beforeImage.Some?, p.beforeImageUrl, NewImageUrl(dto.beforeImage, BEFORE_FOLDER, gBefore)),
      dto.afterImage.Some?, p.afterImageUrl, NewImageUrl(dto.afterImage, AFTER_FOLDER, gAfter))
  }

  /**
   * What an update promises of the saved row: each field takes the DTO's value only
   * when one is given (a non-empty one for the strings), the shown state follows the
   * flag given, each slot with an image takes its new URL, and the creation time stays.
   */
  lemma UpdatedProductFields(p: Product, dto: UpdateProductDto, gMain: Guid, gBefore: Guid, gAfter: Guid)
    ensures var u := UpdatedProduct(p, dto, gMain, gBefore, gAfter);
      && u.name == (if IsNullOrEmpty(dto.name) then p.name else dto.name)
      && u.description == (if IsNullOrEmpty(dto.description) then p.description else dto.description)
      && u.price == (if dto.price.Some? then dto.price else p.price)
      && u.category == (if IsNullOrEmpty(dto.category) then p.category else dto.category)
      && u.presetCount == (if dto.presetCount.Some? then dto.presetCount.value else p.presetCount)
      && IsActiveFlag(u.isActive) == (if dto.isActive.Some? then dto.isActive.value else IsActiveFlag(p.isActive))
      && u.imageUrl == (if dto.mainImage.Some? then NewImageUrl(dto.mainImage, MAIN_FOLDER, gMain) else p.imageUrl)
      && u.beforeImageUrl == (if dto.beforeImage.Some? then NewImageUrl(dto.beforeImage, BEFORE_FOLDER, gBefore) else p.beforeImageUrl)
      && u.afterImageUrl == (if dto.afterImage.Some? then NewImageUrl(dto.afterImage, AFTER_FOLDER, gAfter) else p.afterImageUrl)
      && u.createAt == p.createAt
  {
  }

  /** A created product is listed: its state is `IsActive` and its DTO shows it active. */
  lemma CreatedProductListed(dto: CreateProductDto, now: Timestamp, gMain: Guid, gBefore: Guid, gAfter: Guid, id: int)
    ensures CreatedProduct(dto, now, gMain, gBefore, gAfter).isActive == IsActive
    ensures MapToDto(id, CreatedProduct(dto, now, gMain, gBefore, gAfter)).isActive
  {
  }

  class ProductService {
    const context: AppDbContext
    const images: ImageService

    constructor (context: AppDbContext, images: ImageService)
      ensures this.context == context && this.images == images
    {
      this.context := context;
      this.images := images;
    }

    /**
     * `CreateProductAsync(dto)`: saves the images that are present (main, before,
     * after, in that order), then inserts a product in state `IsActive`. A refused
     * image throws before the insert, the images saved before it staying on disk.
     */
    method CreateProduct(dto: CreateProductDto, now: Timestamp, gMain: Guid, gBefore: Guid, gAfter: Guid)
      returns (r: Result<ProductResponseDto, Exception>)
      requires context.Valid()
      modifies context`products, images.store
      ensures context.Valid()
      ensures r.Success? <==> ImagesAccepted(dto.mainImage, dto.beforeImage, dto.afterImage)
      ensures r.Failure? ==> r.error == ArgumentException("Invalid image file") && context.products == old(context.products)
      ensures r.Success? ==>
        var created := CreatedProduct(dto, now, gMain, gBefore, gAfter);
        && context.products == Add(old(context.products), created)
        && r.value == MapToDto(old(context.products.nextId), created)
      ensures old(images.store.files) <= images.store.files
      ensures images.store.files <= old(images.store.files) + UploadedKeys(dto.mainImage, dto.beforeImage, dto.afterImage, gMain, gBefore, gAfter)
      ensures r.Success? ==>
        images.store.files == old(images.store.files) + UploadedKeys(dto.mainImage, dto.beforeImage, dto.afterImage, gMain, gBefore, gAfter)
    {
      var main := images.SaveOptional(dto.mainImage, MAIN_FOLDER, gMain);
      if main.Failure? {
        return Failure(main.error);
      }
      var before := images.SaveOptional(dto.beforeImage, BEFORE_FOLDER, gBefore);
      if before.Failure? {
        return Failure(before.error);
      }
      var after := images.SaveOptional(dto.afterImage, AFTER_FOLDER, gAfter);
      if after.Failure? {
        return Failure(after.error);
      }
      var product := Product(dto.name, dto.description, dto.price, main.value, before.value, after.value,
                             dto.category, dto.presetCount, IsActive, Some(now));
      var id := context.AddProduct(product);
      r := Success(MapToDto(id, product));
    }

    /**
     * The images of `UpdateProductAsync`, slot by slot: each image given replaces the
     * file of its slot; a refused one throws, the slots before it already replaced.
     */
    method ReplaceImages(p: Product, dto: UpdateProductDto, gMain: Guid, gBefore: Guid, gAfter: Guid)
      returns (r: Result<Product, Exception>)
      modifies images.store
      ensures r.Success? <==> ImagesAccepted(dto.mainImage, dto.beforeImage, dto.afterImage)
      ensures r.Failure? ==> r.error == ArgumentException("Invalid image file")
      ensures r.Success? ==> r.value == WithImages(p, dto, gMain, gBefore, gAfter)
      ensures images.store.files <= old(images.store.files) + UploadedKeys(dto.mainImage, dto.beforeImage, dto.afterImage, gMain, gBefore, gAfter)
      ensures forall k :: k in old(images.store.files) && k !in ReplacedKeys(p, dto) ==> k in images.store.files
      ensures r.Success? ==> images.store.files == UploadedFiles(old(images.store.files), p, dto, gMain, gBefore, gAfter)
    {
      var main := images.ReplaceOptional(p.imageUrl, dto.mainImage, MAIN_FOLDER, gMain);
      if main.Failure? {
        return Failure(main.error);
      }
      var before := images.ReplaceOptional(p.beforeImageUrl, dto.beforeImage, BEFORE_FOLDER, gBefore);
      if before.Failure? {
        return Failure(before.error);
      }
      var after := images.ReplaceOptional(p.afterImageUrl, dto.afterImage, AFTER_FOLDER, gAfter);
      if after.Failure? {
        return Failure(after.error);
      }
      r := Success(p.(imageUrl := main.value, beforeImageUrl := before.value, afterImageUrl := after.value));
    }

    /**
     * `UpdateProductAsync(id, dto)`: null for an absent id. The row becomes
     * `UpdatedProduct` of the old one; each image given replaces the old file of its
     * slot. A refused image throws, leaving the row as it was but the files already
     * replaced gone.
     */
    method UpdateProduct(id: int, dto: UpdateProductDto, gMain: Guid, gBefore: Guid, gAfter: Guid)
      returns (r: Result<Option<ProductResponseDto>, Exception>)
      requires context.Valid()
      modifies context`products, images.store
      ensures context.Valid()
      ensures id !in old(context.products.rows) ==>
        r == Success(None) && context.products == old(context.products) && images.store.files == old(images.store.files)
      ensures r.Failure? ==> r.error == ArgumentException("Invalid image file") && context.products == old(context.products)
      ensures id in old(context.products.rows) ==> (r.Failure? <==> !ImagesAccepted(dto.mainImage, dto.beforeImage, dto.afterImage))
      ensures id in old(context.products.rows) && r.Success? ==>
        var updated := UpdatedProduct(old(context.products.rows)[id], dto, gMain, gBefore, gAfter);
        && context.products == Replace(old(context.products), id, updated)
        && r.value == Some(MapToDto(id, updated))
      ensures id in old(context.products.rows) ==>
        var was := old(context.products.rows)[id];
        && images.store.files <= old(images.store.files) + UploadedKeys(dto.mainImage, dto.beforeImage, dto.afterImage, gMain, gBefore, gAfter)
        && (forall k :: k in old(images.store.files) && k !in ReplacedKeys(was, dto) ==> k in images.store.files)
      ensures id in old(context.products.rows) && r.Success? ==>
        images.store.files == UploadedFiles(old(images.store.files), old(context.products.rows)[id], dto, gMain, gBefore, gAfter)
    {
      if id !in context.products.rows {
        return Success(None);
      }
      var product := Patched(context.products.rows[id], dto);
      var replaced := ReplaceImages(product, dto, gMain, gBefore, gAfter);
      if replaced.Failure? {
        return Failure(replaced.error);
      }
      product := replaced.value;
      context.SaveProduct(id, product);
      r := Success(Some(MapToDto(id, product)));
    }

    /** The file deletions of `DeleteProductAsync`: the main, before and after images. */
    method DeleteProductFiles(product: Product)
      modifies images.store
      ensures images.store.files == old(images.store.files) - ProductFiles(product)
    {
      images.DeleteIfPresent(product.imageUrl);
      images.DeleteIfPresent(product.beforeImageUrl);
      images.DeleteIfPresent(product.afterImageUrl);
    }

    /**
     * `DeleteProductAsync(id)`: false for an absent id. Otherwise the product's images
     * are deleted first; then the row is deleted, which the database refuses while an
     * order item refers to the product (the images are gone either way).
     */
    method DeleteProduct(id: int) returns (r: Result<bool, Exception>)
      requires context.Valid()
      modifies context`products, images.store
      ensures context.Valid()
      ensures r == Success(false) <==> id !in old(context.products.rows)
      ensures r == Success(false) ==> context.products == old(context.products) && images.store.files == old(images.store.files)
      ensures r.Failure? <==> id in old(context.products.rows) && ProductHasOrderItems(context.orderItems, id)
      ensures r.Failure? ==> r.error == DbUpdateException(FK_ORDER_ITEMS_PRODUCTS) && context.products == old(context.products)
      ensures r == Success(true) ==> context.products == Delete(old(context.products), id)
      ensures id in old(context.products.rows) ==>
        images.store.files == old(images.store.files) - ProductFiles(old(context.products.rows)[id])
    {
      if id !in context.products.rows {
        return Success(false);
      }
      var product := context.products.rows[id];
      DeleteProductFiles(product);
      var error := context.RemoveProduct(id);
      if error.Some? {
        return Failure(error.value);
      }
      r := Success(true);
    }

    /**
     * `DeleteProductAsync` with its steps in the order that keeps a refused delete
     * harmless: the row is deleted first, and the images only once that succeeded.
     */
    method DeleteProductRowFirst(id: int) returns (r: Result<bool, Exception>)
      requires context.Valid()
      modifies context`products, images.store
      ensures context.Valid()
      ensures r == Success(false) <==> id !in old(context.products.rows)
      ensures r.Failure? <==> id in old(context.products.rows) && ProductHasOrderItems(context.orderItems, id)
      ensures r.Failure? ==> r.error == DbUpdateException(FK_ORDER_ITEMS_PRODUCTS)
      ensures !(r == Success(true)) ==> context.products == old(context.products) && images.store.files == old(images.store.files)
      ensures r == Success(true) ==>
        && context.products == Delete(old(context.products), id)
        && images.store.files == old(images.store.files) - ProductFiles(old(context.products.rows)[id])
    {
      if id !in context.products.rows {
        return Success(false);
      }
      var product := context.products.rows[id];
      var error := context.RemoveProduct(id);
      if error.Some? {
        return Failure(error.value);
      }
      DeleteProductFiles(product);
      r := Success(true);
    }
  }
}
