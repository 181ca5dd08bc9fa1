/**
 * The entity classes the database stores and the data-transfer objects the services
 * accept and return. A row's `Id` is its key in its table (see `Tables`), so the
 * records carry no id; the DTOs, which leave the service, do.
 *
 * A `DateTime` is a `Timestamp`; a `decimal(18,2)` amount is a whole number of
 * hundredths (`Cents`); a nullable column is an `Option`.
 */
module Models {
  import opened Wrappers
  import opened Crypto

  type Timestamp = int
  type Cents = int

  // ---------------------------------------------------------------------------
  // Entities
  // ---------------------------------------------------------------------------

  datatype Admin = Admin(
    username: string,
    email: string,
    passwordHash: PasswordHash,
    createdAt: Option<Timestamp>,
    lastLoginAt: Option<Timestamp>,
    isActive: bool)

  /** The profile fields registration stores; `CreateAt` is spelled as the code spells it. */
  datatype User = User(
    email: string,
    passwordHash: PasswordHash,
    fullName: string,
    phoneNumber: string,
    address: string,
    city: string,
    country: string,
    postalCode: string,
    createAt: Option<Timestamp>)

  datatype Category = Category(
    name: string,
    description: Option<string>,
    isActive: bool,
    createdAt: Option<Timestamp>)

  datatype Preset = Preset(
    name: string,
    description: string,
    price: Cents,
    categoryId: Option<int>,
    beforeImageUrl: Option<string>,
    afterImageUrl: Option<string>,
    presetFileUrl: Option<string>,
    isActive: bool,
    createdAt: Option<Timestamp>,
    updatedAt: Option<Timestamp>)

  /** A product's availability; `IsActive` and `IsDeActive` are the values the code uses. */
  datatype ProductEnum = IsActive | IsDeActive

  datatype Product = Product(
    name: Option<string>,
    description: Option<string>,
    price: Option<Cents>,
    imageUrl: Option<string>,
    beforeImageUrl: Option<string>,
    afterImageUrl: Option<string>,
    category: Option<string>,
    presetCount: int,
    isActive: ProductEnum,
    createAt: Option<Timestamp>)

  /** An order: only the reference to its user takes part in the schema rules. */
  datatype Order = Order(userId: int)

  /** An order line: only its references take part in the schema rules. */
  datatype OrderItem = OrderItem(orderId: int, productId: int)

  datatype Purchase = Purchase(
    userId: int,
    presetId: int,
    purchasePrice: Cents,
    transactionId: Option<string>,
    purchasedAt: Timestamp,
    isCompleted: bool)

  // ---------------------------------------------------------------------------
  // Uploaded files and exceptions
  // ---------------------------------------------------------------------------

  /** What the services read of an `IFormFile`: its name, length in bytes and content type. */
  datatype FormFile = FormFile(fileName: string, length: nat, contentType: string)

  /** The exceptions the services throw or let through. */
  datatype Exception =
    | InvalidOperationException(message: string)
    | ArgumentException(message: string)
      /** The database refused `SaveChanges`; `constraint` names the violated foreign key. */
    | DbUpdateException(constraint: string)

  // ---------------------------------------------------------------------------
  // Data-transfer objects
  // ---------------------------------------------------------------------------

  datatype CategoryDto = CategoryDto(
    id: int,
    name: string,
    description: Option<string>,
    isActive: bool,
    createdAt: Option<Timestamp>)

  datatype CreateCategoryDto = CreateCategoryDto(name: string, description: Option<string>)

  datatype UpdateCategoryDto = UpdateCategoryDto(
    name: Option<string>,
    description: Option<string>,
    isActive: Option<bool>)

  datatype PresetDto = PresetDto(
    id: int,
    name: string,
    description: string,
    price: Cents,
    categoryId: Option<int>,
    categoryName: Option<string>,
    beforeImageUrl: Option<string>,
    afterImageUrl: Option<string>,
    presetFileUrl: Option<string>,
    isActive: bool,
    createdAt: Option<Timestamp>)

  datatype CreatePresetDto = CreatePresetDto(
    name: string,
    description: string,
    price: Cents,
    categoryId: Option<int>,
    beforeImage: Option<FormFile>,
    afterImage: Option<FormFile>,
    presetFile: Option<FormFile>)

  datatype UpdatePresetDto = UpdatePresetDto(
    name: Option<string>,
    description: Option<string>,
    price: Option<Cents>,
    categoryId: Option<int>,
    isActive: Option<bool>,
    beforeImage: Option<FormFile>,
    afterImage: Option<FormFile>,
    presetFile: Option<FormFile>)

  datatype ProductResponseDto = ProductResponseDto(
    id: int,
    name: Option<string>,
    description: Option<string>,
    price: Option<Cents>,
    imageUrl: Option<string>,
    beforeImageUrl: Option<string>,
    afterImageUrl: Option<string>,
    category: Option<string>,
    presetCount: int,
    isActive: bool,
    createdAt: Option<Timestamp>)

  /** The fields `CreateProductAsync` reads of its argument. */
  datatype CreateProductDto = CreateProductDto(
    name: Option<string>,
    description: Option<string>,
    price: Option<Cents>,
    category: Option<string>,
    presetCount: int,
    mainImage: Option<FormFile>,
    beforeImage: Option<FormFile>,
    afterImage: Option<FormFile>)

  datatype UpdateProductDto = UpdateProductDto(
    name: Option<string>,
    description: Option<string>,
    price: Option<Cents>,
    category: Option<string>,
    presetCount: Option<int>,
    mainImage: Option<FormFile>,
    beforeImage: Option<FormFile>,
    afterImage: Option<FormFile>,
    isActive: Option<bool>)

  datatype PurchaseDto = PurchaseDto(
    id: int,
    userId: int,
    presetId: int,
    presetName: Option<string>,
    purchasePrice: Cents,
    transactionId: Option<string>,
    purchasedAt: Timestamp,
    isCompleted: bool)

  datatype CreatePurchaseDto = CreatePurchaseDto(presetId: int)

  datatype LoginDto = LoginDto(email: string, password: string)

  datatype RegisterDto = RegisterDto(
    fullName: string,
    email: string,
    password: string,
    phoneNumber: string,
    address: string,
    city: string,
    country: string,
    postalCode: string)

  datatype AuthResponseDto = AuthResponseDto(
    id: int,
    email: string,
    fullName: string,
    token: Token,
    role: string)
}
