/**
 * The database schema of the application context: its tables, the unique indexes and
 * foreign keys the database enforces, and what the database does when a row that
 * others refer to is deleted (cascade, set null, or refuse).
 *
 * `AppDbContext` holds one table per `DbSet`; `Valid()` is the set of constraints
 * the database guarantees after every committed `SaveChanges`. Its methods are the
 * writes whose outcome the database decides: inserts and updates it may refuse for
 * a missing referenced row, and deletes with their configured behaviour.
 */
module Schema {
  import opened Wrappers
  import opened Tables
  import opened Models

  // ---------------------------------------------------------------------------
  // Unique indexes
  // ---------------------------------------------------------------------------

  /** The unique index on `Admin.Email`. */
  ghost predicate UniqueAdminEmails(admins: Table<Admin>) {
    forall a, b :: a in admins.rows && b in admins.rows && admins.rows[a].email == admins.rows[b].email ==> a == b
  }

  /** The unique index on `User.Email`. */
  ghost predicate UniqueUserEmails(users: Table<User>) {
    forall a, b :: a in users.rows && b in users.rows && users.rows[a].email == users.rows[b].email ==> a == b
  }

  /** The unique index on `Category.Name`. */
  ghost predicate UniqueCategoryNames(categories: Table<Category>) {
    forall a, b :: a in categories.rows && b in categories.rows && categories.rows[a].name == categories.rows[b].name ==> a == b
  }

  // ---------------------------------------------------------------------------
  // Foreign keys
  // ---------------------------------------------------------------------------

  const FK_ORDERS_USERS: string := "FK_Orders_Users_UserId"
  const FK_ORDER_ITEMS_ORDERS: string := "FK_OrderItems_Orders_OrderId"
  const FK_ORDER_ITEMS_PRODUCTS: string := "FK_OrderItems_Products_ProductId"
  const FK_PRESETS_CATEGORIES: string := "FK_Presets_Categories_CategoryId"
  const FK_PURCHASES_USERS: string := "FK_Purchases_Users_UserId"
  const FK_PURCHASES_PRESETS: string := "FK_Purchases_Presets_PresetId"

  const IX_ADMINS_EMAIL: string := "IX_Admins_Email"
  const IX_USERS_EMAIL: string := "IX_Users_Email"

  /** `Preset.CategoryId` is null or names a category. */
  ghost predicate PresetCategoriesExist(presets: Table<Preset>, categories: Table<Category>) {
    forall id :: id in presets.rows && presets.rows[id].categoryId.Some? ==> presets.rows[id].categoryId.value in categories.rows
  }

  /** Every purchase names an existing user and an existing preset. */
  ghost predicate PurchaseRefsExist(purchases: Table<Purchase>, users: Table<User>, presets: Table<Preset>) {
    forall id :: id in purchases.rows ==> purchases.rows[id].userId in users.rows && purchases.rows[id].presetId in presets.rows
  }

  /** Every order names an existing user. */
  ghost predicate OrderRefsExist(orders: Table<Order>, users: Table<User>) {
    forall id :: id in orders.rows ==> orders.rows[id].userId in users.rows
  }

  /** Every order item names an existing order and an existing product. */
  ghost predicate OrderItemRefsExist(items: Table<OrderItem>, orders: Table<Order>, products: Table<Product>) {
    forall id :: id in items.rows ==> items.rows[id].orderId in orders.rows && items.rows[id].productId in products.rows
  }

  // ---------------------------------------------------------------------------
  // Delete behaviours
  // ---------------------------------------------------------------------------

  /**
   * `OnDelete(SetNull)` from presets to categories: once category `categoryId` is
   * deleted, every preset stays, and those that referred to it refer to nothing.
   */
  function NullifyCategory(presets: Table<Preset>, categoryId: int): (r: Table<Preset>)
    ensures r.nextId == presets.nextId && r.rows.Keys == presets.rows.Keys
    ensures forall id :: id in r.rows ==> r.rows[id].categoryId != Some(categoryId)
    ensures forall id :: id in r.rows ==> r.rows[id] == presets.rows[id].(categoryId := r.rows[id].categoryId)
    ensures forall id :: id in r.rows && presets.rows[id].categoryId != Some(categoryId) ==> r.rows[id] == presets.rows[id]
  {
    var rows := map id | id in presets.rows ::
      if presets.rows[id].categoryId == Some(categoryId) then presets.rows[id].(categoryId := None) else presets.rows[id];
    Table(rows, presets.nextId)
  }

  /** Some purchase refers to preset `presetId`. */
  predicate PresetHasPurchases(purchases: Table<Purchase>, presetId: int)
    requires purchases.Valid()
  {
    Any(purchases, (p: Purchase) => p.presetId == presetId)
  }

  /** Some purchase refers to user `userId`. */
  predicate UserHasPurchases(purchases: Table<Purchase>, userId: int)
    requires purchases.Valid()
  {
    Any(purchases, (p: Purchase) => p.userId == userId)
  }

  /** Some order item refers to product `productId`. */
  predicate ProductHasOrderItems(items: Table<OrderItem>, productId: int)
    requires items.Valid()
  {
    Any(items, (i: OrderItem) => i.productId == productId)
  }

  /** Adding a category whose name no category has keeps the name index unique and every preset's reference intact. */
  lemma CategoryAdded(categories: Table<Category>, presets: Table<Preset>, c: Category)
    requires categories.Valid() && UniqueCategoryNames(categories) && PresetCategoriesExist(presets, categories)
    requires forall id :: id in categories.rows ==> categories.rows[id].name != c.name
    ensures UniqueCategoryNames(Add(categories, c)) && PresetCategoriesExist(presets, Add(categories, c))
  {
  }

  /** Changing category `id` to a name no other category has keeps the name index unique and every reference intact. */
  lemma CategoryReplaced(categories: Table<Category>, presets: Table<Preset>, id: int, c: Category)
    requires categories.Valid() && id in categories.rows
    requires UniqueCategoryNames(categories) && PresetCategoriesExist(presets, categories)
    requires forall other :: other in categories.rows && other != id ==> categories.rows[other].name != c.name
    ensures UniqueCategoryNames(Replace(categories, id, c)) && PresetCategoriesExist(presets, Replace(categories, id, c))
  {
  }

  /** The duplicate check on purchases lives in the service only: two purchases of one pair satisfy every constraint. */
  lemma DuplicatePurchasesAdmitted(users: Table<User>, presets: Table<Preset>, userId: int, presetId: int, p: Purchase)
    requires users.Valid() && presets.Valid() && userId in users.rows && presetId in presets.rows
    requires p.userId == userId && p.presetId == presetId
    ensures var twice := Add(Add(Empty(), p), p);
      && twice.Valid() && |twice.rows.Keys| == 2
      && PurchaseRefsExist(twice, users, presets)
  {
    var twice := Add(Add(Empty<Purchase>(), p), p);
    assert twice.rows.Keys == {1, 2};
  }

  // ---------------------------------------------------------------------------
  // The context
  // ---------------------------------------------------------------------------

  class AppDbContext {
    var users: Table<User>
    var admins: Table<Admin>
    var products: Table<Product>
    var orders: Table<Order>
    var orderItems: Table<OrderItem>
    var categories: Table<Category>
    var presets: Table<Preset>
    var purchases: Table<Purchase>

    /** The constraints the database enforces on committed data. */
    ghost predicate Valid()
      reads this
    {
      && users.Valid() && admins.Valid() && products.Valid() && orders.Valid()
      && orderItems.Valid() && categories.Valid() && presets.Valid() && purchases.Valid()
      && UniqueAdminEmails(admins) && UniqueUserEmails(users) && UniqueCategoryNames(categories)
      && PresetCategoriesExist(presets, categories)
      && PurchaseRefsExist(purchases, users, presets)
      && OrderRefsExist(orders, users)
      && OrderItemRefsExist(orderItems, orders, products)
    }

    /** A freshly migrated, empty database. */
    constructor ()
      ensures Valid()
      ensures users.rows == map[] && admins.rows == map[] && products.rows == map[] && orders.rows == map[]
      ensures orderItems.rows == map[] && categories.rows == map[] && presets.rows == map[] && purchases.rows == map[]
    {
      users, admins, products, orders := Empty(), Empty(), Empty(), Empty();
      orderItems, categories, presets, purchases := Empty(), Empty(), Empty(), Empty();
    }

    /** Insert a preset; the database refuses a `CategoryId` that names no category. */
    method AddPreset(p: Preset) returns (r: Result<int, Exception>)
      requires Valid()
      modifies this`presets
      ensures Valid()
      ensures r.Failure? <==> p.categoryId.Some? && p.categoryId.value !in categories.rows
      ensures r.Failure? ==> r.error == DbUpdateException(FK_PRESETS_CATEGORIES) && presets == old(presets)
      ensures r.Success? ==> r.value == old(presets.nextId) && presets == Add(old(presets), p)
    {
      if p.categoryId.Some? && p.categoryId.value !in categories.rows {
        return Failure(DbUpdateException(FK_PRESETS_CATEGORIES));
      }
      r := Success(presets.nextId);
      presets := Add(presets, p);
    }

    /** Save the changed values of preset `id`; the database refuses a `CategoryId` that names no category. */
    method SavePreset(id: int, p: Preset) returns (error: Option<Exception>)
      requires Valid() && id in presets.rows
      modifies this`presets
      ensures Valid()
      ensures error.Some? <==> p.categoryId.Some? && p.categoryId.value !in categories.rows
      ensures error.Some? ==> error.value == DbUpdateException(FK_PRESETS_CATEGORIES) && presets == old(presets)
      ensures error.None? ==> presets == Replace(old(presets), id, p)
    {
      if p.categoryId.Some? && p.categoryId.value !in categories.rows {
        return Some(DbUpdateException(FK_PRESETS_CATEGORIES));
      }
      error := None;
      presets := Replace(presets, id, p);
    }

    /** Insert a product; no constraint refers to a product's own columns. */
    method AddProduct(p: Product) returns (id: int)
      requires Valid()
      modifies this`products
      ensures Valid()
      ensures id == old(products.nextId) && products == Add(old(products), p)
    {
      id := products.nextId;
      products := Add(products, p);
    }

    /** Save the changed values of product `id`. */
    method SaveProduct(id: int, p: Product)
      requires Valid() && id in products.rows
      modifies this`products
      ensures Valid()
      ensures products == Replace(old(products), id, p)
    {
      products := Replace(products, id, p);
    }

    /** Insert a user; the unique index refuses an email another user has. */
    method AddUser(u: User) returns (r: Result<int, Exception>)
      requires Valid()
      modifies this`users
      ensures Valid()
      ensures r.Failure? <==> exists id :: id in old(users.rows) && old(users.rows)[id].email == u.email
      ensures r.Failure? ==> r.error == DbUpdateException(IX_USERS_EMAIL) && users == old(users)
      ensures r.Success? ==> r.value == old(users.nextId) && users == Add(old(users), u)
    {
      if Any(users, (v: User) => v.email == u.email) {
        return Failure(DbUpdateException(IX_USERS_EMAIL));
      }
      r := Success(users.nextId);
      users := Add(users, u);
    }

    /** Insert an admin; the unique index refuses an email another admin has. */
    method AddAdmin(a: Admin) returns (r: Result<int, Exception>)
      requires Valid()
      modifies this`admins
      ensures Valid()
      ensures r.Failure? <==> exists id :: id in old(admins.rows) && old(admins.rows)[id].email == a.email
      ensures r.Failure? ==> r.error == DbUpdateException(IX_ADMINS_EMAIL) && admins == old(admins)
      ensures r.Success? ==> r.value == old(admins.nextId) && admins == Add(old(admins), a)
    {
      if Any(admins, (b: Admin) => b.email == a.email) {
        return Failure(DbUpdateException(IX_ADMINS_EMAIL));
      }
      r := Success(admins.nextId);
      admins := Add(admins, a);
    }

    /** Save the changed values of admin `id`, whose email stays. */
    method SaveAdmin(id: int, a: Admin)
      requires Valid() && id in admins.rows && a.email == admins.rows[id].email
      modifies this`admins
      ensures Valid()
      ensures admins == Replace(old(admins), id, a)
    {
      admins := Replace(admins, id, a);
    }

    /** Insert a purchase; the database refuses one whose preset or user does not exist. */
    method AddPurchase(p: Purchase) returns (r: Result<int, Exception>)
      requires Valid()
      modifies this`purchases
      ensures Valid()
      ensures r.Failure? <==> p.presetId !in presets.rows || p.userId !in users.rows
      ensures r.Failure? ==> purchases == old(purchases)
      ensures r.Failure? && p.presetId in presets.rows ==> r.error == DbUpdateException(FK_PURCHASES_USERS)
      ensures r.Success? ==> r.value == old(purchases.nextId) && purchases == Add(old(purchases), p)
    {
      if p.presetId !in presets.rows {
        return Failure(DbUpdateException(FK_PURCHASES_PRESETS));
      }
      if p.userId !in users.rows {
        return Failure(DbUpdateException(FK_PURCHASES_USERS));
      }
      r := Success(purchases.nextId);
      purchases := Add(purchases, p);
    }

    /** Delete category `id`: the presets that referred to it keep existing with a null `CategoryId`. */
    method RemoveCategory(id: int)
      requires Valid() && id in categories.rows
      modifies this`categories, this`presets
      ensures Valid()
      ensures categories == Delete(old(categories), id)
      ensures presets == NullifyCategory(old(presets), id)
    {
      categories := Delete(categories, id);
      presets := NullifyCategory(presets, id);
    }

    /** Delete preset `id`, which the database refuses while a purchase refers to it. */
    method RemovePreset(id: int) returns (error: Option<Exception>)
      requires Valid() && id in presets.rows
      modifies this`presets
      ensures Valid()
      ensures error.Some? <==> PresetHasPurchases(purchases, id)
      ensures error.Some? ==> error.value == DbUpdateException(FK_PURCHASES_PRESETS) && presets == old(presets)
      ensures error.None? ==> presets == Delete(old(presets), id)
    {
      if PresetHasPurchases(purchases, id) {
        return Some(DbUpdateException(FK_PURCHASES_PRESETS));
      }
      error := None;
      presets := Delete(presets, id);
    }

    /** Delete product `id`, which the database refuses while an order item refers to it. */
    method RemoveProduct(id: int) returns (error: Option<Exception>)
      requires Valid() && id in products.rows
      modifies this`products
      ensures Valid()
      ensures error.Some? <==> ProductHasOrderItems(orderItems, id)
      ensures error.Some? ==> error.value == DbUpdateException(FK_ORDER_ITEMS_PRODUCTS) && products == old(products)
      ensures error.None? ==> products == Delete(old(products), id)
    {
      if ProductHasOrderItems(orderItems, id) {
        return Some(DbUpdateException(FK_ORDER_ITEMS_PRODUCTS));
      }
      error := None;
      products := Delete(products, id);
    }

    /**
     * Delete user `id`: refused while a purchase refers to the user; otherwise the
     * user's orders go with it, and the items of those orders with them.
     */
    method RemoveUser(id: int) returns (error: Option<Exception>)
      requires Valid() && id in users.rows
      modifies this`users, this`orders, this`orderItems
      ensures Valid()
      ensures error.Some? <==> UserHasPurchases(purchases, id)
      ensures error.Some? ==> error.value == DbUpdateException(FK_PURCHASES_USERS)
      ensures error.Some? ==> users == old(users) && orders == old(orders) && orderItems == old(orderItems)
      ensures error.None? ==> users == Delete(old(users), id)
      ensures error.None? ==> orders == RemoveWhere(old(orders), (o: Order) => o.userId == id)
      ensures error.None? ==> orderItems == RemoveWhere(old(orderItems), (i: OrderItem) => i.orderId in old(orders.rows) && old(orders.rows)[i.orderId].userId == id)
    {
      if UserHasPurchases(purchases, id) {
        return Some(DbUpdateException(FK_PURCHASES_USERS));
      }
      error := None;
      var ordersBefore := orders;
      orderItems := RemoveWhere(orderItems, (i: OrderItem) => i.orderId in ordersBefore.rows && ordersBefore.rows[i.orderId].userId == id);
      orders := RemoveWhere(orders, (o: Order) => o.userId == id);
      users := Delete(users, id);
    }
  }
}
