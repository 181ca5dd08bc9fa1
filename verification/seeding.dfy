/**
 * The start-up seeding of the database: a default admin and two default categories,
 * each inserted only into an empty table, so that running a seeder again changes
 * nothing.
 */
module Seeding {
  import opened Wrappers
  import opened Tables
  import opened Crypto
  import opened Models
  import opened Schema

  const DEFAULT_ADMIN_USERNAME: string := "admin"
  const DEFAULT_ADMIN_EMAIL: string := "admin@presetshop.com"
  const DEFAULT_ADMIN_PASSWORD: string := "Admin@123"

  /** The default admin, its password hashed with `salt`. */
  function DefaultAdmin(salt: nat, now: Timestamp): Admin {
    Admin(DEFAULT_ADMIN_USERNAME, DEFAULT_ADMIN_EMAIL, HashPassword(DEFAULT_ADMIN_PASSWORD, salt), Some(now), None, true)
  }

  function MobilePresets(now: Timestamp): Category {
    Category("Mobile Presets", Some("Lightroom presets optimized for mobile photography"), true, Some(now))
  }

  function LightroomPresets(now: Timestamp): Category {
    Category("Lightroom Presets", Some("Professional Lightroom presets for desktop"), true, Some(now))
  }

  /** The admins table after `SeedDefaultAdminAsync`. */
  function SeedAdmins(admins: Table<Admin>, salt: nat, now: Timestamp): (r: Table<Admin>)
    requires admins.Valid()
    ensures r.Valid()
    ensures admins.rows != map[] ==> r == admins
    ensures admins.rows == map[] ==>
      && r.rows == map[admins.nextId := DefaultAdmin(salt, now)]
      && r.rows[admins.nextId].isActive && r.rows[admins.nextId].email == DEFAULT_ADMIN_EMAIL
  {
    if admins.rows != map[] then admins else Add(admins, DefaultAdmin(salt, now))
  }

  /** The categories table after `SeedDefaultCategoriesAsync`. */
  function SeedCategories(categories: Table<Category>, now: Timestamp): (r: Table<Category>)
    requires categories.Valid()
    ensures r.Valid()
    ensures categories.rows != map[] ==> r == categories
    ensures categories.rows == map[] ==>
      r.rows == map[categories.nextId := MobilePresets(now), categories.nextId + 1 := LightroomPresets(now)]
  {
    if categories.rows != map[] then categories
    else
      var n := categories.nextId;
      Table(map[n := MobilePresets(now), n + 1 := LightroomPresets(now)], n + 2)
  }

  /** The admin seeder is idempotent: a second run, at any time and with any salt, keeps the first run's table. */
  lemma SeedAdminsIdempotent(admins: Table<Admin>, salt: nat, now: Timestamp, salt2: nat, now2: Timestamp)
    requires admins.Valid()
    ensures SeedAdmins(SeedAdmins(admins, salt, now), salt2, now2) == SeedAdmins(admins, salt, now)
  {
    var once := SeedAdmins(admins, salt, now);
    if admins.rows == map[] {
      assert admins.nextId in once.rows;
    }
  }

  /** The category seeder is idempotent: a second run keeps the first run's table. */
  lemma SeedCategoriesIdempotent(categories: Table<Category>, now: Timestamp, now2: Timestamp)
    requires categories.Valid()
    ensures SeedCategories(SeedCategories(categories, now), now2) == SeedCategories(categories, now)
  {
    var once := SeedCategories(categories, now);
    if categories.rows == map[] {
      assert categories.nextId in once.rows;
    }
  }

  /** The seeded admin can log in with the default password. */
  lemma DefaultAdminPasswordVerifies(salt: nat, now: Timestamp)
    ensures Verify(DEFAULT_ADMIN_PASSWORD, DefaultAdmin(salt, now).passwordHash)
  {
    VerifyHash(DEFAULT_ADMIN_PASSWORD, salt);
  }

  /** `SeedDefaultAdminAsync(context)`. */
  method SeedDefaultAdmin(context: AppDbContext, salt: nat, now: Timestamp)
    requires context.Valid()
    modifies context`admins
    ensures context.Valid()
    ensures context.admins == SeedAdmins(old(context.admins), salt, now)
  {
    if context.admins.rows != map[] {
      return;
    }
    var _ := context.AddAdmin(DefaultAdmin(salt, now));
  }

  /** `SeedDefaultCategoriesAsync(context)`. */
  method SeedDefaultCategories(context: AppDbContext, now: Timestamp)
    requires context.Valid()
    modifies context`categories
    ensures context.Valid()
    ensures context.categories == SeedCategories(old(context.categories), now)
  {
    if context.categories.rows != map[] {
      return;
    }
    var first := Add(context.categories, MobilePresets(now));
    CategoryAdded(context.categories, context.presets, MobilePresets(now));
    CategoryAdded(first, context.presets, LightroomPresets(now));
    context.categories := Add(first, LightroomPresets(now));
    assert context.categories.rows == map[first.nextId - 1 := MobilePresets(now), first.nextId := LightroomPresets(now)];
  }
}
