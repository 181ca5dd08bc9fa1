/**
 * The purchase service: a user's purchase history, the purchased-check, the download
 * URL of a purchased preset, and the (demonstration) purchase itself, which records
 * a completed payment at the preset's current price.
 */
module Purchases {
  import opened Wrappers
  import opened Text
  import opened Guids
  import opened Ordering
  import opened Tables
  import opened Models
  import opened Schema

  const PRESET_NOT_FOUND: string := "Preset not found"
  const PRESET_NOT_AVAILABLE: string := "Preset is not available for purchase"
  const ALREADY_PURCHASED: string := "You have already purchased this preset"

  /** The longest transaction id the column stores. */
  const MAX_TRANSACTION_ID_LENGTH: int := 100

  /** `purchase.Preset?.Name` once the preset is loaded. */
  function PresetNameOf(presets: Table<Preset>, p: Purchase): (name: Option<string>)
    ensures name.Some? <==> p.presetId in presets.rows
    ensures name.Some? ==> name.value == presets.rows[p.presetId].name
  {
    if p.presetId in presets.rows then Some(presets.rows[p.presetId].name) else None
  }

  /** The DTO of purchase `id`. */
  function MapToDto(id: int, p: Purchase, presetName: Option<string>): (d: PurchaseDto)
    ensures d.id == id && d.presetName == presetName
    ensures Purchase(d.userId, d.presetId, d.purchasePrice, d.transactionId, d.purchasedAt, d.isCompleted) == p
  {
    PurchaseDto(id, p.userId, p.presetId, presetName, p.purchasePrice, p.transactionId, p.purchasedAt, p.isCompleted)
  }

  /** `OrderByDescending(p => p.PurchasedAt)`. */
  predicate LatestFirst(a: PurchaseDto, b: PurchaseDto) {
    a.purchasedAt >= b.purchasedAt
  }

  lemma LatestFirstTotalPreorder()
    ensures TotalPreorder(LatestFirst)
  {
  }

  /** The rows of the user's purchase history. */
  predicate OfUser(p: Purchase, userId: int) {
    p.userId == userId
  }

  /** `GetUserPurchasesAsync(userId)`: every purchase of the user, completed or not, each once, latest first. */
  function GetUserPurchases(purchases: Table<Purchase>, presets: Table<Preset>, userId: int): (r: seq<PurchaseDto>)
    requires purchases.Valid()
    ensures SortedBy(r, LatestFirst)
    ensures forall i :: 0 <= i < |r| ==> r[i].userId == userId
    ensures multiset(r) == multiset(set id | id in purchases.rows && OfUser(purchases.rows[id], userId) ::
                                      MapToDto(id, purchases.rows[id], PresetNameOf(presets, purchases.rows[id])))
  {
    LatestFirstTotalPreorder();
    var r := Query(purchases, (p: Purchase) => OfUser(p, userId),
                   (id: int, p: Purchase) => MapToDto(id, p, PresetNameOf(presets, p)),
                   (d: PurchaseDto) => d.id, LatestFirst);
    UsersOwnOnly(purchases, presets, userId, r);
    r
  }

  lemma UsersOwnOnly(purchases: Table<Purchase>, presets: Table<Preset>, userId: int, r: seq<PurchaseDto>)
    requires multiset(r) == multiset(set id | id in purchases.rows && OfUser(purchases.rows[id], userId) ::
                                       MapToDto(id, purchases.rows[id], PresetNameOf(presets, purchases.rows[id])))
    ensures forall i :: 0 <= i < |r| ==> r[i].userId == userId
  {
    forall i | 0 <= i < |r| ensures r[i].userId == userId {
      assert r[i] in multiset(r);
    }
  }

  /** A completed purchase of the preset by the user. */
  predicate CompletedPurchaseOf(p: Purchase, userId: int, presetId: int) {
    p.userId == userId && p.presetId == presetId && p.isCompleted
  }

  /** `HasUserPurchasedPresetAsync(userId, presetId)`: some purchase of the pair is completed. */
  predicate HasUserPurchased(purchases: Table<Purchase>, userId: int, presetId: int)
    requires purchases.Valid()
    ensures HasUserPurchased(purchases, userId, presetId) <==>
      exists id :: id in purchases.rows && purchases.rows[id].userId == userId
                   && purchases.rows[id].presetId == presetId && purchases.rows[id].isCompleted
  {
    Any(purchases, (p: Purchase) => CompletedPurchaseOf(p, userId, presetId))
  }

  /**
   * `GetDownloadUrlAsync(userId, presetId)`: the preset's file URL when the user has
   * a completed purchase of it, else null. Whichever completed purchase is found, it
   * leads to the same preset, so the answer depends on nothing else.
   */
  function GetDownloadUrl(purchases: Table<Purchase>, presets: Table<Preset>, userId: int, presetId: int): (r: Option<string>)
    requires purchases.Valid()
    ensures r == if HasUserPurchased(purchases, userId, presetId) && presetId in presets.rows
                 then presets.rows[presetId].presetFileUrl else None
  {
    var found := FirstOrDefault(purchases, (p: Purchase) => CompletedPurchaseOf(p, userId, presetId));
    if found.None? then None
    else
      var purchase := purchases.rows[found.value];
      if purchase.presetId !in presets.rows then None else presets.rows[purchase.presetId].presetFileUrl
  }

  /** `$"DEMO-{Guid.NewGuid().ToString("N")[..12].ToUpper()}"`. */
  function TransactionIdFor(g: Guid): (t: string)
    ensures |t| == 17 && t[..5] == "DEMO-"
  {
    "DEMO-" + ToUpperAscii(FormatN(g)[..12])
  }

  /** A transaction id is "DEMO-" and the first 12 digits of the GUID in upper case: 17 characters, within the column's limit. */
  lemma TransactionIdShape(g: Guid)
    ensures |TransactionIdFor(g)| <= MAX_TRANSACTION_ID_LENGTH
    ensures forall k :: 5 <= k < 17 ==> TransactionIdFor(g)[k] == UPPER_HEX[g[k - 5]]
  {
    var t := TransactionIdFor(g);
    forall k | 5 <= k < 17 ensures t[k] == UPPER_HEX[g[k - 5]] {
      assert t[k] == UpperAscii(FormatN(g)[k - 5]);
      UpperHexDigit(g[k - 5]);
    }
  }

  /**
   * The checks `CreatePurchaseAsync` makes before inserting, in their order: the
   * preset exists, it is active, and no purchase of the pair exists, whether
   * completed or not.
   */
  function PurchaseRefusal(presets: Table<Preset>, purchases: Table<Purchase>, userId: int, presetId: int): (r: Option<Exception>)
    requires purchases.Valid()
    ensures r.None? <==>
      && presetId in presets.rows && presets.rows[presetId].isActive
      && forall id :: id in purchases.rows ==> !(purchases.rows[id].userId == userId && purchases.rows[id].presetId == presetId)
    ensures presetId !in presets.rows ==> r == Some(InvalidOperationException(PRESET_NOT_FOUND))
    ensures presetId in presets.rows && !presets.rows[presetId].isActive ==> r == Some(InvalidOperationException(PRESET_NOT_AVAILABLE))
    ensures presetId in presets.rows && presets.rows[presetId].isActive && r.Some? ==> r == Some(InvalidOperationException(ALREADY_PURCHASED))
  {
    if presetId !in presets.rows then Some(InvalidOperationException(PRESET_NOT_FOUND))
    else if !presets.rows[presetId].isActive then Some(InvalidOperationException(PRESET_NOT_AVAILABLE))
    else if FirstOrDefault(purchases, (p: Purchase) => p.userId == userId && p.presetId == presetId).Some? then
      Some(InvalidOperationException(ALREADY_PURCHASED))
    else None
  }

  /** The record a purchase inserts: the preset's price now, a demonstration transaction id, completed. */
  function NewPurchase(userId: int, presetId: int, price: Cents, now: Timestamp, g: Guid): Purchase {
    Purchase(userId, presetId, price, Some(TransactionIdFor(g)), now, true)
  }

  /** At most one purchase per user and preset: what the duplicate check is there to keep. */
  ghost predicate OnePurchasePerPair(purchases: Table<Purchase>) {
    forall a, b :: a in purchases.rows && b in purchases.rows
      && purchases.rows[a].userId == purchases.rows[b].userId && purchases.rows[a].presetId == purchases.rows[b].presetId
      ==> a == b
  }

  /** A purchase the checks let through keeps at most one purchase per pair. */
  lemma PurchaseKeepsOnePerPair(presets: Table<Preset>, purchases: Table<Purchase>, userId: int, presetId: int,
                                now: Timestamp, g: Guid)
    requires purchases.Valid() && OnePurchasePerPair(purchases)
    requires PurchaseRefusal(presets, purchases, userId, presetId).None?
    ensures OnePurchasePerPair(Add(purchases, NewPurchase(userId, presetId, presets.rows[presetId].price, now, g)))
  {
  }

  /** After a purchase the user has the preset, may download its file, and a second purchase is refused. */
  lemma PurchaseGrantsDownload(presets: Table<Preset>, purchases: Table<Purchase>, userId: int, presetId: int,
                               now: Timestamp, g: Guid)
    requires purchases.Valid() && presetId in presets.rows
    ensures var after := Add(purchases, NewPurchase(userId, presetId, presets.rows[presetId].price, now, g));
      && HasUserPurchased(after, userId, presetId)
      && GetDownloadUrl(after, presets, userId, presetId) == presets.rows[presetId].presetFileUrl
      && (presets.rows[presetId].isActive ==>
            PurchaseRefusal(presets, after, userId, presetId) == Some(InvalidOperationException(ALREADY_PURCHASED)))
  {
    var after := Add(purchases, NewPurchase(userId, presetId, presets.rows[presetId].price, now, g));
    assert after.rows[purchases.nextId] == NewPurchase(userId, presetId, presets.rows[presetId].price, now, g);
  }

  /**
   * A purchase of the pair that is not completed refuses a new purchase as a
   * duplicate, yet grants neither the purchased-check nor the download.
   */
  lemma IncompletePurchaseBlocks(presets: Table<Preset>, purchases: Table<Purchase>, userId: int, presetId: int, id: int)
    requires purchases.Valid() && presetId in presets.rows && presets.rows[presetId].isActive
    requires id in purchases.rows && purchases.rows[id].userId == userId && purchases.rows[id].presetId == presetId
    requires forall other :: other in purchases.rows ==> !CompletedPurchaseOf(purchases.rows[other], userId, presetId)
    ensures PurchaseRefusal(presets, purchases, userId, presetId) == Some(InvalidOperationException(ALREADY_PURCHASED))
    ensures !HasUserPurchased(purchases, userId, presetId)
    ensures GetDownloadUrl(purchases, presets, userId, presetId) == None
  {
  }

  /** Deactivating a preset stops new purchases of it but keeps the downloads of those who bought it. */
  lemma DeactivationKeepsDownloads(presets: Table<Preset>, purchases: Table<Purchase>, userId: int, presetId: int)
    requires purchases.Valid() && presetId in presets.rows
    ensures var off := presets.(rows := presets.rows[presetId := presets.rows[presetId].(isActive := false)]);
      && PurchaseRefusal(off, purchases, userId, presetId) == Some(InvalidOperationException(PRESET_NOT_AVAILABLE))
      && GetDownloadUrl(purchases, off, userId, presetId) == GetDownloadUrl(purchases, presets, userId, presetId)
  {
  }

  class PurchaseService {
    const context: AppDbContext

    constructor (context: AppDbContext)
      ensures this.context == context
    {
      this.context := context;
    }

    /**
     * `CreatePurchaseAsync(userId, dto)`: refused with `InvalidOperationException` for
     * a missing or inactive preset or a purchase of the pair that already exists;
     * otherwise one completed purchase at the preset's price is inserted, which the
     * database refuses when the user does not exist.
     */
    method CreatePurchase(userId: int, dto: CreatePurchaseDto, now: Timestamp, g: Guid) returns (r: Result<PurchaseDto, Exception>)
      requires context.Valid()
      modifies context`purchases
      ensures context.Valid()
      ensures r.Failure? ==> context.purchases == old(context.purchases)
      ensures PurchaseRefusal(context.presets, old(context.purchases), userId, dto.presetId).Some? ==>
        r == Failure(PurchaseRefusal(context.presets, old(context.purchases), userId, dto.presetId).value)
      ensures PurchaseRefusal(context.presets, old(context.purchases), userId, dto.presetId).None? && userId !in context.users.rows ==>
        r == Failure(DbUpdateException(FK_PURCHASES_USERS))
      ensures r.Success? <==> PurchaseRefusal(context.presets, old(context.purchases), userId, dto.presetId).None? && userId in context.users.rows
      ensures r.Success? ==>
        var preset := context.presets.rows[dto.presetId];
        var purchase := NewPurchase(userId, dto.presetId, preset.price, now, g);
        && context.purchases == Add(old(context.purchases), purchase)
        && r.value == MapToDto(old(context.purchases.nextId), purchase, Some(preset.name))
    {
      if dto.presetId !in context.presets.rows {
        return Failure(InvalidOperationException(PRESET_NOT_FOUND));
      }
      var preset := context.presets.rows[dto.presetId];
      if !preset.isActive {
        return Failure(InvalidOperationException(PRESET_NOT_AVAILABLE));
      }
      var existing := FirstOrDefault(context.purchases, (p: Purchase) => p.userId == userId && p.presetId == dto.presetId);
      if existing.Some? {
        return Failure(InvalidOperationException(ALREADY_PURCHASED));
      }
      var purchase := Purchase(userId, dto.presetId, preset.price, Some(TransactionIdFor(g)), now, true);
      var added := context.AddPurchase(purchase);
      if added.Failure? {
        return Failure(added.error);
      }
      r := Success(MapToDto(added.value, purchase, PresetNameOf(context.presets, purchase)));
    }
  }
}
