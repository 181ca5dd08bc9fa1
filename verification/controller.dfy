/**
 * The purchases API: the role gate in front of every endpoint, the reading of the
 * user id from the caller's claims, and the order in which the endpoints turn the
 * purchase service's answers into HTTP status codes.
 *
 * The caller is a `Principal`: anonymous, or authenticated with the claims of a
 * validated token. The file store is the set of paths under the working directory.
 */
module PurchasesApi {
  import opened Wrappers
  import opened Text
  import opened Guids
  import opened Tables
  import opened Crypto
  import opened Models
  import opened Schema
  import opened Images
  import opened Purchases
  import opened Presets

  /** `ClaimTypes.NameIdentifier`. */
  const NAME_IDENTIFIER_CLAIM: string := "http://schemas.xmlsoap.org/ws/2005/05/identity/claims/nameidentifier"
  /** `ClaimTypes.Email`. */
  const EMAIL_CLAIM: string := "http://schemas.xmlsoap.org/ws/2005/05/identity/claims/emailaddress"
  /** `ClaimTypes.Role`, the claim type `IsInRole` consults. */
  const ROLE_CLAIM: string := "http://schemas.microsoft.com/ws/2008/06/identity/claims/role"
  /** The registered JWT claim names as they appear in the token. */
  const SUB_CLAIM: string := "sub"
  const JWT_EMAIL_CLAIM: string := "email"

  const NOT_AUTHENTICATED: string := "User not authenticated"
  const NOT_PURCHASED: string := "You have not purchased this preset"
  const FILE_NOT_FOUND: string := "Preset file not found"
  const PURCHASE_FAILED: string := "An error occurred while processing your purchase"
  const OCTET_STREAM: string := "application/octet-stream"

  datatype Claim = Claim(claimType: string, value: string)

  /** The caller of an endpoint. */
  datatype Principal = Anonymous | Authenticated(claims: seq<Claim>)

  /** What an endpoint returns: a value (200), a status with a message, or a file download (200). */
  datatype ActionResult<T> =
    | Ok(value: T)
    | Status(code: int, message: string)
    | FileDownload(path: string, contentType: string, fileName: string)

  function StatusCode<T>(r: ActionResult<T>): int {
    match r
    case Ok(_) => 200
    case Status(code, _) => code
    case FileDownload(_, _, _) => 200
  }

  /**
   * `User.FindFirst(type)?.Value`: the value of the first claim whose type equals
   * `claimType` ignoring case, or null.
   */
  function FindFirst(claims: seq<Claim>, claimType: string): (r: Option<string>)
    ensures r.None? <==> forall i :: 0 <= i < |claims| ==> !EqualsIgnoreCase(claims[i].claimType, claimType)
    ensures r.Some? ==> exists i :: 0 <= i < |claims| && EqualsIgnoreCase(claims[i].claimType, claimType)
                                    && claims[i].value == r.value
                                    && forall j :: 0 <= j < i ==> !EqualsIgnoreCase(claims[j].claimType, claimType)
  {
    if claims == [] then None
    else if EqualsIgnoreCase(claims[0].claimType, claimType) then Some(claims[0].value)
    else
      var r := FindFirst(claims[1..], claimType);
      assert r.Some? ==> exists i :: 0 <= i < |claims| && EqualsIgnoreCase(claims[i].claimType, claimType)
                                     && claims[i].value == r.value
                                     && forall j :: 0 <= j < i ==> !EqualsIgnoreCase(claims[j].claimType, claimType) by {
        if r.Some? {
          var i :| 0 <= i < |claims[1..]| && EqualsIgnoreCase(claims[1..][i].claimType, claimType)
                   && claims[1..][i].value == r.value
                   && forall j :: 0 <= j < i ==> !EqualsIgnoreCase(claims[1..][j].claimType, claimType);
          assert claims[i + 1] == claims[1..][i];
          assert forall j :: 0 <= j < i + 1 ==> !EqualsIgnoreCase(claims[j].claimType, claimType) by {
            forall j | 0 <= j < i + 1 ensures !EqualsIgnoreCase(claims[j].claimType, claimType) {
              if j > 0 {
                assert claims[j] == claims[1..][j - 1];
              }
            }
          }
        }
      }
      r
  }

  /**
   * `GetUserId()`: the `NameIdentifier` claim, or else the "sub" claim, parsed as a
   * 32-bit integer; null for an anonymous caller, a missing claim or a value that
   * does not parse.
   */
  function GetUserId(p: Principal): (r: Option<int>)
    ensures p.Anonymous? ==> r.None?
    ensures r.Some? ==> IsInt32(r.value)
  {
    if p.Anonymous? then None
    else TryParseInt32(FindFirst(p.claims, NAME_IDENTIFIER_CLAIM).Or(FindFirst(p.claims, SUB_CLAIM)))
  }

  /**
   * The claims of a validated token. With the handler's inbound claim-type mapping
   * (its default) "sub", "email" and "role" arrive as `NameIdentifier`, `Email` and
   * `Role`; without it they keep their names.
   */
  function TokenClaims(t: Token, mapInbound: bool): seq<Claim> {
    if mapInbound then [Claim(NAME_IDENTIFIER_CLAIM, t.subject), Claim(EMAIL_CLAIM, t.email), Claim(ROLE_CLAIM, t.role)]
    else [Claim(SUB_CLAIM, t.subject), Claim(JWT_EMAIL_CLAIM, t.email), Claim("role", t.role)]
  }

  /** Whichever way the claims arrive, the caller holding a token issued for account `id` is identified as `id`. */
  lemma TokenIdentifiesAccount(id: int, email: string, role: string, mapInbound: bool)
    requires IsInt32(id)
    ensures GetUserId(Authenticated(TokenClaims(GenerateToken(id, email, role), mapInbound))) == Some(id)
  {
    var t := GenerateToken(id, email, role);
    var claims := TokenClaims(t, mapInbound);
    if mapInbound {
      assert FindFirst(claims, NAME_IDENTIFIER_CLAIM) == Some(t.subject);
    } else {
      assert FindFirst(claims, NAME_IDENTIFIER_CLAIM) == None;
      assert FindFirst(claims, SUB_CLAIM) == Some(t.subject);
    }
  }

  /** `IsInRole(role)`: some claim whose type is the role type, ignoring case, has exactly that value. */
  predicate IsInRole(p: Principal, role: string) {
    p.Authenticated? && exists i :: 0 <= i < |p.claims| && EqualsIgnoreCase(p.claims[i].claimType, ROLE_CLAIM)
                                    && p.claims[i].value == role
  }

  /** Claim types are matched ignoring case: a "SUB" claim identifies the caller as a "sub" claim would. */
  lemma UpperCaseSubClaim()
    ensures GetUserId(Authenticated([Claim("SUB", "7")])) == Some(7)
  {
    var claims := [Claim("SUB", "7")];
    assert EqualsIgnoreCase(claims[0].claimType, SUB_CLAIM);
    assert !EqualsIgnoreCase(claims[0].claimType, NAME_IDENTIFIER_CLAIM);
    ParseInt32ToString(7);
    assert IntToString(7) == "7";
  }

  /** `[Authorize(Roles = "User")]`: 401 for an anonymous caller, 403 for one without the role, else the action runs. */
  function Authorize<T>(p: Principal): (r: Option<ActionResult<T>>)
    ensures r.None? <==> IsInRole(p, ROLE_USER)
    ensures p.Anonymous? ==> r == Some(Status(401, ""))
    ensures p.Authenticated? && !IsInRole(p, ROLE_USER) ==> r == Some(Status(403, ""))
  {
    if p.Anonymous? then Some(Status(401, ""))
    else if !IsInRole(p, ROLE_USER) then Some(Status(403, ""))
    else None
  }

  /** A signed-in user (mapped claims) passes the gate, and an admin's token does not. */
  lemma TokenRoleGate(id: int, email: string)
    ensures Authorize<()>(Authenticated(TokenClaims(GenerateToken(id, email, ROLE_USER), true))).None?
    ensures Authorize<()>(Authenticated(TokenClaims(GenerateToken(id, email, ROLE_ADMIN), true))) == Some(Status(403, ""))
  {
    var user := TokenClaims(GenerateToken(id, email, ROLE_USER), true);
    assert user[2] == Claim(ROLE_CLAIM, ROLE_USER);
  }

  /** `GET api/purchases/my-purchases`: the caller's purchases, latest first. */
  function GetMyPurchases(p: Principal, purchases: Table<Purchase>, presets: Table<Preset>): (r: ActionResult<seq<PurchaseDto>>)
    requires purchases.Valid()
    ensures !IsInRole(p, ROLE_USER) ==> r == Authorize(p).value
    ensures IsInRole(p, ROLE_USER) && GetUserId(p).None? ==> r == Status(401, NOT_AUTHENTICATED)
    ensures r.Ok? <==> IsInRole(p, ROLE_USER) && GetUserId(p).Some?
    ensures r.Ok? ==> r.value == GetUserPurchases(purchases, presets, GetUserId(p).value)
  {
    var gate := Authorize(p);
    if gate.Some? then gate.value
    else
      var userId := GetUserId(p);
      if userId.None? then Status(401, NOT_AUTHENTICATED)
      else Ok(GetUserPurchases(purchases, presets, userId.value))
  }

  /**
   * `GET api/purchases/download/{presetId}`, after the gate and the user id: 403
   * unless the purchase is completed, then 404 for a null or empty URL, then 404
   * when no file is at the URL's path, else the file's bytes under its own name.
   */
  function DownloadPreset(p: Principal, presetId: int, purchases: Table<Purchase>, presets: Table<Preset>,
                          files: set<string>): (r: ActionResult<()>)
    requires purchases.Valid()
    ensures !IsInRole(p, ROLE_USER) ==> r == Authorize(p).value
    ensures IsInRole(p, ROLE_USER) && GetUserId(p).None? ==> r == Status(401, NOT_AUTHENTICATED)
    ensures IsInRole(p, ROLE_USER) && GetUserId(p).Some? ==>
      var userId := GetUserId(p).value;
      var url := GetDownloadUrl(purchases, presets, userId, presetId);
      && (!HasUserPurchased(purchases, userId, presetId) ==> r == Status(403, NOT_PURCHASED))
      && (HasUserPurchased(purchases, userId, presetId) && IsNullOrEmpty(url) ==> r == Status(404, FILE_NOT_FOUND))
      && (HasUserPurchased(purchases, userId, presetId) && !IsNullOrEmpty(url) && TrimStart(url.value, '/') !in files ==>
            r == Status(404, FILE_NOT_FOUND))
    ensures r.FileDownload? <==>
      && IsInRole(p, ROLE_USER) && GetUserId(p).Some?
      && HasUserPurchased(purchases, GetUserId(p).value, presetId)
      && !IsNullOrEmpty(GetDownloadUrl(purchases, presets, GetUserId(p).value, presetId))
      && TrimStart(GetDownloadUrl(purchases, presets, GetUserId(p).value, presetId).value, '/') in files
    ensures r.FileDownload? ==>
      && presetId in presets.rows
      && presets.rows[presetId].presetFileUrl.Some?
      && r.path == TrimStart(presets.rows[presetId].presetFileUrl.value, '/')
      && r.contentType == OCTET_STREAM
  {
    var gate := Authorize(p);
    if gate.Some? then gate.value
    else
      var userId := GetUserId(p);
      if userId.None? then Status(401, NOT_AUTHENTICATED)
      else if !HasUserPurchased(purchases, userId.value, presetId) then Status(403, NOT_PURCHASED)
      else
        var url := GetDownloadUrl(purchases, presets, userId.value, presetId);
        if IsNullOrEmpty(url) then Status(404, FILE_NOT_FOUND)
        else
          var path := TrimStart(url.value, '/');
          if path !in files then Status(404, FILE_NOT_FOUND)
          else FileDownload(path, OCTET_STREAM, GetFileName(path))
  }

  /** Deactivating a preset does not take the download away from those who bought it. */
  lemma DeactivationKeepsDownload(p: Principal, presetId: int, purchases: Table<Purchase>, presets: Table<Preset>,
                                  files: set<string>)
    requires purchases.Valid() && presetId in presets.rows
    ensures var off := presets.(rows := presets.rows[presetId := presets.rows[presetId].(isActive := false)]);
      DownloadPreset(p, presetId, purchases, off, files) == DownloadPreset(p, presetId, purchases, presets, files)
  {
  }

  /** A user who has just bought a preset whose file is on disk gets the file. */
  lemma PurchaseThenDownload(id: int, email: string, presetId: int, purchases: Table<Purchase>, presets: Table<Preset>,
                             files: set<string>, now: Timestamp, g: Guid)
    requires purchases.Valid() && IsInt32(id) && presetId in presets.rows
    requires !IsNullOrEmpty(presets.rows[presetId].presetFileUrl)
    requires TrimStart(presets.rows[presetId].presetFileUrl.value, '/') in files
    ensures var caller := Authenticated(TokenClaims(GenerateToken(id, email, ROLE_USER), true));
      var after := Add(purchases, NewPurchase(id, presetId, presets.rows[presetId].price, now, g));
      DownloadPreset(caller, presetId, after, presets, files).FileDownload?
  {
    TokenIdentifiesAccount(id, email, ROLE_USER, true);
    TokenRoleGate(id, email);
    PurchaseGrantsDownload(presets, purchases, id, presetId, now, g);
  }

  /**
   * A purchased preset cannot be deleted, yet `DeletePresetAsync` removes its files
   * before the database refuses: the preset stays on sale and in its buyers' history,
   * but its download now answers 404.
   */
  lemma RefusedDeleteBreaksDownload(p: Principal, presetId: int, purchases: Table<Purchase>, presets: Table<Preset>,
                                    files: set<string>)
    requires purchases.Valid() && presetId in presets.rows
    requires IsInRole(p, ROLE_USER) && GetUserId(p).Some? && HasUserPurchased(purchases, GetUserId(p).value, presetId)
    requires !IsNullOrEmpty(presets.rows[presetId].presetFileUrl)
    requires TrimStart(presets.rows[presetId].presetFileUrl.value, '/') in files
    ensures PresetHasPurchases(purchases, presetId)
    ensures DownloadPreset(p, presetId, purchases, presets, files).FileDownload?
    ensures DownloadPreset(p, presetId, purchases, presets, files - PresetFiles(presets.rows[presetId])) == Status(404, FILE_NOT_FOUND)
  {
    var url := presets.rows[presetId].presetFileUrl.value;
    assert FileStore.KeyOf(url) in PresetFiles(presets.rows[presetId]);
  }

  class PurchasesController {
    const service: PurchaseService

    constructor (service: PurchaseService)
      ensures this.service == service
    {
      this.service := service;
    }

    /**
     * `POST api/purchases`: after the gate and the user id, the service's purchase;
     * its `InvalidOperationException` becomes 400 with the message, any other
     * failure 500.
     */
    method CreatePurchase(p: Principal, dto: CreatePurchaseDto, now: Timestamp, g: Guid) returns (r: ActionResult<PurchaseDto>)
      requires service.context.Valid()
      modifies service.context`purchases
      ensures service.context.Valid()
      ensures !r.Ok? ==> service.context.purchases == old(service.context.purchases)
      ensures !IsInRole(p, ROLE_USER) ==> r == Authorize(p).value
      ensures IsInRole(p, ROLE_USER) && GetUserId(p).None? ==> r == Status(401, NOT_AUTHENTICATED)
      ensures IsInRole(p, ROLE_USER) && GetUserId(p).Some? ==>
        var refusal := PurchaseRefusal(service.context.presets, old(service.context.purchases), GetUserId(p).value, dto.presetId);
        && (refusal.Some? ==> r == Status(400, refusal.value.message))
        && (refusal.None? && GetUserId(p).value !in service.context.users.rows ==> r == Status(500, PURCHASE_FAILED))
        && (refusal.None? && GetUserId(p).value in service.context.users.rows ==>
              && r.Ok?
              && service.context.purchases == Add(old(service.context.purchases),
                   NewPurchase(GetUserId(p).value, dto.presetId, service.context.presets.rows[dto.presetId].price, now, g)))
    {
      var gate := Authorize(p);
      if gate.Some? {
        return gate.value;
      }
      var userId := GetUserId(p);
      if userId.None? {
        return Status(401, NOT_AUTHENTICATED);
      }
      var purchase := service.CreatePurchase(userId.value, dto, now, g);
      if purchase.Failure? {
        if purchase.error.InvalidOperationException? {
          return Status(400, purchase.error.message);
        }
        return Status(500, PURCHASE_FAILED);
      }
      r := Ok(purchase.value);
    }
  }
}
