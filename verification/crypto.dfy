/**
 * Password hashing and access tokens, seen from the services that use them.
 *
 * BCrypt is represented by a hash value carrying its salt and a digest. The digest
 * function below is a stand-in for the Blowfish-based key schedule: the model uses
 * only that verifying a password against its own hash succeeds, and that BCrypt
 * reads no more than the first 72 bytes of a password's UTF-8 encoding.
 *
 * A token is the triple of claims the token service signs: the subject (the
 * account id in decimal), the e-mail and the role. Signing, expiry and the token
 * id are not part of this model.
 */
module Crypto {
  import opened Wrappers
  import opened Text

  /** The number of key bytes BCrypt reads. */
  const BCRYPT_KEY_LENGTH: nat := 72

  /** A stored BCrypt hash: the salt it was made with and the resulting digest. */
  datatype PasswordHash = PasswordHash(salt: nat, digest: nat)

  /** A byte, as the integer it holds. */
  type Byte = b: int | 0 <= b < 256

  /** The UTF-8 encoding of one Unicode scalar value: one to four bytes. */
  function Utf8(c: char): (bytes: seq<Byte>)
    ensures 1 <= |bytes| <= 4
    ensures (|bytes| == 1) <==> (c as int < 0x80)
    ensures |bytes| == 1 ==> bytes[0] == c as int
  {
    var n := c as int;
    if n < 0x80 then [n]
    else if n < 0x800 then [0xC0 + n / 64, 0x80 + n % 64]
    else if n < 0x1_0000 then [0xE0 + n / 4096, 0x80 + n / 64 % 64, 0x80 + n % 64]
    else [0xF0 + n / 262144, 0x80 + n / 4096 % 64, 0x80 + n / 64 % 64, 0x80 + n % 64]
  }

  /** `Encoding.UTF8.GetBytes(s)`. */
  function Utf8Encode(s: string): (bytes: seq<Byte>)
    ensures |bytes| >= |s|
  {
    if s == [] then [] else Utf8(s[0]) + Utf8Encode(s[1..])
  }

  /** Encoding a concatenation is concatenating the encodings. */
  lemma {:induction false} Utf8EncodeAppend(s: string, t: string)
    ensures Utf8Encode(s + t) == Utf8Encode(s) + Utf8Encode(t)
  {
    if s != [] {
      assert (s + t)[1..] == s[1..] + t;
      Utf8EncodeAppend(s[1..], t);
    } else {
      assert s + t == t;
    }
  }

  /**
   * The bytes BCrypt reads of a password: its UTF-8 encoding followed by a NUL
   * terminator, cut at 72 bytes.
   */
  function BCryptKey(password: string): (key: seq<Byte>)
    ensures var bytes := Utf8Encode(password) + [0];
      && |key| == (if |bytes| <= BCRYPT_KEY_LENGTH then |bytes| else BCRYPT_KEY_LENGTH)
      && key == bytes[..|key|]
  {
    var bytes := Utf8Encode(password) + [0];
    if |bytes| <= BCRYPT_KEY_LENGTH then bytes else bytes[..BCRYPT_KEY_LENGTH]
  }

  /** Once a password's encoding fills the 72 bytes, whatever follows it is not read. */
  lemma BCryptKeyIgnoresTail(password: string, tail: string)
    requires |Utf8Encode(password)| >= BCRYPT_KEY_LENGTH
    ensures BCryptKey(password + tail) == BCryptKey(password)
  {
    Utf8EncodeAppend(password, tail);
    var a := Utf8Encode(password);
    assert (a + Utf8Encode(tail) + [0])[..BCRYPT_KEY_LENGTH] == a[..BCRYPT_KEY_LENGTH] == (a + [0])[..BCRYPT_KEY_LENGTH];
  }

  /** Every character outside ASCII takes at least two bytes. */
  lemma {:induction false} Utf8NonAsciiLength(s: string)
    requires forall k :: 0 <= k < |s| ==> s[k] as int >= 0x80
    ensures |Utf8Encode(s)| >= 2 * |s|
  {
    if s != [] {
      Utf8NonAsciiLength(s[1..]);
    }
  }

  /**
   * The cut is in bytes, not characters: forty copies of U+00E9 and thirty-six
   * copies followed by "xxxx" share their key, though they differ in the 37th character.
   */
  lemma KeyCutInBytes()
    ensures BCryptKey(seq(40, _ => '\U{E9}')) == BCryptKey(seq(36, _ => '\U{E9}') + "xxxx")
  {
    var e := seq(36, _ => '\U{E9}');
    Utf8NonAsciiLength(e);
    BCryptKeyIgnoresTail(e, "xxxx");
    BCryptKeyIgnoresTail(e, seq(4, _ => '\U{E9}'));
    assert seq(40, _ => '\U{E9}') == e + seq(4, _ => '\U{E9}');
  }

  /** Stand-in for the BCrypt key schedule over `salt` and `key`. */
  function Digest(salt: nat, key: seq<Byte>): nat {
    if key == [] then salt else (Digest(salt, key[..|key| - 1]) * 65599 + key[|key| - 1]) % 0x1_0000_0000_0000_0000
  }

  /** `BCrypt.HashPassword(password)` with the random salt it draws. */
  function HashPassword(password: string, salt: nat): (h: PasswordHash)
    ensures h.salt == salt
  {
    PasswordHash(salt, Digest(salt, BCryptKey(password)))
  }

  /** `BCrypt.Verify(password, hash)`: hashing `password` with the stored salt gives the stored hash. */
  predicate Verify(password: string, hash: PasswordHash) {
    HashPassword(password, hash.salt) == hash
  }

  /** A password verifies against its own hash, whatever the salt. */
  lemma VerifyHash(password: string, salt: nat)
    ensures Verify(password, HashPassword(password, salt))
  {
  }

  /** Two passwords whose keys (the first 72 bytes of their encodings) agree verify against the same hashes. */
  lemma VerifyReadsKeyOnly(p: string, q: string, hash: PasswordHash)
    requires BCryptKey(p) == BCryptKey(q)
    ensures Verify(p, hash) <==> Verify(q, hash)
  {
  }

  const ROLE_ADMIN: string := "Admin"
  const ROLE_USER: string := "User"

  /** A signed token, reduced to the claims it carries. */
  datatype Token = Jwt(subject: string, email: string, role: string)

  /** `TokenService.GenerateToken(userId, email, role)`: the subject is the id in decimal. */
  function GenerateToken(id: int, email: string, role: string): (t: Token)
    ensures IsInt32(id) ==> TryParseInt32(Some(t.subject)) == Some(id)
    ensures t.email == email && t.role == role
  {
    if IsInt32(id) then ParseInt32ToString(id); Jwt(IntToString(id), email, role)
    else Jwt(IntToString(id), email, role)
  }
}
