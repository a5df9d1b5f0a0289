/** The cryptographic libraries the authentication core calls, as values the
    caller supplies: bcrypt (golang.org/x/crypto/bcrypt), JSON Web Signature
    compact tokens (github.com/golang-jwt/jwt/v4, RFC 7515 / RFC 7519), and
    the random reset-token source (crypto/rand, encoded with the URL-safe
    base64 alphabet of section 5 of RFC 4648). Only the laws the core relies
    on are stated, as the predicates `BcryptSound` and `JwsSound`. */
module Crypto {
  import opened Wrappers
  import opened Strs

  // ---------------------------------------------------------------------
  // bcrypt
  // ---------------------------------------------------------------------

  /** bcrypt.GenerateDefaultCost = 10; the reset flow uses 12. */
  const DefaultCost: nat := 10
  const ResetCost: nat := 12

  /** `generate(password, cost, salt)` is bcrypt.GenerateFromPassword with
      the random salt made explicit (None when the library fails);
      `compare(hash, password)` is CompareHashAndPassword(hash, password) == nil. */
  datatype Bcrypt = Bcrypt(
    generate: (string, nat, nat) -> Option<string>,
    compare: (string, string) -> bool)

  /** A hash made from a password verifies against that password. */
  ghost predicate BcryptSound(b: Bcrypt) {
    forall p: string, cost: nat, salt: nat ::
      b.generate(p, cost, salt).Some? ==> b.compare(b.generate(p, cost, salt).value, p)
  }

  // ---------------------------------------------------------------------
  // JSON Web Tokens
  // ---------------------------------------------------------------------

  /** The `alg` header of a token. All three HS variants are
      jwt.SigningMethodHMAC in the library. */
  datatype Alg = HS256 | HS384 | HS512 | RS256 | ES256 | AlgNone | OtherAlg(name: string)

  predicate IsHmac(a: Alg) {
    a.HS256? || a.HS384? || a.HS512?
  }

  /** A decoded JSON value; JSON numbers are float64 in Go, modelled exactly. */
  datatype Json = JNum(r: real) | JStr(s: string) | JBool(b: bool) | JNull | JComposite

  type Claims = map<string, Json>

  /** Go's int(x) and int64(x) on a float64 in range: truncation toward zero. */
  function Trunc(x: real): (n: int)
    ensures x >= 0.0 ==> n as real <= x < n as real + 1.0
    ensures x < 0.0 ==> n as real - 1.0 < x <= n as real
  {
    if x >= 0.0 then x.Floor else -((-x).Floor)
  }

  /** A whole number survives the round trip through a JSON number. */
  lemma TruncWhole(n: int)
    ensures Trunc(n as real) == n
  {
  }

  /** `sign(alg, claims, key)` is jwt.NewWithClaims(alg, claims).SignedString(key)
      (None when signing fails); `decode(token)` reads a well-formed token's
      header algorithm and claims without checking anything; `verify(token,
      alg, key)` checks the token's signature under `key`. */
  datatype Jws = Jws(
    sign: (Alg, Claims, string) -> Option<string>,
    decode: string -> Option<(Alg, Claims)>,
    verify: (string, Alg, string) -> bool)

  /** A signed token decodes to what was signed, verifies under the signing
      key, and (being base64url segments joined by '.') holds no space. */
  ghost predicate JwsSound(j: Jws) {
    forall a: Alg, c: Claims, k: string :: j.sign(a, c, k).Some? ==>
      && j.decode(j.sign(a, c, k).value) == Some((a, c))
      && j.verify(j.sign(a, c, k).value, a, k)
      && ' ' !in j.sign(a, c, k).value
  }

  // ---------------------------------------------------------------------
  // Reset tokens: 32 random bytes, base64.URLEncoding (padded)
  // ---------------------------------------------------------------------

  type Bytes32 = s: seq<byte> | |s| == 32 witness seq(32, i => 0)

  const UrlAlphabet: string := "ABCDEFGHIJKLMNOPQRSTUVWXYZabcdefghijklmnopqrstuvwxyz0123456789-_"

  /** A character that may appear in padded base64url text. */
  predicate IsUrlSafe(c: char) {
    c in UrlAlphabet || c == '='
  }

  /** The alphabet character of a six-bit value. */
  function Sextet(k: nat): (c: char)
    requires k < 64
    ensures c in UrlAlphabet
  {
    UrlAlphabet[k]
  }

  /** Three bytes, most significant bit first, as four six-bit characters. */
  function Quad(b0: byte, b1: byte, b2: byte): (q: string)
    ensures |q| == 4 && forall i :: 0 <= i < 4 ==> IsUrlSafe(q[i])
  {
    [Sextet(b0 / 4), Sextet(b0 % 4 * 16 + b1 / 16), Sextet(b1 % 16 * 4 + b2 / 64), Sextet(b2 % 64)]
  }

  /** A final group of one or two bytes: two or three characters and
      the '=' padding up to four. */
  function PaddedQuad(b0: byte, b1: byte, two: bool): (r: string)
    ensures |r| == 4 && forall i :: 0 <= i < 4 ==> IsUrlSafe(r[i])
  {
    var q := Quad(b0, if two then b1 else 0, 0);
    if two then q[..3] + "=" else q[..2] + "=="
  }

  /** base64.URLEncoding.EncodeToString: three bytes become four characters;
      a final one- or two-byte group is padded with '='. */
  function Base64UrlEncode(bs: seq<byte>): (r: string)
    ensures |r| == 4 * ((|bs| + 2) / 3)
    ensures forall i :: 0 <= i < |r| ==> IsUrlSafe(r[i])
  {
    if |bs| == 0 then ""
    else if |bs| == 1 then PaddedQuad(bs[0], 0, false)
    else if |bs| == 2 then PaddedQuad(bs[0], bs[1], true)
    else
      var rest := Base64UrlEncode(bs[3..]);
      var q := Quad(bs[0], bs[1], bs[2]);
      GroupCount(|bs|);
      UrlSafeAppend(q, rest);
      q + rest
  }

  lemma GroupCount(n: nat)
    requires n >= 3
    ensures 4 * ((n - 3 + 2) / 3) + 4 == 4 * ((n + 2) / 3)
  {
  }

  lemma UrlSafeAppend(x: string, y: string)
    requires forall i :: 0 <= i < |x| ==> IsUrlSafe(x[i])
    requires forall i :: 0 <= i < |y| ==> IsUrlSafe(y[i])
    ensures forall i :: 0 <= i < |x + y| ==> IsUrlSafe((x + y)[i])
  {
  }

  /** GenerateSecureToken: None from the random source is rand.Read failing. */
  function GenerateSecureToken(random: Option<Bytes32>): (r: Result<string>)
    ensures random.None? <==> r.Err?
    ensures r.Ok? ==> |r.value| == 44 && forall i :: 0 <= i < 44 ==> IsUrlSafe(r.value[i])
  {
    match random
    case None => Err("entropy source failed")
    case Some(bs) =>
      var text := Base64UrlEncode(bs);
      assert (32 + 2) / 3 == 11;
      Ok(text)
  }
}
