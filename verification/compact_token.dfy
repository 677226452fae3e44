/**
 * The text form of a token (the JWS compact serialization of section 7.1 of RFC 7515:
 * base64url header, `.`, base64url payload, `.`, signature) and bcrypt's reading of a secret,
 * which stops after 72 bytes. Together they show what the stored refresh-token digest really
 * compares: the first 72 characters of a token are its fixed header and the start of its
 * payload, `{"userId":"…","email":"…`, so they are the same for every refresh token of a user.
 */
module CompactToken {
  import opened Text
  import opened Password
  import opened Jwt

  /** The digit for a six-bit value in the base64url alphabet of section 5 of RFC 4648:
      `A`-`Z`, `a`-`z`, `0`-`9`, then `-` and `_`. */
  function Digit(v: nat): (c: char)
    requires v < 64
    ensures c != '.'
  {
    if v < 26 then ('A' as int + v) as char
    else if v < 52 then ('a' as int + v - 26) as char
    else if v < 62 then ('0' as int + v - 52) as char
    else if v == 62 then '-'
    else '_'
  }

  /** Four characters for three bytes. */
  function Group(x: nat, y: nat, z: nat): (r: string)
    ensures |r| == 4
  {
    var n := (x % 256) * 65536 + (y % 256) * 256 + z % 256;
    [Digit((n / 262144) % 64), Digit((n / 4096) % 64), Digit((n / 64) % 64), Digit(n % 64)]
  }

  /** Unpadded base64url, as JWTs use it. */
  function Base64Url(b: seq<nat>): (r: string)
    ensures |r| == 4 * (|b| / 3) + (if |b| % 3 == 0 then 0 else |b| % 3 + 1)
    decreases |b|
  {
    if |b| >= 3 then Group(b[0], b[1], b[2]) + Base64Url(b[3..])
    else if |b| == 2 then Group(b[0], b[1], 0)[..3]
    else if |b| == 1 then Group(b[0], 0, 0)[..2]
    else ""
  }

  /** Encoding works group by group: bytes that fill whole groups encode on their own, and
      whatever follows them encodes after. */
  lemma {:induction false} Base64UrlAppend(p: seq<nat>, x: seq<nat>)
    requires |p| % 3 == 0
    ensures Base64Url(p + x) == Base64Url(p) + Base64Url(x)
    decreases |p|
  {
    if p == [] {
      assert p + x == x;
    } else {
      var g := Group(p[0], p[1], p[2]);
      assert (p + x)[0] == p[0] && (p + x)[1] == p[1] && (p + x)[2] == p[2];
      assert (p + x)[3..] == p[3..] + x;
      Base64UrlAppend(p[3..], x);
      calc {
        Base64Url(p + x);
        g + Base64Url(p[3..] + x);
        g + (Base64Url(p[3..]) + Base64Url(x));
        (g + Base64Url(p[3..])) + Base64Url(x);
        Base64Url(p) + Base64Url(x);
      }
    }
  }

  /** The bytes of a text, one per character: the tokens' texts are ASCII. */
  function Bytes(s: string): (b: seq<nat>)
    ensures |b| == |s| && forall i :: 0 <= i < |s| ==> b[i] == s[i] as int % 256
  {
    seq(|s|, i requires 0 <= i < |s| => s[i] as int % 256)
  }

  /** The bytes of two texts written one after the other. */
  lemma BytesAppend(x: string, y: string)
    ensures Bytes(x + y) == Bytes(x) + Bytes(y)
  {
    assert forall i :: 0 <= i < |y| ==> (x + y)[|x| + i] == y[i];
  }

  /** A JSON string body: `"` and `\` are escaped. */
  function Escape(s: string): (r: string)
    ensures |r| >= |s|
  {
    if s == [] then []
    else (if s[0] == '"' || s[0] == '\\' then ['\\', s[0]] else [s[0]]) + Escape(s[1..])
  }

  /** The start of the claims' JSON, up to the end of the email: all that depends on the payload. */
  function Lead(p: TokenPayload): (r: string)
    ensures |r| >= 22 + |p.email|
  {
    "{\"userId\":\"" + NatToDecimal(p.userId) + "\",\"email\":\"" + Escape(p.email)
  }

  /** `JSON.stringify` of the claims `jwt.sign` writes: the payload's fields, then `iat` and `exp`. */
  function PayloadJson(p: TokenPayload, iat: nat, exp: nat): (r: string)
    ensures |r| > |Lead(p)| && r[..|Lead(p)|] == Lead(p)
  {
    Lead(p) + "\",\"iat\":" + NatToDecimal(iat) + ",\"exp\":" + NatToDecimal(exp) + "}"
  }

  /** The first part of every token `jwt.sign` writes with its default options: the base64url
      encoding of the header `{"alg":"HS256","typ":"JWT"}`. */
  const Header: string := "eyJhbGciOiJIUzI1NiIsInR5cCI6IkpXVCJ9"

  /** The second part of a token: its claims, encoded. */
  function Claims(t: Token): (r: string)
    ensures |r| >= 4 * (|PayloadJson(t.payload, t.iat, t.exp)| / 3)
  {
    Base64Url(Bytes(PayloadJson(t.payload, t.iat, t.exp)))
  }

  /** The text of a token: header, payload and the signature computed over them. */
  function Compact(t: Token, signature: string): string {
    Header + "." + Claims(t) + "." + signature
  }

  /** The part of bcrypt's input that it reads. */
  function Truncate72(s: string): (r: string)
    ensures |s| <= 72 ==> r == s
    ensures |s| > 72 ==> r == s[..72]
  {
    if |s| <= 72 then s else s[..72]
  }

  /** `hashPassword` as bcrypt computes it: a digest of the first 72 bytes. */
  function BcryptHash(s: string): (d: Digest<string>)
    ensures BcryptCompare(s, d)
  {
    Hash(Truncate72(s))
  }

  /** `comparePassword` as bcrypt computes it. */
  predicate BcryptCompare(s: string, d: Digest<string>) {
    Verify(Truncate72(s), d)
  }

  /** Once the email has four characters, the encoded claims start with 36 characters that
      depend on the payload only: the encoding of the first 27 characters of `Lead`. */
  lemma ClaimsStart(t: Token)
    requires |t.payload.email| >= 4
    ensures var f := Base64Url(Bytes(Lead(t.payload)[..27]));
            |f| == 36 && |Claims(t)| > 36 && Claims(t)[..36] == f
  {
    var j := PayloadJson(t.payload, t.iat, t.exp);
    var lead := Lead(t.payload);
    assert j[..27] == lead[..27] by {
      assert j[..27] == j[..|lead|][..27];
    }
    assert j == j[..27] + j[27..];
    BytesAppend(j[..27], j[27..]);
    Base64UrlAppend(Bytes(j[..27]), Bytes(j[27..]));
  }

  /** The first 72 characters of a token depend on its payload only: not on `iat`, `exp` or the
      signature. */
  lemma First72FixedByPayload(t1: Token, t2: Token, sig1: string, sig2: string)
    requires t1.payload == t2.payload && |t1.payload.email| >= 4
    ensures |Compact(t1, sig1)| > 72 && |Compact(t2, sig2)| > 72
    ensures Compact(t1, sig1)[..72] == Compact(t2, sig2)[..72]
  {
    var f := Base64Url(Bytes(Lead(t1.payload)[..27]));
    ClaimsStart(t1);
    ClaimsStart(t2);
    assert Claims(t1) == f + Claims(t1)[36..];
    assert Claims(t2) == f + Claims(t2)[36..];
    FrontOfCompact(Header, f, Claims(t1)[36..], sig1);
    FrontOfCompact(Header, f, Claims(t2)[36..], sig2);
  }

  /** A token whose header and the start of whose claims take 73 characters begins with them. */
  lemma FrontOfCompact(h: string, f: string, rest: string, signature: string)
    requires |h| + |f| == 72
    ensures |h + "." + (f + rest) + "." + signature| > 72
    ensures (h + "." + (f + rest) + "." + signature)[..72] == (h + "." + f)[..72]
  {
    assert h + "." + (f + rest) + "." + signature == (h + "." + f) + (rest + "." + signature);
  }

  /**
   * As written: bcrypt's digest of one refresh token accepts every other refresh token of the
   * same user, whenever it was issued and whatever its signature, though the tokens differ.
   */
  lemma BcryptAcceptsOtherRefreshTokens(k: Secrets, p: TokenPayload, t1: nat, t2: nat, sig1: string, sig2: string)
    requires IsEmailShape(p.email)
    ensures t1 != t2 ==> GenerateRefreshToken(k, p, t1) != GenerateRefreshToken(k, p, t2)
    ensures BcryptCompare(Compact(GenerateRefreshToken(k, p, t1).token, sig1),
                          BcryptHash(Compact(GenerateRefreshToken(k, p, t2).token, sig2)))
  {
    First72FixedByPayload(GenerateRefreshToken(k, p, t1).token, GenerateRefreshToken(k, p, t2).token, sig1, sig2);
  }

  /** Intended: a digest of the whole token accepts that token only, so a refresh token issued at
      another second is refused. */
  lemma WholeTokenDigestRefusesOtherRefreshTokens(k: Secrets, p: TokenPayload, t1: nat, t2: nat)
    ensures Verify(GenerateRefreshToken(k, p, t1), Hash(GenerateRefreshToken(k, p, t2))) <==> t1 == t2
  {
    VerifyHash(GenerateRefreshToken(k, p, t2), GenerateRefreshToken(k, p, t1));
  }
}
