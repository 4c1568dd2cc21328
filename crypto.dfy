/** The cryptographic and token primitives the credential code calls. bcrypt,
    SHA-256, JWT signing and verification and the e-mail syntax check are
    not modelled inside: they are the fields of a `Primitives` value that
    every caller receives, so every property proved holds for any choice of
    them. Hexadecimal rendering of the random reset-token bytes is modelled. */
module Crypto {
  import opened Wrappers

  type Byte = x: int | 0 <= x < 256

  /** What `jwt.verify(token, secret)` reports: the payload's user id and
      issued-at second, or the error it rejects with. */
  datatype JwtResult =
    | Verified(id: string, iat: int)
    | Malformed(message: string)
    | Expired(message: string)

  datatype Primitives = Primitives(
    /** `bcrypt.hash(plain, 12)`. */
    bcryptHash: string -> string,
    /** `bcrypt.compare(candidate, hash)`. */
    bcryptCompare: (string, string) -> bool,
    /** `crypto.createHash('sha256').update(s).digest('hex')`. */
    sha256Hex: string -> string,
    /** `jwt.sign({ id }, secret, { expiresIn })` at the given instant. */
    signToken: (string, int) -> string,
    /** `jwt.verify(token, secret)` at the given instant. */
    jwtVerify: (string, int) -> JwtResult,
    /** `validator.isEmail`. */
    isEmail: string -> bool)

  predicate IsLowerHex(c: char) {
    ('0' <= c <= '9') || ('a' <= c <= 'f')
  }

  function HexChar(d: nat): (c: char)
    requires d < 16
    ensures IsLowerHex(c)
  {
    "0123456789abcdef"[d]
  }

  function HexCharValue(c: char): (d: nat)
    requires IsLowerHex(c)
    ensures d < 16
  {
    if c <= '9' then (c as int - '0' as int) as nat else (c as int - 'a' as int + 10) as nat
  }

  lemma HexCharValueOf(d: nat)
    requires d < 16
    ensures HexCharValue(HexChar(d)) == d
  {
  }

  /** `buffer.toString('hex')`: two lower-case digits per byte, high nibble
      first. */
  function HexEncode(bytes: seq<Byte>): (h: string)
    ensures |h| == 2 * |bytes|
    ensures forall k | 0 <= k < |h| :: IsLowerHex(h[k])
  {
    if bytes == [] then []
    else [HexChar(bytes[0] / 16), HexChar(bytes[0] % 16)] + HexEncode(bytes[1..])
  }

  /** The bytes a string of lower-case hexadecimal digit pairs denotes. */
  function HexDecode(h: string): Option<seq<Byte>>
    decreases |h|
  {
    if h == [] then Some([])
    else if |h| < 2 || !IsLowerHex(h[0]) || !IsLowerHex(h[1]) then None
    else match HexDecode(h[2..])
      case None => None
      case Some(rest) => Some([HexCharValue(h[0]) * 16 + HexCharValue(h[1])] + rest)
  }

  /** The hexadecimal rendering loses nothing: it decodes to the same bytes. */
  lemma {:induction false} HexRoundTrip(bytes: seq<Byte>)
    ensures HexDecode(HexEncode(bytes)) == Some(bytes)
  {
    if bytes != [] {
      var h := HexEncode(bytes);
      var tail := bytes[1..];
      HexEncodeStep(bytes);
      assert HexDecode(h[2..]) == Some(tail) by { HexRoundTrip(tail); }
      HexDecodeStep(h, tail);
      assert HexCharValue(h[0]) * 16 + HexCharValue(h[1]) == bytes[0] by { HexPair(bytes[0]); }
      assert [bytes[0]] + tail == bytes;
    }
  }

  lemma HexEncodeStep(bytes: seq<Byte>)
    requires bytes != []
    ensures var h := HexEncode(bytes);
      h[0] == HexChar(bytes[0] / 16) && h[1] == HexChar(bytes[0] % 16) && h[2..] == HexEncode(bytes[1..])
  {
  }

  /** The two digits of a byte give the byte back. */
  lemma HexPair(b: Byte)
    ensures HexCharValue(HexChar(b / 16)) * 16 + HexCharValue(HexChar(b % 16)) == b
  {
    HexCharValueOf(b / 16);
    HexCharValueOf(b % 16);
  }

  lemma HexDecodeStep(h: string, rest: seq<Byte>)
    requires |h| >= 2 && IsLowerHex(h[0]) && IsLowerHex(h[1]) && HexDecode(h[2..]) == Some(rest)
    ensures HexDecode(h) == Some([HexCharValue(h[0]) * 16 + HexCharValue(h[1])] + rest)
  {
  }
}
