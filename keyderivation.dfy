/**
 * The AES key step of `decodeAES` (main.go): the SHA-512 digest of the
 * identity, printed with `%x` (two lower-case hex digits per byte, 128 in
 * all), cut to its first 32 characters, whose bytes are the key.
 */
module KeyDerivation {
  import opened Common

  /** A character `%x` can print. */
  predicate IsHexDigit(c: char)
  {
    '0' <= c <= '9' || 'a' <= c <= 'f'
  }

  /** The lower-case digit of a value below 16: `0`-`9`, then `a`-`f`. */
  function HexDigit(v: nat): (c: char)
    requires v < 16
    ensures IsHexDigit(c)
  {
    if v < 10 then ('0' as int + v) as char else ('a' as int + v - 10) as char
  }

  /** The two hex digits of a byte, high nibble first. */
  function HexByte(b: byte): (s: string)
    ensures |s| == 2 && IsHexDigit(s[0]) && IsHexDigit(s[1])
  {
    [HexDigit(b as int / 16), HexDigit(b as int % 16)]
  }

  /** `fmt.Sprintf("%x", bs)` on a byte array: every byte as two digits, no separators. */
  function Hex(bs: seq<byte>): (s: string)
    ensures |s| == 2 * |bs|
    ensures forall i :: 0 <= i < |s| ==> IsHexDigit(s[i])
    decreases |bs|
  {
    if |bs| == 0 then [] else HexByte(bs[0]) + Hex(bs[1..])
  }

  /** The value of a hex digit. */
  function HexValue(c: char): (v: nat)
    ensures v < 16
  {
    if '0' <= c <= '9' then c as int - '0' as int
    else if 'a' <= c <= 'f' then c as int - 'a' as int + 10
    else 0
  }

  /** Reading hex digits back as bytes, two at a time. */
  function Unhex(s: string): (bs: seq<byte>)
    requires |s| % 2 == 0
    ensures |bs| == |s| / 2
    decreases |s|
  {
    if |s| == 0 then [] else [(HexValue(s[0]) * 16 + HexValue(s[1])) as byte] + Unhex(s[2..])
  }

  lemma HexDigitValue(v: nat)
    requires v < 16
    ensures HexValue(HexDigit(v)) == v
  {
  }

  lemma HexByteValue(b: byte)
    ensures HexValue(HexByte(b)[0]) * 16 + HexValue(HexByte(b)[1]) == b as int
  {
    HexDigitValue(b as int / 16);
    HexDigitValue(b as int % 16);
  }

  /** Reading back what `%x` printed gives the bytes again. */
  lemma {:induction false} UnhexHex(bs: seq<byte>)
    ensures Unhex(Hex(bs)) == bs
    decreases |bs|
  {
    if |bs| > 0 {
      var s := Hex(bs);
      HexByteValue(bs[0]);
      assert s[2..] == Hex(bs[1..]);
      assert s[0] == HexByte(bs[0])[0] && s[1] == HexByte(bs[0])[1];
      UnhexHex(bs[1..]);
      assert [bs[0]] + bs[1..] == bs;
    }
  }

  /** Different bytes print differently. */
  lemma HexInjective(a: seq<byte>, b: seq<byte>)
    ensures Hex(a) == Hex(b) <==> a == b
  {
    if Hex(a) == Hex(b) {
      UnhexHex(a);
      UnhexHex(b);
    }
  }

  /** Printing distributes over concatenation. */
  lemma {:induction false} HexAppend(a: seq<byte>, b: seq<byte>)
    ensures Hex(a + b) == Hex(a) + Hex(b)
    decreases |a|
  {
    if |a| > 0 {
      assert (a + b)[1..] == a[1..] + b;
      HexAppend(a[1..], b);
    } else {
      assert a + b == b;
    }
  }

  /** The first `2n` digits print exactly the first `n` bytes. */
  lemma HexPrefix(d: seq<byte>, n: nat)
    requires n <= |d|
    ensures Hex(d)[..2 * n] == Hex(d[..n])
  {
    HexAppend(d[..n], d[n..]);
    assert d[..n] + d[n..] == d;
  }

  /** A SHA-512 digest: 64 bytes. */
  type Digest = d: seq<byte> | |d| == 64 witness seq(64, _ => 0)

  /** The byte of an ASCII character. */
  function AsciiByte(c: char): (b: byte)
    requires IsHexDigit(c)
  {
    c as int as byte
  }

  /** `[]byte(s)` for a string of hex digits (each one byte in UTF-8). */
  function AsciiBytes(s: string): (bs: seq<byte>)
    requires forall i :: 0 <= i < |s| ==> IsHexDigit(s[i])
    ensures |bs| == |s|
  {
    seq(|s|, i requires 0 <= i < |s| => AsciiByte(s[i]))
  }

  /** The ASCII code of a hex digit. */
  predicate IsHexCode(b: byte)
  {
    IsHexDigit(b as int as char)
  }

  /**
   * The cipher key of `decodeAES`: the first 32 characters of the `%x` form
   * of the identity's SHA-512 sum, as bytes. SHA-512 itself is not modelled;
   * `sum512` stands for it.
   */
  function DeriveKey(sum512: seq<byte> -> Digest, identity: seq<byte>): (key: seq<byte>)
    ensures |key| == 32
    ensures forall i :: 0 <= i < 32 ==> IsHexCode(key[i])
    ensures key == AsciiBytes(Hex(sum512(identity)[..16]))
  {
    var s := Hex(sum512(identity));
    HexPrefix(sum512(identity), 16);
    AsciiBytes(s[..32])
  }

  lemma AsciiBytesInjective(s: string, t: string)
    requires forall i :: 0 <= i < |s| ==> IsHexDigit(s[i])
    requires forall i :: 0 <= i < |t| ==> IsHexDigit(t[i])
    ensures AsciiBytes(s) == AsciiBytes(t) <==> s == t
  {
    if AsciiBytes(s) == AsciiBytes(t) {
      forall i | 0 <= i < |s|
        ensures s[i] == t[i]
      {
        assert AsciiBytes(s)[i] == AsciiBytes(t)[i];
      }
    }
  }

  /**
   * The key keeps exactly the first half of the digest: two identities get the
   * same key exactly when their digests agree on the first 16 bytes.
   */
  lemma SameKeyIffSameDigestHalf(sum512: seq<byte> -> Digest, id1: seq<byte>, id2: seq<byte>)
    ensures DeriveKey(sum512, id1) == DeriveKey(sum512, id2) <==> sum512(id1)[..16] == sum512(id2)[..16]
  {
    var h1, h2 := sum512(id1)[..16], sum512(id2)[..16];
    HexInjective(h1, h2);
    AsciiBytesInjective(Hex(h1), Hex(h2));
  }
}
