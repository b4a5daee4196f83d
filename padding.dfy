/**
 * `PKCS7UNPadding` (main.go), the last step of `decodeAES`: the padding that
 * PKCS #7 (section 6.3 of RFC 5652) appends before CBC encryption is cut off
 * after decryption.
 */
module Pkcs7 {
  import opened Common

  /** The last byte of a non-empty buffer, read as a pad length. */
  function PadLength(s: seq<byte>): (n: nat)
    requires |s| > 0
    ensures n < 256
  {
    s[|s| - 1] as nat
  }

  /**
   * `PKCS7UNPadding` as written: an empty buffer comes back unchanged;
   * otherwise the last byte `n` is taken on trust and the first `len - n`
   * bytes are returned. Nothing checks `n`; when it exceeds the length the
   * Go slice expression panics, which is `None` here.
   */
  function Unpad(origin: seq<byte>): (r: Option<seq<byte>>)
    ensures |origin| == 0 ==> r == Some(origin)
    ensures |origin| > 0 ==> (r.None? <==> PadLength(origin) > |origin|)
    ensures r.Some? ==> |r.value| <= |origin| && r.value == origin[..|r.value|]
    ensures r.Some? && |origin| > 0 ==> |r.value| == |origin| - PadLength(origin)
  {
    if |origin| == 0 then Some(origin)
    else if PadLength(origin) > |origin| then None
    else Some(origin[..|origin| - PadLength(origin)])
  }

  /**
   * PKCS #7 padding to a multiple of `k`: between 1 and `k` bytes, each
   * holding the number of bytes added.
   */
  function Pad(p: seq<byte>, k: nat): (r: seq<byte>)
    requires 1 <= k <= 255
    ensures |r| % k == 0
    ensures |p| < |r| <= |p| + k
    ensures r[..|p|] == p
    ensures forall i :: |p| <= i < |r| ==> r[i] as int == |r| - |p|
  {
    var n := k - |p| % k;
    FillsBlock(|p|, k);
    p + seq(n, _ => n as byte)
  }

  /** What a correctly padded plaintext looks like for block size `k`. */
  predicate WellPadded(o: seq<byte>, k: nat)
    requires 1 <= k <= 255
  {
    && |o| > 0
    && |o| % k == 0
    && 1 <= PadLength(o) <= k
    && PadLength(o) <= |o|
    && forall i :: |o| - PadLength(o) <= i < |o| ==> o[i] as int == PadLength(o)
  }

  datatype PadError = LengthNotBlockMultiple | PadLengthOutOfRange | PadBytesMismatch

  /**
   * Unpadding that checks what `Unpad` takes on trust: a whole number of
   * blocks, a pad length between 1 and the block size, and every pad byte
   * equal to that length. An empty buffer still comes back unchanged, as in
   * `Unpad`.
   */
  function UnpadChecked(o: seq<byte>, k: nat): (r: Result<seq<byte>, PadError>)
    requires 1 <= k <= 255
    ensures |o| == 0 ==> r == Ok(o)
    ensures |o| > 0 ==> (r.Ok? <==> WellPadded(o, k))
    ensures r.Ok? && |o| > 0 ==> r.value == o[..|o| - PadLength(o)]
  {
    if |o| == 0 then Ok(o)
    else if |o| % k != 0 then Err(LengthNotBlockMultiple)
    else if PadLength(o) < 1 || PadLength(o) > k then Err(PadLengthOutOfRange)
    else
      AtLeastOneBlock(|o|, k);
      if exists i | |o| - PadLength(o) <= i < |o| :: o[i] as int != PadLength(o) then Err(PadBytesMismatch)
      else Ok(o[..|o| - PadLength(o)])
  }

  /** A non-empty whole number of blocks is at least one block long. */
  lemma AtLeastOneBlock(m: nat, k: nat)
    requires k >= 1 && m > 0 && m % k == 0
    ensures m >= k
  {
    var q := m / k;
    assert m == q * k;
    assert q >= 1;
    MulAtLeast(q, k);
  }

  // ---------------------------------------------------------------------
  // Unpad undoes Pad
  // ---------------------------------------------------------------------

  lemma PadLengthOfPad(p: seq<byte>, k: nat)
    requires 1 <= k <= 255
    ensures PadLength(Pad(p, k)) == |Pad(p, k)| - |p|
  {
  }

  /** The source's unpadding recovers any padded plaintext. */
  lemma UnpadPad(p: seq<byte>, k: nat)
    requires 1 <= k <= 255
    ensures Unpad(Pad(p, k)) == Some(p)
  {
    PadLengthOfPad(p, k);
  }

  /** The checked unpadding accepts every padded plaintext and recovers it. */
  lemma UnpadCheckedPad(p: seq<byte>, k: nat)
    requires 1 <= k <= 255
    ensures UnpadChecked(Pad(p, k), k) == Ok(p)
  {
    PadLengthOfPad(p, k);
  }

  /**
   * Whatever non-empty buffer the checked unpadding accepts is a padded
   * plaintext: Pad and UnpadChecked are inverse. (The empty buffer is
   * accepted too, but no padding is empty.)
   */
  lemma PadUnpadChecked(o: seq<byte>, k: nat)
    requires 1 <= k <= 255
    requires |o| > 0 && UnpadChecked(o, k).Ok?
    ensures Pad(UnpadChecked(o, k).value, k) == o
  {
    var p := UnpadChecked(o, k).value;
    var n := PadLength(o);
    assert WellPadded(o, k);
    assert p == o[..|o| - n];
    ModSubtract(|o|, n, k);
    var r := Pad(p, k);
    assert |r| == |o|;
    forall i | 0 <= i < |o|
      ensures r[i] == o[i]
    {
      if i < |p| {
        assert r[i] == r[..|p|][i];
      } else {
        assert r[i] as int == n;
      }
    }
  }

  /** `(m - n) % k == k - n` when `k` divides `m` and `1 <= n <= k <= m`. */
  lemma ModSubtract(m: nat, n: nat, k: nat)
    requires 1 <= n <= k && k <= m && m % k == 0
    ensures (m - n) % k == k - n
  {
    var q := m / k;
    assert m == q * k;
    ModUnique(m - n, k, q - 1, k - n);
  }

  /** Adding `k - len % k` reaches the next multiple of `k`. */
  lemma FillsBlock(len: nat, k: nat)
    requires k >= 1
    ensures (len + (k - len % k)) % k == 0
  {
    var q := len / k;
    assert len == q * k + len % k;
    ModUnique(len + (k - len % k), k, q + 1, 0);
  }

  lemma MulAtLeast(d: int, k: int)
    requires d >= 1 && k > 0
    ensures d * k >= k
  {
    var e := d - 1;
    assert d * k == e * k + k;
    assert e * k >= 0;
  }

  /** Quotient and remainder are unique. */
  lemma ModUnique(x: int, k: int, a: int, b: int)
    requires k > 0 && x == a * k + b && 0 <= b < k
    ensures x % k == b && x / k == a
  {
    var q, r := x / k, x % k;
    assert x == q * k + r;
    assert (q - a) * k == b - r;
    if q - a >= 1 {
      MulAtLeast(q - a, k);
    } else if a - q >= 1 {
      MulAtLeast(a - q, k);
    }
  }

  /** Where the check passes, the source's unpadding gives the same bytes. */
  lemma CheckedAgreesWithUnpad(o: seq<byte>, k: nat)
    requires 1 <= k <= 255
    requires UnpadChecked(o, k).Ok?
    ensures Unpad(o) == Some(UnpadChecked(o, k).value)
  {
  }

  // ---------------------------------------------------------------------
  // What Unpad lets through
  // ---------------------------------------------------------------------

  /** A last byte of 0 passes the whole buffer through as plaintext; the check rejects it. */
  lemma ZeroPadPassesThrough(o: seq<byte>, k: nat)
    requires 1 <= k <= 255
    requires |o| > 0 && o[|o| - 1] == 0
    ensures Unpad(o) == Some(o)
    ensures UnpadChecked(o, k).Err?
  {
    assert o[..|o|] == o;
  }

  /** A last byte larger than the buffer is outside what Unpad can do (the slice panics). */
  lemma OverlongPadPanics(o: seq<byte>, k: nat)
    requires 1 <= k <= 255
    requires |o| > 0 && PadLength(o) > |o|
    ensures Unpad(o) == None
    ensures UnpadChecked(o, k) == Err(PadLengthOutOfRange) || UnpadChecked(o, k) == Err(LengthNotBlockMultiple)
  {
    if |o| % k == 0 {
      AtLeastOneBlock(|o|, k);
    }
  }

  /** Concrete inputs: a stray 0, a stray 5, and pad bytes that disagree. */
  lemma UnpadExamples()
    ensures Unpad([1, 2, 0]) == Some([1, 2, 0])
    ensures Unpad([5]) == None
    ensures Unpad([9, 3, 2]) == Some([9]) && UnpadChecked([9, 3, 2], 3) == Err(PadBytesMismatch)
  {
    var z: seq<byte> := [1, 2, 0];
    assert z[..3] == z;
    assert [9, 3, 2][..1] == [9 as byte];
    var o: seq<byte> := [9, 3, 2];
    assert o[1] as int != PadLength(o);
  }
}
