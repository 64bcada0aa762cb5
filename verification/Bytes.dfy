/** Fixed-width unsigned integers, their little-endian encodings, and byte images that are
    patched in place.  The recorder runs on little-endian machines only. */
module Bytes {
  const TWO_16: int := 0x1_0000
  const TWO_32: int := 0x1_0000_0000
  const TWO_64: int := 0x1_0000_0000_0000_0000

  type u8 = x: int | 0 <= x < 0x100
  type u16 = x: int | 0 <= x < 0x1_0000
  type u32 = x: int | 0 <= x < 0x1_0000_0000
  type u64 = x: int | 0 <= x < 0x1_0000_0000_0000_0000

  function Wrap8(x: int): u8 { x % 0x100 }

  function Wrap16(x: int): u16 { x % 0x1_0000 }

  function Wrap32(x: int): u32 { x % 0x1_0000_0000 }

  function Wrap64(x: int): u64 { x % 0x1_0000_0000_0000_0000 }

  function Min(a: int, b: int): int { if a <= b then a else b }

  // ---------- division by a positive number ----------

  lemma MulGap(b: int, x: int, y: int)
    requires b > 0 && x > y
    ensures b * x - b * y >= b
  {
    MulPositive(b, x - y);
  }

  lemma MulPositive(b: int, k: int)
    requires b > 0 && k >= 1
    ensures b * k >= b
  {
  }

  lemma MulNonnegative(a: int, b: int)
    requires a >= 0 && b >= 0
    ensures a * b >= 0
  {
  }

  lemma MulCommutes(a: int, b: int)
    ensures a * b == b * a
  {
  }

  lemma MulAssociative(a: int, b: int, c: int)
    ensures a * (b * c) == (a * b) * c
  {
  }

  lemma MulDistributes(a: int, b: int, c: int)
    ensures a * (b + c) == a * b + a * c
  {
  }

  lemma DivUnique(b: int, q: int, r: int)
    requires 0 <= r < b
    ensures (b * q + r) / b == q && (b * q + r) % b == r
  {
    var d, m := (b * q + r) / b, (b * q + r) % b;
    assert b * q + r == b * d + m;
    if q > d {
      MulGap(b, q, d);
    } else if q < d {
      MulGap(b, d, q);
    }
  }

  lemma MulDiv(a: int, b: int)
    requires b > 0
    ensures (a * b) / b == a && (a * b) % b == 0
  {
    MulCommutes(a, b);
    DivUnique(b, a, 0);
    assert b * a + 0 == a * b;
  }

  lemma ExactMultiple(a: int, b: int)
    requires b > 0 && a % b == 0
    ensures (a / b) * b == a
  {
  }

  lemma SameModulo(a: int, b: int, m: int)
    requires a == b && m > 0 && a % m == 0
    ensures b % m == 0
  {
  }

  lemma ModAdd(a: int, b: int, k: int)
    requires b > 0 && a % b == 0
    ensures (a + b * k) % b == 0
  {
    var q := a / b;
    assert a == b * q + 0;
    MulDistributes(b, q, k);
    DivUnique(b, q + k, 0);
    assert a + b * k == b * (q + k) + 0;
  }

  // ---------- little-endian fields ----------

  function LE16(x: u16): (b: seq<u8>)
    ensures |b| == 2
  {
    [x % 256, x / 256]
  }

  function LE32(x: u32): (b: seq<u8>)
    ensures |b| == 4
  {
    LE16(x % TWO_16) + LE16(x / TWO_16)
  }

  function FromLE16(b: seq<u8>): u16
    requires |b| == 2
  {
    var low: int, high: int := b[0], b[1];
    low + 256 * high
  }

  function FromLE32(b: seq<u8>): u32
    requires |b| == 4
  {
    var low: int, high: int := FromLE16(b[..2]), FromLE16(b[2..]);
    low + TWO_16 * high
  }

  lemma LE16RoundTrip(x: u16)
    ensures FromLE16(LE16(x)) == x
  {
  }

  lemma LE32RoundTrip(x: u32)
    ensures FromLE32(LE32(x)) == x
  {
  }

  lemma FromLE16RoundTrip(b: seq<u8>)
    requires |b| == 2
    ensures LE16(FromLE16(b)) == b
  {
  }

  lemma FromLE32RoundTrip(b: seq<u8>)
    requires |b| == 4
    ensures LE32(FromLE32(b)) == b
  {
    FromLE16RoundTrip(b[..2]);
    FromLE16RoundTrip(b[2..]);
    hide FromLE16, LE16;
    var low: int, high: int := FromLE16(b[..2]), FromLE16(b[2..]);
    assert (low + TWO_16 * high) % TWO_16 == low && (low + TWO_16 * high) / TWO_16 == high;
    assert b == b[..2] + b[2..];
  }

  // ---------- byte images ----------

  function Zeros(n: nat): (z: seq<u8>)
    ensures |z| == n
  {
    seq(n, _ => 0)
  }

  /** The byte at `i` once `b` has been written at `at`. */
  function PatchedAt(s: seq<u8>, at: nat, b: seq<u8>, i: nat): u8
  {
    if at <= i < at + |b| then b[i - at] else if i < |s| then s[i] else 0
  }

  /** The image after `b` is written at offset `at`; a gap beyond the end reads as zeros. */
  function Patch(s: seq<u8>, at: nat, b: seq<u8>): (r: seq<u8>)
    ensures |b| == 0 ==> r == s
    ensures |b| > 0 ==> |r| == if |s| >= at + |b| then |s| else at + |b|
    ensures forall i :: 0 <= i < |r| ==> r[i] == PatchedAt(s, at, b, i)
  {
    if |b| == 0 then s
    else seq(if |s| >= at + |b| then |s| else at + |b|, i requires i >= 0 => PatchedAt(s, at, b, i))
  }

  /** Writing puts the bytes down, keeps all others, and fills a gap with zeros. */
  lemma PatchMeans(s: seq<u8>, at: nat, b: seq<u8>)
    requires |b| > 0
    ensures var r := Patch(s, at, b);
            && at + |b| <= |r| && |s| <= |r| && (|r| == |s| || |r| == at + |b|) && r[at..at + |b|] == b
            && (forall i :: 0 <= i < |s| && (i < at || at + |b| <= i) ==> r[i] == s[i])
            && (forall i :: |s| <= i < at ==> r[i] == 0)
  {
  }

  lemma PatchMiddle(pre: seq<u8>, mid: seq<u8>, post: seq<u8>, b: seq<u8>)
    requires |mid| == |b|
    ensures Patch(pre + mid + post, |pre|, b) == pre + b + post
  {
    assert |b| == 0 ==> mid == b;
  }

  lemma PatchEnd(pre: seq<u8>, b: seq<u8>)
    ensures Patch(pre, |pre|, b) == pre + b
  {
  }

  /** What `fread` delivers for `n` bytes requested at `at`. */
  function Slice(s: seq<u8>, at: nat, n: nat): (r: seq<u8>)
    ensures |r| <= n
  {
    if at >= |s| then [] else s[at..Min(at + n, |s|)]
  }

  lemma Associative<T>(a: seq<T>, b: seq<T>, c: seq<T>)
    ensures (a + b) + c == a + (b + c)
  {
  }

  /** The concatenation of a list of byte buffers. */
  function Flatten(bs: seq<seq<u8>>): seq<u8>
  {
    if bs == [] then [] else Flatten(bs[..|bs| - 1]) + bs[|bs| - 1]
  }

  lemma FlattenSnoc(bs: seq<seq<u8>>, b: seq<u8>)
    ensures Flatten(bs + [b]) == Flatten(bs) + b
  {
    assert (bs + [b])[..|bs|] == bs;
  }
}
