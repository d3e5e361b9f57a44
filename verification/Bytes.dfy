/** Bytes, big-endian 32-bit integers and the few sequence operations that every other module uses. */
module Bytes {
  import opened Arith

  newtype byte = x: int | 0 <= x < 256

  datatype Option<+T> = None | Some(value: T)

  const TWO_TO_THE_32: int := 0x1_0000_0000

  function Zeros(n: nat): (z: seq<byte>)
    ensures |z| == n
    ensures forall i | 0 <= i < n :: z[i] == 0
  {
    seq(n, i => 0)
  }

  /** The array `a` with the bytes from `off` on overwritten by `data`. */
  function Splice(a: seq<byte>, off: nat, data: seq<byte>): (r: seq<byte>)
    requires off + |data| <= |a|
    ensures |r| == |a|
    ensures r[off..off + |data|] == data
    ensures forall i | 0 <= i < |a| && !(off <= i < off + |data|) :: r[i] == a[i]
  {
    a[..off] + data + a[off + |data|..]
  }

  function Min(x: nat, y: nat): nat {
    if x < y then x else y
  }

  function Max(x: nat, y: nat): nat {
    if x < y then y else x
  }

  lemma SubSlice<T>(a: seq<T>, start: nat, length: nat, lo: nat, n: nat)
    requires start + length <= |a| && lo + n <= length
    ensures a[start..start + length][lo..lo + n] == a[start + lo..start + lo + n]
  {
    var x, y := a[start..start + length][lo..lo + n], a[start + lo..start + lo + n];
    forall i | 0 <= i < n
      ensures x[i] == y[i]
    {
      assert x[i] == a[start..start + length][lo + i];
    }
  }

  lemma SpliceAppend(a: seq<byte>, off: nat, x: seq<byte>, y: seq<byte>)
    requires off + |x| + |y| <= |a|
    ensures Splice(Splice(a, off, x), off + |x|, y) == Splice(a, off, x + y)
  {
  }

  /** The bytes of `a` from off on, with zeros past its end. */
  function PaddedRead(a: seq<byte>, off: nat, length: nat): (r: seq<byte>)
    ensures |r| == length
  {
    seq(length, i => if 0 <= i && off + i < |a| then a[off + i] else 0)
  }

  lemma PaddedReadAppend(a: seq<byte>, off: nat, n: nat, k: nat)
    ensures off + n + k <= |a| ==> PaddedRead(a, off, n + k) == PaddedRead(a, off, n) + a[off + n..off + n + k]
    ensures |a| <= off + n ==> PaddedRead(a, off, n + k) == PaddedRead(a, off, n) + Zeros(k)
  {
  }

  /** A buffer `was`, into which the first n bytes of `a` from off on were read at lo. */
  function ReadInto(was: seq<byte>, lo: nat, a: seq<byte>, off: nat, n: nat): seq<byte>
    requires lo + n <= |was|
  {
    Splice(was, lo, PaddedRead(a, off, n))
  }

  /** A read that has filled n bytes goes on with k more, from `a` or past its end. */
  lemma ReadExtends(p: seq<byte>, was: seq<byte>, lo: nat, a: seq<byte>, off: nat, n: nat, part: seq<byte>)
    requires lo + n + |part| <= |was|
    requires p == Splice(ReadInto(was, lo, a, off, n), lo + n, part)
    requires || (off + n + |part| <= |a| && part == a[off + n..off + n + |part|])
             || (|a| <= off + n && part == Zeros(|part|))
    ensures p == ReadInto(was, lo, a, off, n + |part|)
  {
    PaddedReadAppend(a, off, n, |part|);
    SpliceAppend(was, lo, PaddedRead(a, off, n), part);
  }

  /** The array `a` with `data` written from off on; what lies past the end of `a` is dropped. */
  function Overlay(a: seq<byte>, off: nat, data: seq<byte>): (r: seq<byte>)
    ensures |r| == |a|
  {
    seq(|a|, i requires 0 <= i < |a| => if off <= i < off + |data| then data[i - off] else a[i])
  }

  lemma OverlayInRange(a: seq<byte>, off: nat, data: seq<byte>)
    requires off + |data| <= |a|
    ensures Overlay(a, off, data) == Splice(a, off, data)
  {
    var s := Splice(a, off, data);
    forall i | 0 <= i < |a|
      ensures s[i] == if off <= i < off + |data| then data[i - off] else a[i]
    {
      if off <= i < off + |data| {
        assert s[i] == s[off..off + |data|][i - off];
      }
    }
  }

  lemma OverlayAppend(a: seq<byte>, off: nat, x: seq<byte>, y: seq<byte>)
    ensures Overlay(Overlay(a, off, x), off + |x|, y) == Overlay(a, off, x + y)
  {
  }

  lemma WriteExtends(a: seq<byte>, off: nat, p: seq<byte>, n: nat, k: nat)
    requires n + k <= |p|
    ensures Overlay(Overlay(a, off, p[..n]), off + n, p[n..n + k]) == Overlay(a, off, p[..n + k])
  {
    OverlayAppend(a, off, p[..n], p[n..n + k]);
    assert p[..n] + p[n..n + k] == p[..n + k];
  }

  /** Bytes that would go past the end change nothing. */
  lemma OverlayRest(a: seq<byte>, off: nat, p: seq<byte>, n: nat)
    requires n <= |p| && (n < |p| ==> off + n >= |a|)
    ensures Overlay(a, off, p[..n]) == Overlay(a, off, p)
  {
  }

  lemma OverlayElsewhere(a: seq<byte>, off: nat, data: seq<byte>, start: nat, length: nat)
    requires start + length <= |a| && (off + |data| <= start || start + length <= off)
    ensures Overlay(a, off, data)[start..start + length] == a[start..start + length]
  {
  }

  lemma OverlayWithin(a: seq<byte>, start: nat, length: nat, off: nat, data: seq<byte>)
    requires start + length <= |a| && off + |data| <= length
    ensures Overlay(a, start + off, data)[start..start + length] == Splice(a[start..start + length], off, data)
  {
    OverlayInRange(a[start..start + length], off, data);
  }

  /** Writing and reading back gives the data exactly when nothing but zeros was written past the end. */
  lemma ReadBack(a: seq<byte>, off: nat, data: seq<byte>)
    ensures PaddedRead(Overlay(a, off, data), off, |data|) == data
            <==> forall i | 0 <= i < |data| && off + i >= |a| :: data[i] == 0
  {
    var r := PaddedRead(Overlay(a, off, data), off, |data|);
    if r == data {
      assert forall i | 0 <= i < |data| && off + i >= |a| :: r[i] == 0;
    }
  }

  /** Big-endian encoding; each byte keeps the low eight bits of the shifted integer. */
  function Uint32ToBytes(n: nat): (b: seq<byte>)
    requires n < TWO_TO_THE_32
    ensures |b| == 4
  {
    [(n / 0x100_0000 % 256) as byte, (n / 0x1_0000 % 256) as byte, (n / 0x100 % 256) as byte, (n % 256) as byte]
  }

  /** The four bytes are shifted to disjoint positions, so their bitwise or is their sum. */
  function BytesToUint32(b: seq<byte>): (n: nat)
    requires |b| == 4
    ensures n < TWO_TO_THE_32
  {
    b[0] as int * 0x100_0000 + b[1] as int * 0x1_0000 + b[2] as int * 0x100 + b[3] as int
  }

  lemma Uint32RoundTrip(n: nat)
    requires n < TWO_TO_THE_32
    ensures BytesToUint32(Uint32ToBytes(n)) == n
  {
    var q1 := n / 0x100;
    var q2 := q1 / 0x100;
    var q3 := q2 / 0x100;
    Quotient(n, q2, 0x1_0000, q1 % 256 * 256 + n % 256);
    Quotient(n, q3, 0x100_0000, q2 % 256 * 0x1_0000 + q1 % 256 * 256 + n % 256);
  }

  /** The first byte counts most: integers compare as the strings of their bytes do. */
  ghost predicate Precedes(x: seq<byte>, y: seq<byte>)
    requires |x| == |y|
  {
    exists i :: 0 <= i < |x| && x[..i] == y[..i] && x[i] < y[i]
  }

  lemma OrderOnWire(m: nat, n: nat)
    requires m < TWO_TO_THE_32 && n < TWO_TO_THE_32
    ensures m < n <==> Precedes(Uint32ToBytes(m), Uint32ToBytes(n))
  {
    hide Uint32ToBytes;
    Uint32RoundTrip(m);
    Uint32RoundTrip(n);
    ByteOrder(Uint32ToBytes(m), Uint32ToBytes(n));
  }

  lemma ByteOrder(x: seq<byte>, y: seq<byte>)
    requires |x| == |y| == 4
    ensures BytesToUint32(x) < BytesToUint32(y) <==> Precedes(x, y)
  {
    if BytesToUint32(x) < BytesToUint32(y) {
      var i := if x[0] != y[0] then 0 else if x[1] != y[1] then 1 else if x[2] != y[2] then 2 else 3;
      assert x[..i] == y[..i] && x[i] < y[i];
    }
    if i :| 0 <= i < 4 && x[..i] == y[..i] && x[i] < y[i] {
      assert forall j | 0 <= j < i :: x[j] == x[..i][j] && y[j] == y[..i][j];
    }
  }

  lemma BytesRoundTrip(b: seq<byte>)
    requires |b| == 4
    ensures Uint32ToBytes(BytesToUint32(b)) == b
  {
    var n := BytesToUint32(b);
    var b0, b1, b2, b3 := b[0] as int, b[1] as int, b[2] as int, b[3] as int;
    Quotient(n, b0, 0x100_0000, b1 * 0x1_0000 + b2 * 256 + b3);
    Quotient(n, b0 * 256 + b1, 0x1_0000, b2 * 256 + b3);
    Quotient(n, b0 * 0x1_0000 + b1 * 256 + b2, 0x100, b3);
    Quotient(b0 * 0x1_0000 + b1 * 256 + b2, b0 * 256 + b1, 0x100, b2);
    Quotient(b0 * 256 + b1, b0, 0x100, b1);
  }
}
