/** The bitset of BEP 3, section "peer messages": the high bit of the first byte is index 0.
    `ElemsOf` gives the set of integers that a byte string stands for; the class below works on the bytes. */
module Bitsets {
  import opened Arith
  import opened Bytes
  import opened Words

  // ---- One byte, as its eight bits ----

  function ToBits(x: byte): (p: seq<bool>)
    ensures |p| == 8
  {
    BitsOf(x as int, 8)
  }

  function FromBits(p: seq<bool>): (x: byte)
    requires |p| == 8
    ensures ToBits(x) == p
  {
    assert Pow2(8) == 256;
    BitsOfValue(p);
    Value(p) as byte
  }

  /** x & (128 >> k) != 0 */
  predicate Bit(x: byte, k: nat)
    requires k < 8
  {
    ToBits(x)[k]
  }

  /** x | (128 >> k) */
  function SetBit(x: byte, k: nat): byte
    requires k < 8
  {
    FromBits(ToBits(x)[k := true])
  }

  /** x & ^(128 >> k) */
  function ClearBit(x: byte, k: nat): byte
    requires k < 8
  {
    FromBits(ToBits(x)[k := false])
  }

  /** x & ^y */
  function AndNotByte(x: byte, y: byte): byte {
    FromBits(seq(8, (k: nat) requires k < 8 => Bit(x, k) && !Bit(y, k)))
  }

  /** ^byte(255 >> (n & 7)): which bits of the last byte are valid. */
  function EndMask(n: nat): byte {
    FromBits(seq(8, (k: nat) => k < n % 8))
  }

  /** x & y */
  function AndByte(x: byte, y: byte): byte {
    FromBits(seq(8, (k: nat) requires k < 8 => Bit(x, k) && Bit(y, k)))
  }

  lemma SameByte(x: byte, y: byte)
    requires forall k: nat | k < 8 :: Bit(x, k) == Bit(y, k)
    ensures x == y
  {
    forall k: nat | k < 8
      ensures ToBits(x)[k] == ToBits(y)[k]
    {
      assert Bit(x, k) == Bit(y, k);
    }
    assert ToBits(x) == ToBits(y);
    assert Pow2(8) == 256;
    ValueOfBits(x as int, 8);
    ValueOfBits(y as int, 8);
  }

  lemma ZeroByte(x: byte)
    ensures x == 0 <==> forall k: nat | k < 8 :: !Bit(x, k)
  {
    assert forall k: nat | k < 8 :: !Bit(0, k) by {
      assert BitsOf(0, 4) == [false, false, false, false];
      assert ToBits(0) == seq(8, (k: nat) => false);
    }
    if forall k: nat | k < 8 :: !Bit(x, k) {
      SameByte(x, 0);
    }
  }

  // ---- Byte strings ----

  function ByteCount(n: nat): nat {
    (n + 7) / 8
  }

  predicate BitAt(data: seq<byte>, i: nat)
    requires i < 8 * |data|
  {
    Bit(data[i / 8], i % 8)
  }

  function ElemsOf(n: nat, data: seq<byte>): (s: set<nat>)
    requires n <= 8 * |data|
    ensures forall i: nat :: i in s <==> i < n && BitAt(data, i)
  {
    set i: nat | i < n && BitAt(data, i)
  }

  ghost predicate SpareClear(n: nat, data: seq<byte>) {
    forall i: nat | n <= i < 8 * |data| :: !BitAt(data, i)
  }

  lemma BitOfByte(data: seq<byte>, k: nat, j: nat)
    requires k < |data| && j < 8
    ensures 8 * k + j < 8 * |data| && BitAt(data, 8 * k + j) == Bit(data[k], j)
  {
    Quotient(8 * k + j, k, 8, j);
  }

  /** One test of the last byte decides whether every spare bit is zero. */
  lemma OneSpareByte(n: nat, data: seq<byte>)
    requires |data| == ByteCount(n) && n % 8 != 0
    ensures SpareClear(n, data) <==> AndNotByte(data[n / 8], EndMask(n)) == 0
  {
    var last, spare := data[n / 8], AndNotByte(data[n / 8], EndMask(n));
    ZeroByte(spare);
    assert forall k: nat | k < 8 :: Bit(spare, k) <==> Bit(last, k) && n % 8 <= k;
    if SpareClear(n, data) {
      forall k: nat | k < 8
        ensures !Bit(spare, k)
      {
        BitOfByte(data, n / 8, k);
        assert n % 8 <= k ==> n <= 8 * (n / 8) + k;
      }
    }
    if spare == 0 {
      forall i: nat | n <= i < 8 * |data|
        ensures !BitAt(data, i)
      {
        assert i / 8 == n / 8 && n % 8 <= i % 8;
        assert !Bit(spare, i % 8);
      }
    }
  }

  // ---- The value on the wire ----

  function ByteFrom(s: set<nat>, base: nat): byte {
    FromBits(seq(8, (k: nat) => base + k in s))
  }

  /** The payload of a BITFIELD message for the pieces in s out of n. */
  function Encode(n: nat, s: set<nat>): (data: seq<byte>)
    ensures |data| == ByteCount(n)
  {
    seq(ByteCount(n), (k: nat) => ByteFrom(s, 8 * k))
  }

  /** What `NewBitsetFromBytes` makes of a payload: nothing if its length or a spare bit is wrong. */
  ghost function Decode(n: nat, data: seq<byte>): Option<set<nat>> {
    if |data| == ByteCount(n) && SpareClear(n, data) then Some(ElemsOf(n, data)) else None
  }

  lemma EncodedBits(n: nat, s: set<nat>, i: nat)
    requires i < 8 * ByteCount(n)
    ensures BitAt(Encode(n, s), i) <==> i in s
  {
    assert 8 * (i / 8) + i % 8 == i;
  }

  lemma DecodeEncode(n: nat, s: set<nat>)
    requires s <= Upto(n)
    ensures Decode(n, Encode(n, s)) == Some(s)
  {
    forall i: nat | i < 8 * ByteCount(n)
      ensures BitAt(Encode(n, s), i) <==> i in s
    {
      EncodedBits(n, s, i);
    }
    assert ElemsOf(n, Encode(n, s)) == s;
  }

  lemma EncodeDecode(n: nat, data: seq<byte>)
    requires Decode(n, data).Some?
    ensures Encode(n, Decode(n, data).value) == data
  {
    var s := Decode(n, data).value;
    var again := Encode(n, s);
    forall k: nat | k < |data|
      ensures again[k] == data[k]
    {
      forall j: nat | j < 8
        ensures Bit(again[k], j) == Bit(data[k], j)
      {
        BitOfByte(data, k, j);
        BitOfByte(again, k, j);
        EncodedBits(n, s, 8 * k + j);
        assert BitAt(data, 8 * k + j) <==> 8 * k + j in s;
      }
      SameByte(again[k], data[k]);
    }
  }

  /** r is the least index from `index` on, below n, that is in s (or not in s); -1 says there is none. */
  ghost predicate FirstFrom(s: set<nat>, member: bool, index: nat, n: nat, r: int) {
    && (r == -1 || (index <= r < n && (r in s <==> member)))
    && forall k: nat | index <= k < (if r == -1 then n else r) :: k in s <==> !member
  }

  // ---- The class ----

  class Bitset {
    var b: array<byte>
    var n: nat
    var endIndex: int
    var endMask: byte  // which bits of the last byte are valid

    ghost predicate Valid()
      reads this, b
    {
      && b.Length == ByteCount(n)
      && endIndex == (if n % 8 == 0 then -1 else n / 8)
      && endMask == EndMask(n)
      && SpareClear(n, b[..])
    }

    ghost function Elems(): set<nat>
      reads this, b
      requires Valid()
    {
      ElemsOf(n, b[..])
    }

    constructor (n: nat)
      ensures Valid() && fresh(b)
      ensures this.n == n && Elems() == {}
    {
      b := new byte[ByteCount(n)](_ => 0);
      this.n := n;
      endIndex := if n % 8 == 0 then -1 else n / 8;
      endMask := EndMask(n);
      new;
      ZeroByte(0);
      assert forall i: nat | i < 8 * |b[..]| :: !BitAt(b[..], i);
      assert ElemsOf(n, b[..]) == {};
    }

    /** nil exactly when the length is wrong or a spare bit is set. */
    static method FromBytes(n: nat, data: seq<byte>) returns (r: Bitset?)
      ensures r == null <==> Decode(n, data) == None
      ensures r != null ==> fresh(r) && fresh(r.b) && r.Valid() && r.n == n && Some(r.Elems()) == Decode(n, data)
    {
      r := new Bitset(n);
      if r.b.Length != |data| {
        return null;
      }
      forall i | 0 <= i < |data| {
        r.b[i] := data[i];
      }
      assert r.b[..] == data;
      if r.endIndex >= 0 {
        OneSpareByte(n, data);
        if AndNotByte(r.b[r.endIndex], r.endMask) != 0 {
          return null;
        }
      } else {
        assert 8 * |data| == n;
      }
    }

    method Set(index: nat)
      requires Valid() && index < n
      modifies b
      ensures Valid() && Elems() == old(Elems()) + {index}
    {
      b[index / 8] := SetBit(b[index / 8], index % 8);
      assert forall i: nat | i < 8 * |b[..]| :: BitAt(b[..], i) <==> old(BitAt(b[..], i)) || i == index by {
        assert forall i: nat | i / 8 == index / 8 && i % 8 == index % 8 :: i == index;
      }
      assert Elems() == old(Elems()) + {index};
    }

    method Clear(index: nat)
      requires Valid() && index < n
      modifies b
      ensures Valid() && Elems() == old(Elems()) - {index}
    {
      b[index / 8] := ClearBit(b[index / 8], index % 8);
      assert forall i: nat | i < 8 * |b[..]| :: BitAt(b[..], i) <==> old(BitAt(b[..], i)) && i != index by {
        assert forall i: nat | i / 8 == index / 8 && i % 8 == index % 8 :: i == index;
      }
      assert Elems() == old(Elems()) - {index};
    }

    method IsSet(index: nat) returns (r: bool)
      requires Valid() && index < n
      ensures r <==> index in Elems()
    {
      assert BitAt(b[..], index) == Bit(b[index / 8], index % 8);
      r := Bit(b[index / 8], index % 8);
    }

    /** Unequal sizes panic; the argument may be the receiver itself. */
    method AndNot(b2: Bitset)
      requires Valid() && b2.Valid() && n == b2.n
      modifies b
      ensures Valid() && Elems() == old(Elems()) - old(b2.Elems())
    {
      ghost var was, sub := b[..], b2.b[..];
      for i := 0 to b.Length
        invariant b.Length == ByteCount(n)
        invariant forall k | 0 <= k < i :: b[k] == AndNotByte(was[k], sub[k])
        invariant forall k | i <= k < b.Length :: b[k] == was[k] && b2.b[k] == sub[k]
      {
        b[i] := AndNotByte(b[i], b2.b[i]);
      }
      assert forall i: nat | i < 8 * |was| :: BitAt(b[..], i) <==> BitAt(was, i) && !BitAt(sub, i);
      ghost var cut := b[..];
      ClearEnd();
      assert forall i: nat | i < 8 * |was| :: BitAt(b[..], i) <==> BitAt(cut, i);
      assert Elems() == old(Elems()) - old(b2.Elems());
    }

    method ClearEnd()
      requires b.Length == ByteCount(n)
      requires endIndex == (if n % 8 == 0 then -1 else n / 8) && endMask == EndMask(n)
      modifies b
      ensures Valid()
      ensures forall i: nat | i < 8 * b.Length :: BitAt(b[..], i) <==> old(BitAt(b[..], i)) && i < n
    {
      hide BitAt, AndByte, EndMask;
      ghost var was := b[..];
      EndCleared(n, was);
      if endIndex >= 0 {
        b[endIndex] := AndByte(b[endIndex], endMask);
        assert b[..] == was[endIndex := AndByte(was[endIndex], endMask)];
      }
    }

    lemma EndCleared(n: nat, data: seq<byte>)
      requires |data| == ByteCount(n)
      ensures n % 8 != 0 ==>
                && n / 8 < |data|
                && var after := data[n / 8 := AndByte(data[n / 8], EndMask(n))];
                   forall i: nat | i < 8 * |data| :: BitAt(after, i) <==> BitAt(data, i) && i < n
      ensures n % 8 == 0 ==> 8 * |data| == n
    {
    }

    method FindNextSet(index: nat) returns (r: int)
      requires Valid()
      ensures FirstFrom(Elems(), true, index, n, r)
    {
      var i := index;
      while i < n
        invariant forall k: nat | index <= k < i && k < n :: k !in Elems()
      {
        var isSet := IsSet(i);
        if isSet {
          return i;
        }
        i := i + 1;
      }
      return -1;
    }

    method FindNextClear(index: nat) returns (r: int)
      requires Valid()
      ensures FirstFrom(Elems(), false, index, n, r)
    {
      var i := index;
      while i < n
        invariant forall k: nat | index <= k < i && k < n :: k in Elems()
      {
        var isSet := IsSet(i);
        if !isSet {
          return i;
        }
        i := i + 1;
      }
      return -1;
    }

    /** What is sent as a BITFIELD payload reads back as the same set. */
    method Bytes() returns (data: seq<byte>)
      requires Valid()
      ensures Decode(n, data) == Some(Elems()) && data == Encode(n, Elems())
    {
      data := b[..];
      EncodeDecode(n, data);
    }
  }

  /** The set that a bitset stands for, read bit by bit. */
  method SetOf(bits: Bitset) returns (elems: set<nat>)
    requires bits.Valid()
    ensures elems == bits.Elems() && forall i | i in elems :: i < bits.n
  {
    elems := {};
    ghost var all := bits.Elems();
    for i := 0 to bits.n
      invariant forall k: nat :: k in elems <==> k < i && k in all
    {
      var isSet := bits.IsSet(i);
      if isSet {
        elems := elems + {i};
      }
    }
  }
}
