/** The RAM cache of whole pieces ("boxes") that sits on a file store. */
module RamCaches {
  import opened Arith
  import opened Bytes
  import opened Files
  import opened Geometry
  import opened Sorting

  type Box = Option<seq<byte>>

  datatype AccessTime = AccessTime(index: nat, atime: int)

  // ---- Boxes in use ----

  function InUse(store: seq<Box>): nat {
    if store == [] then 0 else InUse(store[..|store| - 1]) + if store[|store| - 1].Some? then 1 else 0
  }

  lemma {:induction false} InUseUpdate(store: seq<Box>, i: nat, box: Box)
    requires i < |store|
    ensures InUse(store[i := box])
         == InUse(store) - (if store[i].Some? then 1 else 0) + (if box.Some? then 1 else 0)
  {
    var n := |store| - 1;
    if i < n {
      InUseUpdate(store[..n], i, box);
      assert store[i := box][..n] == store[..n][i := box];
    } else {
      assert store[i := box][..n] == store[..n];
    }
  }

  lemma {:induction false} InUseNone(store: seq<Box>)
    requires forall i | 0 <= i < |store| :: store[i].None?
    ensures InUse(store) == 0
  {
    if store != [] {
      InUseNone(store[..|store| - 1]);
    }
  }

  function BoxStart(pieceSize: nat, i: nat): nat {
    i * pieceSize
  }

  /** There are exactly as many boxes as it takes to hold the torrent. */
  ghost predicate BoxesCover(n: nat, pieceSize: nat, torrentLength: nat) {
    forall i: nat :: i < n <==> BoxStart(pieceSize, i) < torrentLength
  }

  lemma PieceCountCovers(pieceSize: nat, torrentLength: nat)
    requires pieceSize >= 1
    ensures BoxesCover(PieceCount(torrentLength, pieceSize), pieceSize, torrentLength)
  {
    var n := PieceCount(torrentLength, pieceSize);
    if torrentLength > 0 {
      Tiling(torrentLength, pieceSize);
      MulStep(n, pieceSize);
    }
    forall i: nat
      ensures i < n <==> BoxStart(pieceSize, i) < torrentLength
    {
      if i < n {
        MulMonotone(i, n - 1, pieceSize);
      } else {
        MulMonotone(n, i, pieceSize);
      }
    }
  }

  /** The part of the flat content that belongs to box i. */
  function BoxSlice(flat: seq<byte>, pieceSize: nat, i: nat): seq<byte> {
    var start := BoxStart(pieceSize, i);
    if start >= |flat| then [] else flat[start..Min(start + pieceSize, |flat|)]
  }

  /** Writing one box changes that box only. */
  lemma BoxAfterWrite(flat: seq<byte>, pieceSize: nat, boxI: nat, p: seq<byte>, i: nat)
    requires BoxStart(pieceSize, boxI) < |flat| && |p| == |BoxSlice(flat, pieceSize, boxI)|
    ensures BoxSlice(Overlay(flat, BoxStart(pieceSize, boxI), p), pieceSize, i)
         == if i == boxI then p else BoxSlice(flat, pieceSize, i)
  {
    var start, other := BoxStart(pieceSize, boxI), BoxStart(pieceSize, i);
    if i == boxI {
      OverlayInRange(flat, start, p);
    } else if other < |flat| {
      BoxesApart(pieceSize, boxI, i);
      OverlayElsewhere(flat, start, p, other, Min(other + pieceSize, |flat|) - other);
    }
  }

  lemma BoxesApart(pieceSize: nat, i: nat, j: nat)
    requires i != j
    ensures || BoxStart(pieceSize, i) + pieceSize <= BoxStart(pieceSize, j)
            || BoxStart(pieceSize, j) + pieceSize <= BoxStart(pieceSize, i)
  {
    if i < j {
      MulMonotone(i + 1, j, pieceSize);
    } else {
      MulMonotone(j + 1, i, pieceSize);
    }
  }

  ghost predicate NotNewer(atimes: seq<int>, i: nat, j: nat)
    requires i < |atimes| && j < |atimes|
  {
    atimes[i] <= atimes[j]
  }

  /** Some boxes were thrown away, none of them newer than one that was kept. */
  ghost predicate Evicts(before: seq<Box>, after: seq<Box>, atimes: seq<int>) {
    && |after| == |before| == |atimes|
    && (forall i | 0 <= i < |after| :: after[i] == before[i] || after[i] == None)
    && forall i, j {:trigger NotNewer(atimes, i, j)}
         | 0 <= i < |after| && 0 <= j < |after| && after[i] != before[i] && after[j].Some? :: NotNewer(atimes, i, j)
  }

  /** The list names each box in use once, with its access time. */
  ghost predicate Lists(s: seq<AccessTime>, store: seq<Box>, atimes: seq<int>) {
    && |atimes| == |store| && |s| == InUse(store) && NoDuplicates(s)
    && forall t :: t in s <==> t.index < |store| && store[t.index].Some? && t.atime == atimes[t.index]
  }

  /** The boxes that are left when the first n of the list are thrown away. */
  ghost function Without(store: seq<Box>, s: seq<AccessTime>, n: nat): (r: seq<Box>)
    requires n <= |s| && forall k | 0 <= k < |s| :: s[k].index < |store|
    ensures |r| == |store|
  {
    if n == 0 then store else Without(store, s, n - 1)[s[n - 1].index := None]
  }

  lemma {:induction false} WithoutAt(store: seq<Box>, s: seq<AccessTime>, n: nat, j: nat)
    requires n <= |s| && j < |store| && forall k | 0 <= k < |s| :: s[k].index < |store|
    ensures Without(store, s, n)[j] == if exists k | 0 <= k < n :: s[k].index == j then None else store[j]
  {
    if n > 0 {
      WithoutAt(store, s, n - 1, j);
      if s[n - 1].index != j && exists k | 0 <= k < n :: s[k].index == j {
        var k :| 0 <= k < n && s[k].index == j;
        assert k < n - 1;
      }
    }
  }

  /** The next box of the list is still there. */
  lemma WithoutNext(store: seq<Box>, atimes: seq<int>, s: seq<AccessTime>, n: nat)
    requires Lists(s, store, atimes) && n < |s|
    requires forall k | 0 <= k < |s| :: s[k].index < |store|
    ensures Without(store, s, n)[s[n].index].Some?
  {
    var j := s[n].index;
    WithoutAt(store, s, n, j);
    assert s[n] in s;
    forall k | 0 <= k < n
      ensures s[k].index != j
    {
      assert s[k] in s && s[k] != s[n];
    }
  }

  lemma ListedIndices(s: seq<AccessTime>, store: seq<Box>, atimes: seq<int>)
    requires Lists(s, store, atimes)
    ensures forall k | 0 <= k < |s| :: s[k].index < |store|
  {
    forall k | 0 <= k < |s|
      ensures s[k].index < |store|
    {
      assert s[k] in s;
    }
  }

  /** In a list sorted by time, the first n are the oldest. */
  lemma OldestGo(store: seq<Box>, atimes: seq<int>, s: seq<AccessTime>, n: nat)
    requires Lists(s, store, atimes) && n <= |s|
    requires forall i, j | 0 <= i < j < |s| :: s[i].atime <= s[j].atime
    requires forall k | 0 <= k < |s| :: s[k].index < |store|
    ensures Evicts(store, Without(store, s, n), atimes)
  {
    var after := Without(store, s, n);
    forall i | 0 <= i < |after|
      ensures after[i] == store[i] || after[i] == None
    {
      WithoutAt(store, s, n, i);
    }
    forall i, j | 0 <= i < |after| && 0 <= j < |after| && after[i] != store[i] && after[j].Some?
      ensures NotNewer(atimes, i, j)
    {
      WithoutAt(store, s, n, i);
      WithoutAt(store, s, n, j);
      var k :| 0 <= k < n && s[k].index == i;
      assert s[k] in s;
      var t := AccessTime(j, atimes[j]);
      assert t in s;
      var l :| 0 <= l < |s| && s[l] == t;
      assert l >= n;
    }
  }

  class RamCache {
    const pieceSize: nat
    const torrentLength: nat
    const underlying: FileStore
    var capacity: nat
    var actualUsage: int
    var atimes: seq<int>
    var store: seq<Box>

    ghost predicate Counted()
      reads this
    {
      |atimes| == |store| && actualUsage == InUse(store)
    }

    ghost predicate Coherent(flat: seq<byte>)
      reads this
    {
      forall i | 0 <= i < |store| && store[i].Some? :: store[i].value == BoxSlice(flat, pieceSize, i)
    }

    ghost predicate Valid()
      reads this, underlying, underlying.Arrays()
    {
      && underlying.Valid() && underlying.pieceSize == pieceSize
      && pieceSize >= 1 && |underlying.contents| == torrentLength
      && BoxesCover(|store|, pieceSize, torrentLength)
      && Counted() && Coherent(underlying.contents)
    }

    ghost function Boxes(): map<nat, seq<byte>>
      reads this
    {
      map i: nat | i < |store| && store[i].Some? :: store[i].value
    }

    /** `numPieces` has to fit the torrent. The capacity is set by the provider. */
    constructor (numPieces: nat, pieceSize: nat, torrentLength: nat, underlying: FileStore)
      requires underlying.Valid() && underlying.pieceSize == pieceSize
      requires pieceSize >= 1 && |underlying.contents| == torrentLength
      requires numPieces == PieceCount(torrentLength, pieceSize)
      ensures Valid() && Boxes() == map[] && this.underlying == underlying
      ensures this.pieceSize == pieceSize && this.torrentLength == torrentLength && capacity == 1
    {
      this.pieceSize := pieceSize;
      this.torrentLength := torrentLength;
      this.underlying := underlying;
      capacity := 1;
      actualUsage := 0;
      atimes := seq(numPieces, _ => 0);
      store := seq(numPieces, _ => None);
      new;
      PieceCountCovers(pieceSize, torrentLength);
      InUseNone(store);
    }

    method SetCapacity(capacity: nat)
      modifies this`capacity
      ensures this.capacity == capacity
    {
      this.capacity := capacity;
    }

    method RemoveBox(boxI: nat)
      requires Counted() && boxI < |store| && store[boxI].Some?
      modifies this`store, this`actualUsage
      ensures Counted() && store == old(store)[boxI := None] && actualUsage == old(actualUsage) - 1
    {
      InUseUpdate(store, boxI, None);
      store := store[boxI := None];
      actualUsage := actualUsage - 1;
    }

    /** The boxes in use with their access times. */
    method AccessTimes() returns (s: seq<AccessTime>)
      requires Counted()
      ensures Lists(s, store, atimes)
    {
      s := [];
      for i := 0 to |store|
        invariant |s| == InUse(store[..i]) && NoDuplicates(s)
        invariant forall t :: t in s <==> t.index < i && store[t.index].Some? && t.atime == atimes[t.index]
      {
        assert store[..i + 1][..i] == store[..i];
        if store[i] != None {
          s := s + [AccessTime(i, atimes[i])];
        }
      }
      assert store[..|store|] == store;
    }

    method SortedAccessTimes() returns (tATA: array<AccessTime>)
      requires Counted()
      ensures fresh(tATA) && Lists(tATA[..], store, atimes)
      ensures forall i, j | 0 <= i < j < tATA.Length :: tATA[i].atime <= tATA[j].atime
    {
      var s := AccessTimes();
      tATA := new AccessTime[|s|](i requires 0 <= i < |s| => s[i]);
      assert tATA[..] == s;
      var key := (t: AccessTime) => t.atime as real;
      Sort(tATA, key);
      PermutationOf(tATA[..], s);
      forall i, j | 0 <= i < j < tATA.Length
        ensures tATA[i].atime <= tATA[j].atime
      {
        assert key(tATA[..][i]) <= key(tATA[..][j]);
      }
    }

    /** Throws the oldest boxes away until the capacity is met. */
    method Trim()
      requires Counted()
      modifies this`store, this`actualUsage
      ensures Counted() && Evicts(old(store), store, atimes)
      ensures actualUsage == if old(actualUsage) <= capacity then old(actualUsage) else capacity
    {
      if actualUsage <= capacity {
        return;
      }
      var tATA := SortedAccessTimes();
      ghost var s, was := tATA[..], store;
      ListedIndices(s, was, atimes);
      var deficit := actualUsage - capacity;
      for i := 0 to deficit
        invariant Counted() && tATA[..] == s && actualUsage == old(actualUsage) - i
        invariant store == Without(was, s, i)
      {
        WithoutNext(was, atimes, s, i);
        RemoveBox(tATA[i].index);
      }
      OldestGo(was, atimes, s, deficit);
    }

    /** The new box itself may be thrown away again. */
    method AddBox(p: seq<byte>, boxI: nat, now: int)
      requires Counted() && boxI < |store| && store[boxI] == None
      modifies this`store, this`atimes, this`actualUsage
      ensures Counted() && atimes == old(atimes)[boxI := now]
      ensures Evicts(old(store)[boxI := Some(p)], store, atimes)
      ensures actualUsage == if old(actualUsage) + 1 <= capacity then old(actualUsage) + 1 else capacity
    {
      InUseUpdate(store, boxI, Some(p));
      store := store[boxI := Some(p)];
      atimes := atimes[boxI := now];
      actualUsage := actualUsage + 1;
      Trim();
    }

    /** A box that is right for the new content, and evictions, keep the cache coherent. */
    lemma EvictedCoherent(before: seq<Box>, flat: seq<byte>)
      requires Evicts(before, store, atimes)
      requires forall i | 0 <= i < |before| && before[i].Some? :: before[i].value == BoxSlice(flat, pieceSize, i)
      ensures Coherent(flat)
    {
    }

    lemma FetchedBox(boxI: nat, length: nat, buffer: seq<byte>)
      requires Valid() && boxI < |store| && BoxStart(pieceSize, boxI) + length <= torrentLength
      requires length == Min(pieceSize, torrentLength - BoxStart(pieceSize, boxI))
      requires buffer == PaddedRead(underlying.contents, BoxStart(pieceSize, boxI), length)
      ensures buffer == BoxSlice(underlying.contents, pieceSize, boxI)
    {
    }

    /** A box read from the store; the last one may be smaller. */
    method Fetch(boxI: nat) returns (buffer: seq<byte>)
      requires Valid() && boxI < |store|
      ensures buffer == BoxSlice(underlying.contents, pieceSize, boxI)
      ensures Valid()
    {
      hide InUse, BoxesCover, Counted;
      NextBox(boxI);
      var bufferOffset := BoxStart(pieceSize, boxI);
      var bufferLength := Min(pieceSize, torrentLength - bufferOffset);
      var b := new byte[bufferLength];
      var _ := underlying.ReadAt(b, 0, bufferLength, bufferOffset);
      buffer := b[..];
      FetchedBox(boxI, bufferLength, buffer);
    }

    /** The bytes of one box, from the cache or from the store. */
    method GetBox(boxI: nat, now: int) returns (buffer: seq<byte>)
      requires Valid() && boxI < |store|
      modifies this`store, this`atimes, this`actualUsage
      ensures Valid() && buffer == BoxSlice(underlying.contents, pieceSize, boxI) && |store| == |old(store)|
      ensures atimes == old(atimes)[boxI := now]
      ensures forall i | i in Boxes() :: i in old(Boxes()) || i == boxI
      ensures old(actualUsage) <= capacity ==> actualUsage <= capacity
    {
      if store[boxI].Some? {
        buffer := store[boxI].value;
        atimes := atimes[boxI := now];
      } else {
        buffer := Fetch(boxI);
        ghost var before := store[boxI := Some(buffer)];
        AddBox(buffer, boxI, now);
        EvictedCoherent(before, underlying.contents);
      }
    }

    /** copy(p[at:], buffer[boxOff:]), n bytes of it. */
    method CopyOut(p: array<byte>, at: nat, buffer: seq<byte>, boxOff: nat, n: nat, ghost before: seq<byte>)
      requires Valid() && at + n <= p.Length && boxOff + n <= |buffer| && p !in underlying.Arrays() && p[..] == before
      modifies p
      ensures Valid() && p[..] == Splice(before, at, buffer[boxOff..boxOff + n])
    {
      forall j | 0 <= j < n {
        p[at + j] := buffer[boxOff + j];
      }
      assert underlying.Valid() by {
        underlying.UntouchedHolds(p);
      }
    }

    /** Part of a box, as part of the flat content, and where it ends. */
    lemma BoxPart(boxI: nat, boxOff: nat, n: nat)
      requires Valid() && boxI < |store|
      requires boxOff + n <= |BoxSlice(underlying.contents, pieceSize, boxI)|
      ensures var from := BoxStart(pieceSize, boxI) + boxOff;
              from + n <= torrentLength
              && BoxSlice(underlying.contents, pieceSize, boxI)[boxOff..boxOff + n]
                 == underlying.contents[from..from + n]
    {
      var start := BoxStart(pieceSize, boxI);
      SubSlice(underlying.contents, start, Min(start + pieceSize, torrentLength) - start, boxOff, n);
    }

    /** The position `at` is in box boxI at boxOff, or past the last box. */
    ghost predicate AtBox(boxI: nat, boxOff: nat, at: nat)
      reads this
    {
      || (at == BoxStart(pieceSize, boxI) + boxOff && boxOff < pieceSize)
      || (boxI >= |store| && at >= torrentLength)
    }

    lemma NextBox(boxI: nat)
      requires Valid() && boxI < |store|
      ensures var start, length := BoxStart(pieceSize, boxI), |BoxSlice(underlying.contents, pieceSize, boxI)|;
              && start < torrentLength && start + length <= torrentLength && length <= pieceSize
              && (length < pieceSize ==> start + length == torrentLength && boxI + 1 >= |store|)
              && BoxStart(pieceSize, boxI + 1) == start + pieceSize
    {
      assert BoxStart(pieceSize, boxI + 1) == BoxStart(pieceSize, boxI) + pieceSize;
    }

    /** One turn of the read loop. */
    method ReadBox(p: array<byte>, lo: nat, hi: nat, off: nat, i: nat, boxI: nat, boxOff: nat, now: int,
                   ghost was: seq<byte>)
      returns (ok: bool, m: nat)
      requires Valid() && p !in underlying.Arrays() && lo + i < hi <= p.Length == |was|
      requires AtBox(boxI, boxOff, off + i)
      requires p[..] == ReadInto(was, lo, underlying.contents, off, i)
      modifies p, this`store, this`atimes, this`actualUsage
      ensures Valid() && |store| == |old(store)|
      ensures forall b | b in Boxes() ::
        b in old(Boxes()) || (b == boxI && off + i == BoxStart(pieceSize, boxI) + boxOff && boxOff < pieceSize)
      ensures old(actualUsage) <= capacity ==> actualUsage <= capacity
      ensures |atimes| == |old(atimes)| && atimes == if boxI < |store| then old(atimes)[boxI := now] else old(atimes)
      ensures !ok ==> off + (hi - lo) > torrentLength && boxI + 1 >= |store|
      ensures ok ==> off + m <= BoxStart(pieceSize, boxI + 1)
      ensures ok ==> boxI < |store| && i <= m <= hi - lo && off + m <= torrentLength
      ensures ok ==> (lo + m < hi ==> AtBox(boxI + 1, 0, off + m))
      ensures ok ==> p[..] == ReadInto(was, lo, underlying.contents, off, m)
    {
      m := i;
      if boxI >= |store| {
        assert BoxStart(pieceSize, boxI) >= torrentLength;
        return false, i;
      }
      NextBox(boxI);
      var buffer := GetBox(boxI, now);
      if boxOff > |buffer| {
        return false, i;
      }
      ok := true;
      m := CopyBox(p, lo, hi, off, i, boxI, boxOff, buffer, was);
    }

    /** copy(p[i:], buffer[boxOff:]) */
    method CopyBox(p: array<byte>, lo: nat, hi: nat, off: nat, i: nat, boxI: nat, boxOff: nat, buffer: seq<byte>,
                   ghost was: seq<byte>)
      returns (m: nat)
      requires Valid() && p !in underlying.Arrays() && lo + i < hi <= p.Length == |was|
      requires boxI < |store| && buffer == BoxSlice(underlying.contents, pieceSize, boxI) && boxOff <= |buffer|
      requires off + i == BoxStart(pieceSize, boxI) + boxOff
      requires p[..] == ReadInto(was, lo, underlying.contents, off, i)
      modifies p
      ensures Valid()
      ensures i <= m <= hi - lo && off + m <= torrentLength && off + m <= BoxStart(pieceSize, boxI + 1)
      ensures lo + m < hi ==> AtBox(boxI + 1, 0, off + m)
      ensures p[..] == ReadInto(was, lo, underlying.contents, off, m)
    {
      NextBox(boxI);
      var n := Min(hi - lo - i, |buffer| - boxOff);
      BoxPart(boxI, boxOff, n);
      m := i + n;
      CopyOut(p, lo + i, buffer, boxOff, n, ReadInto(was, lo, underlying.contents, off, i));
      ReadExtends(p[..], was, lo, underlying.contents, off, i, buffer[boxOff..boxOff + n]);
    }

    lemma ReadNothing(was: seq<byte>, lo: nat, a: seq<byte>, off: nat)
      requires lo <= |was|
      ensures ReadInto(was, lo, a, off, 0) == was
    {
    }

    /** A range of n bytes meets the box. */
    ghost predicate Meets(b: nat, off: nat, n: nat) {
      n > 0 && BoxStart(pieceSize, b) < off + n && off < BoxStart(pieceSize, b) + pieceSize
    }

    lemma MeetsMeans(off: nat, n: nat)
      ensures forall b: nat | Meets(b, off, n) ::
        BoxStart(pieceSize, b) < off + n && off < BoxStart(pieceSize, b) + pieceSize
    {
    }

    lemma ValidSize()
      requires Valid()
      ensures pieceSize >= 1 && |atimes| == |store| && |underlying.contents| == torrentLength
    {
    }

    lemma FirstBox(off: nat)
      requires pieceSize >= 1
      ensures AtBox(off / pieceSize, off % pieceSize, off)
    {
    }

    lemma AtBoxMeets(boxI: nat, boxOff: nat, off: nat, i: nat, n: nat)
      requires Valid() && AtBox(boxI, boxOff, off + i) && i < n
      ensures boxI < |atimes| ==> Meets(boxI, off, n)
      ensures off + i == BoxStart(pieceSize, boxI) + boxOff && boxOff < pieceSize ==> Meets(boxI, off, n)
    {
    }

    /** The boxes before `end` that the range meets have been used now, and no others. */
    ghost predicate Touched(before: seq<int>, after: seq<int>, end: nat, off: nat, n: nat, now: int) {
      && |after| == |before|
      && forall b: nat | b < |after| :: after[b] == if b < end && Meets(b, off, n) then now else before[b]
    }

    lemma TouchedNone(before: seq<int>, off: nat, n: nat, now: int)
      requires pieceSize >= 1
      ensures Touched(before, before, off / pieceSize, off, n, now)
    {
      forall b: nat | b < off / pieceSize
        ensures !Meets(b, off, n)
      {
        MulMonotone(b + 1, off / pieceSize, pieceSize);
      }
    }

    lemma TouchedNext(before: seq<int>, after: seq<int>, end: nat, off: nat, n: nat, now: int)
      requires Touched(before, after, end, off, n, now)
      requires end < |after| ==> Meets(end, off, n)
      ensures Touched(before, if end < |after| then after[end := now] else after, end + 1, off, n, now)
    {
    }

    lemma TouchedAll(before: seq<int>, after: seq<int>, end: nat, off: nat, n: nat, now: int)
      requires Touched(before, after, end, off, n, now)
      requires n == 0 || end >= |after| || off + n <= BoxStart(pieceSize, end)
      ensures Touched(before, after, |after|, off, n, now)
    {
      forall b: nat | end <= b < |after|
        ensures !Meets(b, off, n)
      {
        if n > 0 {
          MulMonotone(end, b, pieceSize);
        }
      }
    }

    /** A read within the torrent returns what the store holds. Any other read runs out of boxes and panics,
        whereas the store itself pads with zeros. Only boxes that the range meets are added, and exactly these have been
        used now. */
    method ReadAt(p: array<byte>, lo: nat, hi: nat, off: nat, now: int) returns (ok: bool)
      requires Valid() && lo <= hi <= p.Length && p !in underlying.Arrays()
      modifies p, this`store, this`atimes, this`actualUsage
      ensures Valid()
      ensures ok <==> lo == hi || off + (hi - lo) <= torrentLength
      ensures ok ==> p[..] == ReadInto(old(p[..]), lo, underlying.contents, off, hi - lo)
      ensures forall b | b in Boxes() :: b in old(Boxes())
                || (BoxStart(pieceSize, b) < off + (hi - lo) && off < BoxStart(pieceSize, b) + pieceSize)
      ensures Touched(old(atimes), atimes, |atimes|, off, hi - lo, now)
      ensures old(actualUsage) <= capacity ==> actualUsage <= capacity
    {
      hide Touched, ReadInto, AtBox, BoxStart, Meets, Valid;
      ValidSize();
      MeetsMeans(off, hi - lo);
      FirstBox(off);
      var boxI: nat, boxOff: nat := off / pieceSize, off % pieceSize;
      TouchedNone(atimes, off, hi - lo, now);
      var i: nat := 0;
      ghost var was := p[..];
      ReadNothing(was, lo, underlying.contents, off);
      ok := true;
      while i < hi - lo
        invariant i <= hi - lo && Valid() && |store| == |old(store)|
        invariant i > 0 ==> off + i <= torrentLength && off + i <= BoxStart(pieceSize, boxI)
        invariant Touched(old(atimes), atimes, boxI, off, hi - lo, now)
        invariant lo + i < hi ==> AtBox(boxI, boxOff, off + i)
        invariant p[..] == ReadInto(was, lo, underlying.contents, off, i)
        invariant forall b | b in Boxes() :: b in old(Boxes()) || Meets(b, off, hi - lo)
        invariant old(actualUsage) <= capacity ==> actualUsage <= capacity
        decreases |store| - boxI
      {
        ValidSize();
        AtBoxMeets(boxI, boxOff, off, i, hi - lo);
        TouchedNext(old(atimes), atimes, boxI, off, hi - lo, now);
        ok, i := ReadBox(p, lo, hi, off, i, boxI, boxOff, now, was);
        ValidSize();
        if !ok {
          TouchedAll(old(atimes), atimes, boxI + 1, off, hi - lo, now);
          return;
        }
        boxI, boxOff := boxI + 1, 0;
      }
      TouchedAll(old(atimes), atimes, boxI, off, hi - lo, now);
    }

    /** A box that is there already stops the write; otherwise the piece is cached and written through. */
    method WritePiece(p: seq<byte>, boxI: nat, now: int) returns (n: nat, ok: bool)
      requires Valid() && boxI < |store| && |p| == |BoxSlice(underlying.contents, pieceSize, boxI)|
      modifies this`store, this`atimes, this`actualUsage, underlying.Arrays(), underlying`contents
      ensures Valid() && ok
      ensures old(boxI in Boxes()) ==>
                n == 0 && underlying.contents == old(underlying.contents) && Boxes() == old(Boxes())
      ensures |atimes| == |old(atimes)|
      ensures atimes == if old(boxI in Boxes()) then old(atimes) else old(atimes)[boxI := now]
      ensures old(boxI !in Boxes()) ==>
        && n == |p| && underlying.contents == Overlay(old(underlying.contents), BoxStart(pieceSize, boxI), p)
        && forall b | b in Boxes() :: b == boxI || b in old(Boxes())
      ensures old(actualUsage) <= capacity ==> actualUsage <= capacity
    {
      if store[boxI] != None {
        return 0, true;
      }
      NextBox(boxI);
      ghost var before := store[boxI := Some(p)];
      AddBox(p, boxI, now);
      n, ok := underlying.WritePiece(p, boxI);
      forall i | 0 <= i < |before| && before[i].Some?
        ensures before[i].value == BoxSlice(underlying.contents, pieceSize, i)
      {
        BoxAfterWrite(old(underlying.contents), pieceSize, boxI, p, i);
      }
      EvictedCoherent(before, underlying.contents);
    }
  }
}
