/** Loading a torrent: the numbers derived from its sizes, the pieces that are there already, and the accounting. */
module SessionLoad {
  import opened Arith
  import opened Bytes
  import opened Geometry
  import opened SessionState
  import opened SessionInvariant
  import Bitsets
  import Files
  import Hashing

  const UNLIMITED_PIECES: nat := 2147483640
  const MEBIBYTE: nat := 1048576
  const TWO_TO_THE_62: int := 0x4000_0000_0000_0000

  datatype LoadError = BadPieceLength | WrongHashCount | MalformedResume

  datatype Loaded =
    | Ready(t: Torrent, maxActive: int, pieceSet: set<nat>, goodPieces: nat, left: nat)
    | Failed(error: LoadError)

  /** What is left of an integer in a signed 64-bit variable. */
  function Int64(x: int): (r: int)
    ensures -TWO_TO_THE_63 <= r < TWO_TO_THE_63
  {
    (x + TWO_TO_THE_63) % TWO_TO_THE_64 - TWO_TO_THE_63
  }

  /** Division that truncates towards zero. */
  function Quot(x: int, d: nat): int
    requires d >= 1
  {
    if x >= 0 then x / d else -(-x / d)
  }

  /** How many pieces may be downloaded at the same time; memory is in MiB, and unlimited if negative. */
  function Limit(memoryPerTorrent: int, pieceLength: nat): int
    requires pieceLength >= 1
  {
    if memoryPerTorrent < 0 then UNLIMITED_PIECES
    else
      var n := Quot(Int64(memoryPerTorrent * MEBIBYTE), pieceLength);
      if n == 0 then 1 else n
  }

  method MaxActivePieces(memoryPerTorrent: int, pieceLength: nat) returns (n: int)
    requires pieceLength >= 1
    ensures n == Limit(memoryPerTorrent, pieceLength)
    ensures memoryPerTorrent >= 0 ==> WithinMemory(n, memoryPerTorrent, pieceLength)
    ensures memoryPerTorrent >= 0 && memoryPerTorrent * MEBIBYTE < TWO_TO_THE_63 ==>
              LargestWithin(n, memoryPerTorrent, pieceLength)
  {
    if memoryPerTorrent < 0 {
      return UNLIMITED_PIECES;
    }
    hide Int64, LargestWithinBytes;
    n := Quot(Int64(memoryPerTorrent * MEBIBYTE), pieceLength);
    if n == 0 {
      n := n + 1;
    }
    LimitWithin(memoryPerTorrent, pieceLength);
    Int64Wraps(memoryPerTorrent * MEBIBYTE);
    if memoryPerTorrent * MEBIBYTE < TWO_TO_THE_63 {
      FitsMemory(memoryPerTorrent * MEBIBYTE, pieceLength);
    }
  }

  /** So many full pieces fit into the memory, or there is at most one. */
  ghost predicate WithinMemory(n: int, memory: nat, pieceLength: nat) {
    n <= 1 || n * pieceLength <= memory * MEBIBYTE
  }

  /** The largest number of full pieces that fits into so many bytes, but at least one. */
  ghost predicate LargestWithinBytes(n: int, bytes: nat, pieceLength: nat) {
    n >= 1 && (n > 1 ==> n * pieceLength <= bytes) && (n + 1) * pieceLength > bytes
  }

  ghost predicate LargestWithin(n: int, memory: nat, pieceLength: nat) {
    LargestWithinBytes(n, memory * MEBIBYTE, pieceLength)
  }

  lemma NextMultiple(n: int, d: nat)
    ensures (n + 1) * d == n * d + d
  {
  }

  lemma Int64Wraps(x: nat)
    ensures Int64(x) <= x
    ensures x < TWO_TO_THE_63 ==> Int64(x) == x
    ensures x >= TWO_TO_THE_63 ==> Int64(x) <= x - TWO_TO_THE_64
  {
  }

  /** The memory is never exceeded: a number of bytes that wraps around gives fewer pieces, if any. */
  lemma LimitWithin(memory: nat, pieceLength: nat)
    requires pieceLength >= 1
    ensures WithinMemory(Limit(memory, pieceLength), memory, pieceLength)
  {
    hide Int64;
    Int64Wraps(memory * MEBIBYTE);
    QuotWithin(Int64(memory * MEBIBYTE), pieceLength);
  }

  /** Truncation never rounds up above zero. */
  lemma QuotWithin(x: int, d: nat)
    requires d >= 1
    ensures Quot(x, d) >= 1 ==> Quot(x, d) * d <= x
    ensures Quot(x, d) < 0 <==> -x >= d
    ensures Quot(x, d) >= 1 <==> x >= d
  {
    if x >= 0 {
      Divides(x, d);
    } else {
      Divides(-x, d);
    }
  }

  lemma Divides(x: nat, d: nat)
    requires d >= 1
    ensures x / d * d <= x && (x / d >= 1 <==> x >= d)
  {
    assert x == x / d * d + x % d;
    if x / d >= 1 {
      MulAtLeast(x / d, d);
    }
  }

  lemma FitsMemory(bytes: nat, pieceLength: nat)
    requires pieceLength >= 1
    ensures LargestWithinBytes(if bytes / pieceLength == 0 then 1 else bytes / pieceLength, bytes, pieceLength)
  {
    var n := bytes / pieceLength;
    assert bytes == n * pieceLength + bytes % pieceLength;
    NextMultiple(n, pieceLength);
  }

  /** A number of bytes that wraps around gives too few pieces, or a negative number of them. */
  lemma WrappedMemory(bytes: nat, pieceLength: nat)
    requires 1 <= pieceLength < TWO_TO_THE_62 && bytes >= TWO_TO_THE_63
    ensures var n := Quot(Int64(bytes), pieceLength);
            !LargestWithinBytes(if n == 0 then 1 else n, bytes, pieceLength)
  {
    hide Int64, Quot;
    var n := Quot(Int64(bytes), pieceLength);
    Int64Wraps(bytes);
    QuotWithin(Int64(bytes), pieceLength);
    if n >= 1 {
      NextMultiple(n, pieceLength);
    }
  }

  /** The limit is the largest number of pieces that fits if and only if the number of bytes fits into 63 bits, and it
      lets no piece at all be downloaded if and only if what is left of that number is at most minus one piece. */
  lemma LimitIsLargest(memory: nat, pieceLength: nat)
    requires 1 <= pieceLength < TWO_TO_THE_62
    ensures LargestWithin(Limit(memory, pieceLength), memory, pieceLength) <==> memory * MEBIBYTE < TWO_TO_THE_63
    ensures Limit(memory, pieceLength) < 1 <==> -Int64(memory * MEBIBYTE) >= pieceLength
  {
    hide Int64, LargestWithinBytes;
    var bytes := memory * MEBIBYTE;
    Int64Wraps(bytes);
    QuotWithin(Int64(bytes), pieceLength);
    if bytes < TWO_TO_THE_63 {
      FitsMemory(bytes, pieceLength);
    } else {
      WrappedMemory(bytes, pieceLength);
    }
  }

  method Sizes(totalSize: nat, pieceLength: nat) returns (totalPieces: nat, lastPieceLength: nat)
    requires pieceLength >= 1
    ensures totalPieces == PieceCount(totalSize, pieceLength) && lastPieceLength == LastLength(totalSize, pieceLength)
  {
    totalPieces := totalSize / pieceLength;
    lastPieceLength := totalSize % pieceLength;
    if lastPieceLength == 0 {
      lastPieceLength := pieceLength;
    } else {
      totalPieces := totalPieces + 1;
    }
  }

  /** Counts the pieces that a resume file names; nothing if the file is malformed. */
  method Resume(n: nat, data: seq<byte>) returns (bits: Bitsets.Bitset?, good: nat)
    ensures bits == null <==> Bitsets.Decode(n, data) == None
    ensures bits != null ==>
      && fresh(bits) && bits.Valid() && bits.n == n
      && Some(bits.Elems()) == Bitsets.Decode(n, data) && good == |bits.Elems()|
  {
    good := 0;
    bits := Bitsets.Bitset.FromBytes(n, data);
    if bits != null {
      good := CountSet(bits);
    }
  }

  method CountSet(bits: Bitsets.Bitset) returns (good: nat)
    requires bits.Valid()
    ensures good == |bits.Elems()|
  {
    good := 0;
    ghost var elems, counted: set<nat> := bits.Elems(), {};
    for i := 0 to bits.n
      invariant good == |counted| && forall k: nat :: k in counted <==> k < i && k in elems
    {
      var isSet := bits.IsSet(i);
      if isSet {
        good := good + 1;
        counted := counted + {i};
      }
    }
    assert counted == elems;
  }

  /** The bytes that are missing, in unsigned 64-bit arithmetic. */
  method BytesLeft(t: Torrent, bits: Bitsets.Bitset, goodPieces: nat) returns (left: nat)
    requires t.Valid() && bits.Valid() && bits.n == t.totalPieces && goodPieces == |bits.Elems()|
    requires t.totalSize < TWO_TO_THE_63 && t.pieceLength < TWO_TO_THE_63
    ensures left == t.SumLengths(t.Missing(bits.Elems()), t.totalPieces) && left <= t.totalSize
  {
    var lastIsHere := bits.IsSet(t.totalPieces - 1);
    left := LeftOf(t, bits.Elems(), goodPieces, lastIsHere);
  }

  method LeftOf(t: Torrent, ghost s: set<nat>, goodPieces: nat, lastIsHere: bool) returns (left: nat)
    requires t.Valid() && s <= t.AllPieces() && goodPieces == |s| && (lastIsHere <==> t.totalPieces - 1 in s)
    requires t.totalSize < TWO_TO_THE_63 && t.pieceLength < TWO_TO_THE_63
    ensures left == t.SumLengths(t.Missing(s), t.totalPieces) && left <= t.totalSize
  {
    MissingBytes(t, s);
    var bad := t.totalPieces - goodPieces;
    left := bad * t.pieceLength % TWO_TO_THE_64;
    if !lastIsHere {
      left := (left - t.pieceLength + t.lastPieceLength) % TWO_TO_THE_64;
    }
  }

  /** None of the two operations wraps around. */
  lemma MissingBytes(t: Torrent, s: set<nat>)
    requires t.Valid() && s <= t.AllPieces() && t.totalSize < TWO_TO_THE_63 && t.pieceLength < TWO_TO_THE_63
    ensures |s| <= t.totalPieces && t.totalPieces >= 1
    ensures var all, missing := (t.totalPieces - |s|) * t.pieceLength, t.SumLengths(t.Missing(s), t.totalPieces);
            && missing <= t.totalSize && all % TWO_TO_THE_64 == all
            && (t.totalPieces - 1 in s ==> missing == all)
            && (t.totalPieces - 1 !in s ==> (all - t.pieceLength + t.lastPieceLength) % TWO_TO_THE_64 == missing)
  {
    t.SumMissingClosedForm(s);
    t.HeldPlusMissing(s);
    var all, missing := (t.totalPieces - |s|) * t.pieceLength, t.SumLengths(t.Missing(s), t.totalPieces);
    NoWrap(all, missing, t.totalSize, t.pieceLength, t.lastPieceLength, t.totalPieces - 1 in s);
  }

  lemma NoWrap(all: nat, missing: nat, totalSize: nat, pieceLength: nat, last: nat, lastIsHere: bool)
    requires totalSize < TWO_TO_THE_63 && pieceLength < TWO_TO_THE_63 && last <= pieceLength && missing <= totalSize
    requires missing == all - if lastIsHere then 0 else pieceLength - last
    ensures all % TWO_TO_THE_64 == all && missing % TWO_TO_THE_64 == missing
  {
  }

  /** The pieces that a resume file names, if it is well-formed. */
  ghost function ResumedSet(t: Torrent, data: seq<byte>): set<nat> {
    match Bitsets.Decode(t.totalPieces, data)
    case Some(elems) => elems
    case None => {}
  }

  /** The pieces that are there: found by hashing, told by a resume file, or none. */
  method Present(fs: Files.FileStore, t: Torrent, initialCheck: bool, resume: Option<seq<byte>>, workers: nat)
    returns (error: Option<LoadError>, bits: Bitsets.Bitset, goodPieces: nat)
    requires fs.Valid() && t.Valid() && |fs.contents| == t.totalSize && workers >= 1
    ensures error == if initialCheck
                     then (if |t.pieces| != t.totalPieces * SHA1_SIZE then Some(WrongHashCount) else None)
                     else if resume.Some? && Bitsets.Decode(t.totalPieces, resume.value) == None
                     then Some(MalformedResume) else None
    ensures error == None ==> bits.Valid() && bits.n == t.totalPieces && goodPieces == |bits.Elems()|
    ensures error == None && initialCheck ==> Hashing.GoodPieces(t, fs.contents, bits.Elems(), t.totalPieces)
    ensures error == None && !initialCheck ==>
              bits.Elems() == if resume == None then {} else ResumedSet(t, resume.value)
  {
    error, goodPieces := None, 0;
    if initialCheck {
      var ok, bad;
      ok, goodPieces, bad, bits := Hashing.CheckPieces(fs, t, workers);
      if !ok {
        error := Some(WrongHashCount);
      }
      return;
    }
    bits := new Bitsets.Bitset(t.totalPieces);
    if resume.Some? {
      var resumed, good := Resume(t.totalPieces, resume.value);
      if resumed == null {
        return Some(MalformedResume), bits, 0;
      }
      bits, goodPieces := resumed, good;
    }
  }

  /** What load makes of the files and the options: which options fail and how, and what is ready otherwise. The pieces
      that are there are exactly those with the right hash after an initial check, else those of the resume file. */
  ghost predicate Loads(flat: seq<byte>, pieceLength: nat, pieces: seq<byte>, sha1: Hash, memoryPerTorrent: int,
                        initialCheck: bool, resume: Option<seq<byte>>, r: Loaded)
    requires |flat| >= 1
  {
    if pieceLength == 0 then r == Failed(BadPieceLength)
    else
      var n := PieceCount(|flat|, pieceLength);
      if initialCheck && |pieces| != n * SHA1_SIZE then r == Failed(WrongHashCount)
      else if !initialCheck && resume.Some? && Bitsets.Decode(n, resume.value) == None then
        r == Failed(MalformedResume)
      else
        && r.Ready?
        && r.t == Torrent(pieceLength, |flat|, n, LastLength(|flat|, pieceLength), pieces, sha1) && r.t.Valid()
        && r.maxActive == Limit(memoryPerTorrent, pieceLength)
        && Accounting(r.t, r.pieceSet, r.goodPieces, r.left)
        && (if initialCheck then Hashing.GoodPieces(r.t, flat, r.pieceSet, n)
            else r.pieceSet == if resume == None then {} else ResumedSet(r.t, resume.value))
  }

  lemma LoadsReady(flat: seq<byte>, pieceLength: nat, pieces: seq<byte>, sha1: Hash, memoryPerTorrent: int,
                   initialCheck: bool, resume: Option<seq<byte>>, r: Loaded)
    requires |flat| >= 1 && r.Ready?
    requires Loads(flat, pieceLength, pieces, sha1, memoryPerTorrent, initialCheck, resume, r)
    ensures pieceLength >= 1 && r.t.Valid() && r.t.totalSize == |flat| && r.t.pieceLength == pieceLength
    ensures r.t.totalPieces == PieceCount(|flat|, pieceLength) && r.t.pieces == pieces && r.t.sha1 == sha1
    ensures r.maxActive == Limit(memoryPerTorrent, pieceLength)
    ensures Accounting(r.t, r.pieceSet, r.goodPieces, r.left)
    ensures initialCheck ==> Hashing.GoodPieces(r.t, flat, r.pieceSet, r.t.totalPieces)
  {
    hide Accounting, Hashing.GoodPieces, PieceCount, LastLength, Limit, Bitsets.Decode, ResumedSet, Torrent.Valid;
  }

  /** Without an initial check a well-formed resume file says which pieces are there. */
  lemma LoadsResumed(flat: seq<byte>, pieceLength: nat, pieces: seq<byte>, sha1: Hash, memoryPerTorrent: int,
                     data: seq<byte>, elems: set<nat>, r: Loaded)
    requires |flat| >= 1 && pieceLength >= 1
    requires Bitsets.Decode(PieceCount(|flat|, pieceLength), data) == Some(elems)
    requires Loads(flat, pieceLength, pieces, sha1, memoryPerTorrent, false, Some(data), r)
    ensures r.Ready? && r.pieceSet == elems && Accounting(r.t, r.pieceSet, r.goodPieces, r.left)
    ensures r.t == Torrent(pieceLength, |flat|, PieceCount(|flat|, pieceLength), LastLength(|flat|, pieceLength),
                           pieces, sha1)
  {
    hide Accounting, PieceCount, LastLength, Limit, Bitsets.Decode, Torrent.Valid;
  }

  /** load, once the files are open: their sizes add up to `totalSize`. */
  method Load(fs: Files.FileStore, pieceLength: nat, pieces: seq<byte>, sha1: Hash, memoryPerTorrent: int,
              initialCheck: bool, resume: Option<seq<byte>>, workers: nat)
    returns (r: Loaded)
    requires fs.Valid() && workers >= 1 && |fs.contents| < TWO_TO_THE_63 && pieceLength < TWO_TO_THE_63
    requires |fs.contents| >= 1
    ensures Loads(fs.contents, pieceLength, pieces, sha1, memoryPerTorrent, initialCheck, resume, r)
  {
    if pieceLength == 0 {
      return Failed(BadPieceLength);
    }
    hide Accounting, Hashing.GoodPieces, PieceCount, LastLength, Limit, Bitsets.Decode, ResumedSet, Torrent.Valid;
    hide WithinMemory, LargestWithin;
    var t := MakeTorrent(fs, pieceLength, pieces, sha1);
    var maxActive := MaxActivePieces(memoryPerTorrent, pieceLength);
    var error, bits, goodPieces := Present(fs, t, initialCheck, resume, workers);
    if error.Some? {
      return Failed(error.value);
    }
    var left := BytesLeft(t, bits, goodPieces);
    var elems := Bitsets.SetOf(bits);
    IsAccounted(t, elems, goodPieces, left);
    r := Ready(t, maxActive, elems, goodPieces, left);
  }

  method MakeTorrent(fs: Files.FileStore, pieceLength: nat, pieces: seq<byte>, sha1: Hash) returns (t: Torrent)
    requires fs.Valid() && |fs.contents| >= 1 && pieceLength >= 1
    ensures t.Valid() && t.totalSize == |fs.contents| && t.totalPieces == PieceCount(|fs.contents|, pieceLength)
    ensures t.pieceLength == pieceLength && t.pieces == pieces && t.sha1 == sha1
    ensures t.lastPieceLength == LastLength(|fs.contents|, pieceLength)
  {
    var size := StoreSize(fs);
    var totalPieces, lastPieceLength := Sizes(size, pieceLength);
    Tiling(size, pieceLength);
    t := Torrent(pieceLength, size, totalPieces, lastPieceLength, pieces, sha1);
  }

  lemma IsAccounted(t: Torrent, pieceSet: set<nat>, goodPieces: nat, left: nat)
    requires t.Valid() && (forall i | i in pieceSet :: i < t.totalPieces) && goodPieces == |pieceSet|
    requires left == t.SumLengths(t.Missing(pieceSet), t.totalPieces)
    ensures Accounting(t, pieceSet, goodPieces, left)
  {
  }

  /** The sum of the lengths of the files. */
  method StoreSize(fs: Files.FileStore) returns (size: nat)
    requires fs.Valid()
    ensures size == |fs.contents|
  {
    var n := |fs.files| - 1;
    size := fs.offsets[n] + fs.files[n].length;
  }
}
