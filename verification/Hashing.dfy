/** Hashing all pieces in parallel: a producer, any number of workers, and a merger, connected by channels. */
module Hashing {
  import opened Arith
  import opened Bytes
  import opened Files
  import opened Geometry
  import Bitsets

  const RESULTS_CAPACITY: nat := 3

  datatype Chunk = Chunk(i: nat, data: seq<byte>)

  /** A worker waits for a piece, holds one, or has left its loop because the channel is closed. */
  datatype Worker = Waiting | Holding(piece: Chunk) | Exited

  /** All goroutines and channels of one computation. The channel of pieces has no buffer, so a piece goes from the
      producer straight to a waiting worker. */
  datatype System = System(
    next: nat, closed: bool, workers: seq<Worker>, results: seq<Chunk>, merged: nat, sums: seq<byte>)

  datatype Action =
    | Hand(worker: nat)  // the producer sends the next piece to a waiting worker
    | Close              // the producer has sent all pieces
    | Emit(worker: nat)  // a worker sends the hash of its piece
    | Exit(worker: nat)  // a waiting worker sees the closed channel
    | Merge              // the merger takes the oldest result

  // ---- The pieces ----

  /** What the producer reads for piece i. */
  function PieceData(t: Torrent, flat: seq<byte>, i: nat): seq<byte> {
    PaddedRead(flat, t.Start(i), t.PieceLength(i))
  }

  function PieceHash(t: Torrent, flat: seq<byte>, i: nat): (h: seq<byte>)
    ensures |h| == SHA1_SIZE
  {
    t.sha1(PieceData(t, flat, i))
  }

  /** The hashes in order: what a single loop would compute. */
  function SequentialSums(t: Torrent, flat: seq<byte>, n: nat): (sums: seq<byte>)
    ensures |sums| == n * SHA1_SIZE
  {
    if n == 0 then [] else SequentialSums(t, flat, n - 1) + PieceHash(t, flat, n - 1)
  }

  function Entry(sums: seq<byte>, i: nat): seq<byte>
    requires (i + 1) * SHA1_SIZE <= |sums|
  {
    sums[i * SHA1_SIZE..(i + 1) * SHA1_SIZE]
  }

  // ---- The steps ----

  function Initial(t: Torrent, workers: nat): System {
    System(0, false, seq(workers, _ => Waiting), [], 0, Zeros(SHA1_SIZE * t.totalPieces))
  }

  predicate Enabled(t: Torrent, s: System, a: Action) {
    match a
    case Hand(w) => s.next < t.totalPieces && w < |s.workers| && s.workers[w].Waiting?
    case Close => s.next == t.totalPieces && !s.closed
    case Emit(w) => w < |s.workers| && s.workers[w].Holding? && |s.results| < RESULTS_CAPACITY
    case Exit(w) => s.closed && w < |s.workers| && s.workers[w].Waiting?
    case Merge => s.results != [] && s.merged < t.totalPieces
  }

  /** copy(sums[at:], data) */
  function CopyInto(sums: seq<byte>, at: nat, data: seq<byte>): seq<byte> {
    Overlay(sums, at, data)
  }

  function Next(t: Torrent, flat: seq<byte>, s: System, a: Action): System
    requires Enabled(t, s, a)
  {
    match a
    case Hand(w) =>
      s.(next := s.next + 1, workers := s.workers[w := Holding(Chunk(s.next, PieceData(t, flat, s.next)))])
    case Close => s.(closed := true)
    case Emit(w) =>
      var piece := s.workers[w].piece;
      s.(workers := s.workers[w := Waiting], results := s.results + [Chunk(piece.i, t.sha1(piece.data))])
    case Exit(w) => s.(workers := s.workers[w := Exited])
    case Merge =>
      var h := s.results[0];
      s.(results := s.results[1..], merged := s.merged + 1, sums := CopyInto(s.sums, h.i * SHA1_SIZE, h.data))
  }

  /** computeSums has returned and every goroutine it started has ended. */
  predicate Final(t: Torrent, s: System) {
    s.merged == t.totalPieces && s.closed && forall w | 0 <= w < |s.workers| :: s.workers[w].Exited?
  }

  // ---- The invariant ----

  function Busy(workers: seq<Worker>): nat {
    if workers == [] then 0
    else Busy(workers[..|workers| - 1]) + if workers[|workers| - 1].Holding? then 1 else 0
  }

  function Left(workers: seq<Worker>): nat {
    if workers == [] then 0
    else Left(workers[..|workers| - 1]) + if workers[|workers| - 1].Exited? then 0 else 1
  }

  lemma {:induction false} WorkerChanges(workers: seq<Worker>, w: nat, x: Worker)
    requires w < |workers|
    ensures Busy(workers[w := x])
         == Busy(workers) - (if workers[w].Holding? then 1 else 0) + (if x.Holding? then 1 else 0)
    ensures Left(workers[w := x])
         == Left(workers) - (if workers[w].Exited? then 0 else 1) + (if x.Exited? then 0 else 1)
  {
    var n := |workers| - 1;
    if w < n {
      WorkerChanges(workers[..n], w, x);
      assert workers[w := x][..n] == workers[..n][w := x];
    } else {
      assert workers[w := x][..n] == workers[..n];
    }
  }

  lemma {:induction false} NobodyBusy(workers: seq<Worker>)
    requires Busy(workers) == 0
    ensures forall w | 0 <= w < |workers| :: !workers[w].Holding?
  {
    if workers != [] {
      NobodyBusy(workers[..|workers| - 1]);
    }
  }

  lemma {:induction false} SomebodyBusy(workers: seq<Worker>)
    requires Busy(workers) > 0
    ensures exists w: nat :: w < |workers| && workers[w].Holding?
  {
    if !workers[|workers| - 1].Holding? {
      SomebodyBusy(workers[..|workers| - 1]);
      var w: nat :| w < |workers| - 1 && workers[..|workers| - 1][w].Holding?;
      assert workers[w].Holding?;
    }
  }

  /** The hash of piece i has been merged. */
  ghost predicate Merged(t: Torrent, flat: seq<byte>, sums: seq<byte>, i: nat)
    requires |sums| == SHA1_SIZE * t.totalPieces && i < t.totalPieces
  {
    Entry(sums, i) == PieceHash(t, flat, i)
  }

  ghost predicate AtWorker(t: Torrent, flat: seq<byte>, workers: seq<Worker>, i: nat) {
    exists w: nat :: w < |workers| && workers[w] == Holding(Chunk(i, PieceData(t, flat, i)))
  }

  ghost predicate Covered(t: Torrent, flat: seq<byte>, workers: seq<Worker>, results: seq<Chunk>, sums: seq<byte>,
                          i: nat)
    requires |sums| == SHA1_SIZE * t.totalPieces && i < t.totalPieces
  {
    || AtWorker(t, flat, workers, i)
    || Chunk(i, PieceHash(t, flat, i)) in results
    || Merged(t, flat, sums, i)
  }

  /** Every piece handed out is at a worker, among the results, or merged, and none is counted twice. */
  ghost predicate Inv(t: Torrent, flat: seq<byte>, s: System) {
    && s.next <= t.totalPieces
    && s.next == Busy(s.workers) + |s.results| + s.merged
    && (s.closed ==> s.next == t.totalPieces)
    && ((exists w: nat :: w < |s.workers| && s.workers[w].Exited?) ==> s.closed)
    && |s.results| <= RESULTS_CAPACITY
    && |s.sums| == SHA1_SIZE * t.totalPieces
    && (forall w: nat | w < |s.workers| && s.workers[w].Holding? ::
         s.workers[w].piece.i < s.next && s.workers[w].piece.data == PieceData(t, flat, s.workers[w].piece.i))
    && (forall k | 0 <= k < |s.results| ::
         s.results[k].i < s.next && s.results[k].data == PieceHash(t, flat, s.results[k].i))
    && forall i: nat | i < s.next :: Covered(t, flat, s.workers, s.results, s.sums, i)
  }

  /** A copy of 20 bytes changes one entry. */
  lemma EntryAfterCopy(t: Torrent, sums: seq<byte>, j: nat, data: seq<byte>, i: nat)
    requires |sums| == SHA1_SIZE * t.totalPieces && |data| == SHA1_SIZE && i < t.totalPieces && j < t.totalPieces
    ensures Entry(CopyInto(sums, j * SHA1_SIZE, data), i) == if i == j then data else Entry(sums, i)
  {
  }

  lemma InitialInv(t: Torrent, flat: seq<byte>, workers: nat)
    ensures Inv(t, flat, Initial(t, workers))
    ensures Busy(Initial(t, workers).workers) == 0 && Left(Initial(t, workers).workers) == workers
  {
    AllWaiting(seq(workers, _ => Waiting));
  }

  lemma {:induction false} AllWaiting(workers: seq<Worker>)
    requires forall w | 0 <= w < |workers| :: workers[w].Waiting?
    ensures Busy(workers) == 0 && Left(workers) == |workers|
  {
    if workers != [] {
      AllWaiting(workers[..|workers| - 1]);
    }
  }

  /** Whichever goroutine moves, the invariant holds and the measure goes down. */
  lemma StepKeeps(t: Torrent, flat: seq<byte>, s: System, a: Action)
    requires Inv(t, flat, s) && Enabled(t, s, a)
    ensures Inv(t, flat, Next(t, flat, s, a))
    ensures Measure(t, Next(t, flat, s, a)) < Measure(t, s)
  {
    match a
    case Hand(w) => HandKeeps(t, flat, s, w);
    case Close =>
    case Emit(w) => EmitKeeps(t, flat, s, w);
    case Exit(w) => ExitKeeps(t, flat, s, w);
    case Merge => MergeKeeps(t, flat, s);
  }

  /** Three steps for a piece that was not handed out, two while it is at a worker, one while it is among the results,
      one for closing the channel, and one for each worker that has not left. */
  function Measure(t: Torrent, s: System): int {
    3 * (t.totalPieces - s.next) + 2 * Busy(s.workers) + |s.results| + (if s.closed then 0 else 1) + Left(s.workers)
  }

  lemma HandKeeps(t: Torrent, flat: seq<byte>, s: System, w: nat)
    requires Inv(t, flat, s) && Enabled(t, s, Hand(w))
    ensures Inv(t, flat, Next(t, flat, s, Hand(w))) && Measure(t, Next(t, flat, s, Hand(w))) < Measure(t, s)
  {
    var s' := Next(t, flat, s, Hand(w));
    WorkerChanges(s.workers, w, s'.workers[w]);
    forall i: nat | i < s'.next
      ensures Covered(t, flat, s'.workers, s'.results, s'.sums, i)
    {
      assert i < s.next ==> Covered(t, flat, s.workers, s.results, s.sums, i);
      if i == s.next {
        assert s'.workers[w] == Holding(Chunk(i, PieceData(t, flat, i)));
      } else if AtWorker(t, flat, s.workers, i) {
        var v: nat :| v < |s.workers| && s.workers[v] == Holding(Chunk(i, PieceData(t, flat, i)));
        assert s'.workers[v] == s.workers[v];
      }
    }
  }

  lemma EmitKeeps(t: Torrent, flat: seq<byte>, s: System, w: nat)
    requires Inv(t, flat, s) && Enabled(t, s, Emit(w))
    ensures Inv(t, flat, Next(t, flat, s, Emit(w))) && Measure(t, Next(t, flat, s, Emit(w))) < Measure(t, s)
  {
    var s' := Next(t, flat, s, Emit(w));
    WorkerChanges(s.workers, w, Waiting);
    forall i: nat | i < s'.next
      ensures Covered(t, flat, s'.workers, s'.results, s'.sums, i)
    {
      assert Covered(t, flat, s.workers, s.results, s.sums, i);
      if AtWorker(t, flat, s.workers, i) {
        var v: nat :| v < |s.workers| && s.workers[v] == Holding(Chunk(i, PieceData(t, flat, i)));
        if v == w {
          assert s'.results[|s.results|] == Chunk(i, PieceHash(t, flat, i));
        } else {
          assert s'.workers[v] == s.workers[v];
        }
      }
    }
  }

  lemma ExitKeeps(t: Torrent, flat: seq<byte>, s: System, w: nat)
    requires Inv(t, flat, s) && Enabled(t, s, Exit(w))
    ensures Inv(t, flat, Next(t, flat, s, Exit(w))) && Measure(t, Next(t, flat, s, Exit(w))) < Measure(t, s)
  {
    var s' := Next(t, flat, s, Exit(w));
    WorkerChanges(s.workers, w, Exited);
    forall i: nat | i < s'.next
      ensures Covered(t, flat, s'.workers, s'.results, s'.sums, i)
    {
      assert Covered(t, flat, s.workers, s.results, s.sums, i);
      if AtWorker(t, flat, s.workers, i) {
        var v: nat :| v < |s.workers| && s.workers[v] == Holding(Chunk(i, PieceData(t, flat, i)));
        assert s'.workers[v] == s.workers[v];
      }
    }
  }

  lemma MergeKeeps(t: Torrent, flat: seq<byte>, s: System)
    requires Inv(t, flat, s) && Enabled(t, s, Merge)
    ensures Inv(t, flat, Next(t, flat, s, Merge)) && Measure(t, Next(t, flat, s, Merge)) < Measure(t, s)
  {
    var s' := Next(t, flat, s, Merge);
    forall i: nat | i < s'.next
      ensures Covered(t, flat, s'.workers, s'.results, s'.sums, i)
    {
      MergeCovers(t, flat, s, i);
    }
  }

  lemma MergeCovers(t: Torrent, flat: seq<byte>, s: System, i: nat)
    requires |s.sums| == SHA1_SIZE * t.totalPieces && i < t.totalPieces
    requires Covered(t, flat, s.workers, s.results, s.sums, i)
    requires Enabled(t, s, Merge) && s.results[0].i < t.totalPieces
    requires s.results[0].data == PieceHash(t, flat, s.results[0].i)
    ensures var s' := Next(t, flat, s, Merge);
            Covered(t, flat, s'.workers, s'.results, s'.sums, i)
  {
    var s' := Next(t, flat, s, Merge);
    var h := s.results[0];
    EntryAfterCopy(t, s.sums, h.i, h.data, i);
    if Chunk(i, PieceHash(t, flat, i)) in s.results && i != h.i {
      var k :| 0 <= k < |s.results| && s.results[k] == Chunk(i, PieceHash(t, flat, i));
      assert s'.results[k - 1] == s.results[k];
    }
  }

  // ---- What every interleaving ends with ----

  /** As long as computeSums has not returned, or a goroutine it started has not ended, some goroutine can move. */
  lemma NeverStuck(t: Torrent, flat: seq<byte>, s: System)
    requires Inv(t, flat, s) && s.workers != [] && !Final(t, s)
    ensures exists a :: Enabled(t, s, a)
  {
    if s.results != [] {
      assert Enabled(t, s, Merge);
    } else if Busy(s.workers) > 0 {
      SomebodyBusy(s.workers);
      var w: nat :| w < |s.workers| && s.workers[w].Holding?;
      assert Enabled(t, s, Emit(w));
    } else {
      NobodyBusy(s.workers);
      if s.next < t.totalPieces {
        assert !s.workers[0].Exited?;
        assert Enabled(t, s, Hand(0));
      } else if !s.closed {
        assert Enabled(t, s, Close);
      } else {
        var w: nat :| w < |s.workers| && !s.workers[w].Exited?;
        assert Enabled(t, s, Exit(w));
      }
    }
  }

  lemma {:induction false} EntriesInOrder(t: Torrent, flat: seq<byte>, sums: seq<byte>, n: nat)
    requires |sums| == SHA1_SIZE * t.totalPieces && n <= t.totalPieces
    requires forall i: nat | i < n :: Merged(t, flat, sums, i)
    ensures n * SHA1_SIZE <= |sums| && sums[..n * SHA1_SIZE] == SequentialSums(t, flat, n)
  {
    if n == 0 {
    } else {
      EntriesInOrder(t, flat, sums, n - 1);
      assert Merged(t, flat, sums, n - 1);
      assert sums[..n * SHA1_SIZE] == sums[..(n - 1) * SHA1_SIZE] + Entry(sums, n - 1);
    }
  }

  /** When the merger has taken as many results as there are pieces, the sums are those of a single loop. */
  lemma MergedIsSequential(t: Torrent, flat: seq<byte>, s: System)
    requires Inv(t, flat, s) && s.merged == t.totalPieces
    ensures s.sums == SequentialSums(t, flat, t.totalPieces)
  {
    NobodyBusy(s.workers);
    forall i: nat | i < t.totalPieces
      ensures Merged(t, flat, s.sums, i)
    {
      assert Covered(t, flat, s.workers, s.results, s.sums, i) && !AtWorker(t, flat, s.workers, i);
    }
    EntriesInOrder(t, flat, s.sums, t.totalPieces);
    assert s.sums[..t.totalPieces * SHA1_SIZE] == s.sums;
  }

  ghost predicate Reaches(t: Torrent, flat: seq<byte>, s: System, actions: seq<Action>, s': System)
    decreases |actions|
  {
    if actions == [] then s == s'
    else Enabled(t, s, actions[0]) && Reaches(t, flat, Next(t, flat, s, actions[0]), actions[1..], s')
  }

  lemma {:induction false} RunKeeps(t: Torrent, flat: seq<byte>, s: System, actions: seq<Action>, s': System)
    requires Inv(t, flat, s) && Reaches(t, flat, s, actions, s')
    ensures Inv(t, flat, s') && |s'.workers| == |s.workers|
    ensures Measure(t, s') + |actions| <= Measure(t, s)
    decreases |actions|
  {
    if actions == [] {
    } else {
      StepKeeps(t, flat, s, actions[0]);
      RunKeeps(t, flat, Next(t, flat, s, actions[0]), actions[1..], s');
    }
  }

  /** For any number of workers from one on and every interleaving: a run takes at most 3n + 1 + workers steps,
      can go on until everything has ended, and whenever the merger is done the sums are the sequential ones. */
  lemma EveryInterleaving(t: Torrent, flat: seq<byte>, workers: nat, actions: seq<Action>, s: System)
    requires workers >= 1 && Reaches(t, flat, Initial(t, workers), actions, s)
    ensures |actions| <= 3 * t.totalPieces + 1 + workers
    ensures Final(t, s) || exists a :: Enabled(t, s, a)
    ensures s.merged == t.totalPieces ==> s.sums == SequentialSums(t, flat, t.totalPieces)
  {
    InitialInv(t, flat, workers);
    RunKeeps(t, flat, Initial(t, workers), actions, s);
    if !Final(t, s) {
      NeverStuck(t, flat, s);
    }
    if s.merged == t.totalPieces {
      MergedIsSequential(t, flat, s);
    }
  }

  lemma {:induction false} SequentialEntry(t: Torrent, flat: seq<byte>, n: nat, i: nat)
    requires i < n
    ensures Entry(SequentialSums(t, flat, n), i) == PieceHash(t, flat, i)
  {
    var before, last := SequentialSums(t, flat, n - 1), PieceHash(t, flat, n - 1);
    if i < n - 1 {
      SequentialEntry(t, flat, n - 1, i);
      EntryOfConcat(before, last, i);
    } else {
      assert (before + last)[|before|..|before| + SHA1_SIZE] == last;
    }
  }

  lemma EntryOfConcat(x: seq<byte>, y: seq<byte>, i: nat)
    requires (i + 1) * SHA1_SIZE <= |x|
    ensures Entry(x + y, i) == Entry(x, i)
  {
  }

  // ---- The program ----

  /** One goroutine moves; the producer reads its piece from the file store. */
  method Turn(fs: FileStore, t: Torrent, s: System, a: Action) returns (s': System)
    requires fs.Valid() && Enabled(t, s, a)
    ensures s' == Next(t, fs.contents, s, a)
  {
    match a {
      case Hand(w) =>
        var length := t.PieceLength(s.next);
        var piece := new byte[length];
        var _ := fs.ReadAt(piece, 0, length, t.Start(s.next));
        assert piece[..] == PieceData(t, fs.contents, s.next);
        s' := s.(next := s.next + 1, workers := s.workers[w := Holding(Chunk(s.next, piece[..]))]);
      case Close =>
        s' := s.(closed := true);
      case Emit(w) =>
        var piece := s.workers[w].piece;
        s' := s.(workers := s.workers[w := Waiting], results := s.results + [Chunk(piece.i, t.sha1(piece.data))]);
      case Exit(w) =>
        s' := s.(workers := s.workers[w := Exited]);
      case Merge =>
        var h := s.results[0];
        s' := s.(results := s.results[1..], merged := s.merged + 1, sums := CopyInto(s.sums, h.i * SHA1_SIZE, h.data));
    }
  }

  /** The scheduler lets any goroutine move that can, until the merger returns. */
  method ComputeSums(fs: FileStore, t: Torrent, workers: nat) returns (sums: seq<byte>)
    requires fs.Valid() && workers >= 1
    ensures sums == SequentialSums(t, fs.contents, t.totalPieces)
  {
    InitialInv(t, fs.contents, workers);
    var s := Initial(t, workers);
    while s.merged < t.totalPieces
      invariant Inv(t, fs.contents, s) && s.workers != []
      decreases Measure(t, s)
    {
      NeverStuck(t, fs.contents, s);
      var a :| Enabled(t, s, a);
      StepKeeps(t, fs.contents, s, a);
      s := Turn(fs, t, s, a);
    }
    MergedIsSequential(t, fs.contents, s);
    sums := s.sums;
  }

  method CheckEqual(ref: seq<byte>, current: seq<byte>) returns (equal: bool)
    requires |ref| == |current|
    ensures equal <==> ref == current
  {
    for i := 0 to |current|
      invariant forall k | 0 <= k < i :: ref[k] == current[k]
    {
      if ref[i] != current[i] {
        return false;
      }
    }
    return true;
  }

  /** checkPiece: does the piece have the hash that the torrent gives for it? If the torrent gives none, the slice
      of the reference hashes is out of range and the program panics. */
  method CheckPiece(piece: seq<byte>, t: Torrent, pieceIndex: nat) returns (panicked: bool, good: bool)
    ensures panicked <==> !t.HasHash(pieceIndex)
    ensures !panicked ==> (good <==> t.Good(piece, pieceIndex))
  {
    var currentSum := t.sha1(piece);
    var base := pieceIndex * SHA1_SIZE;
    var end := base + SHA1_SIZE;
    if end > |t.pieces| {
      return true, false;
    }
    panicked := false;
    good := CheckEqual(t.pieces[base..end], currentSum);
  }

  ghost predicate GoodPieces(t: Torrent, flat: seq<byte>, elems: set<nat>, n: nat)
    requires t.Valid() && |flat| == t.totalSize && n <= t.totalPieces
  {
    forall i: nat :: i in elems <==> i < n && t.Good(t.Slice(flat, i), i)
  }

  lemma OneMorePiece(t: Torrent, flat: seq<byte>, elems: set<nat>, i: nat, equal: bool)
    requires t.Valid() && |flat| == t.totalSize && i < t.totalPieces
    requires GoodPieces(t, flat, elems, i) && (equal <==> t.Good(t.Slice(flat, i), i))
    ensures i !in elems
    ensures GoodPieces(t, flat, if equal then elems + {i} else elems, i + 1)
  {
  }

  lemma PieceDataIsSlice(t: Torrent, flat: seq<byte>, i: nat)
    requires t.Valid() && |flat| == t.totalSize && i < t.totalPieces
    ensures PieceData(t, flat, i) == t.Slice(flat, i)
  {
    t.PieceBounds(i);
  }

  /** Compares one entry of the computed sums with the reference. */
  method CheckEntry(t: Torrent, currentSums: seq<byte>, i: nat, ghost flat: seq<byte>) returns (equal: bool)
    requires t.Valid() && |t.pieces| == t.totalPieces * SHA1_SIZE && |flat| == t.totalSize && i < t.totalPieces
    requires currentSums == SequentialSums(t, flat, t.totalPieces)
    ensures equal <==> t.Good(t.Slice(flat, i), i)
  {
    SequentialEntry(t, flat, t.totalPieces, i);
    PieceDataIsSlice(t, flat, i);
    MulMonotone(i + 1, t.totalPieces, SHA1_SIZE);
    var base := i * SHA1_SIZE;
    equal := CheckEqual(t.pieces[base..base + SHA1_SIZE], currentSums[base..base + SHA1_SIZE]);
  }

  /** checkPieces: exactly the pieces whose stored content has the right hash are marked and counted. */
  method CheckPieces(fs: FileStore, t: Torrent, workers: nat)
    returns (ok: bool, good: nat, bad: nat, goodBits: Bitsets.Bitset)
    requires fs.Valid() && t.Valid() && |fs.contents| == t.totalSize && workers >= 1
    ensures ok <==> |t.pieces| == t.totalPieces * SHA1_SIZE
    ensures fresh(goodBits) && goodBits.Valid() && goodBits.n == t.totalPieces
    ensures ok ==> GoodPieces(t, fs.contents, goodBits.Elems(), t.totalPieces)
    ensures ok ==> good == |goodBits.Elems()| && good + bad == t.totalPieces
  {
    good, bad := 0, 0;
    goodBits := new Bitsets.Bitset(t.totalPieces);
    if |t.pieces| != t.totalPieces * SHA1_SIZE {
      return false, good, bad, goodBits;
    }
    ok := true;
    var currentSums := ComputeSums(fs, t, workers);
    ghost var flat, elems := fs.contents, goodBits.Elems();
    for i := 0 to t.totalPieces
      invariant fresh(goodBits.b) && goodBits.Valid() && goodBits.n == t.totalPieces
      invariant elems == goodBits.Elems() && GoodPieces(t, flat, elems, i)
      invariant good == |elems| && good + bad == i
    {
      var equal := CheckEntry(t, currentSums, i, flat);
      OneMorePiece(t, flat, elems, i, equal);
      elems := if equal then elems + {i} else elems;
      if equal {
        good := good + 1;
        goodBits.Set(i);
      } else {
        bad := bad + 1;
      }
    }
  }
}
