/** RAM files, and the file store that spreads one flat array of bytes over a list of files. */
module Files {
  import opened Arith
  import opened Bytes

  /** A file is a byte array; Go slices of a caller's buffer are given by the buffer and two bounds. */
  class RamFile {
    const data: array<byte>

    constructor Open(length: nat)
      ensures fresh(data) && data.Length == length && data[..] == Zeros(length)
    {
      data := new byte[length](_ => 0);
    }

    method ReadAt(p: array<byte>, lo: nat, hi: nat, off: nat) returns (n: nat)
      requires lo <= hi <= p.Length && off <= data.Length && p != data
      modifies p
      ensures n == Min(hi - lo, data.Length - off)
      ensures p[..] == Splice(old(p[..]), lo, data[off..off + n])
    {
      n := Min(hi - lo, data.Length - off);
      forall i | 0 <= i < n {
        p[lo + i] := data[off + i];
      }
    }

    method WriteAt(p: seq<byte>, off: nat) returns (n: nat)
      requires off <= data.Length
      modifies data
      ensures n == Min(|p|, data.Length - off)
      ensures data[..] == Splice(old(data[..]), off, p[..n])
    {
      n := Min(|p|, data.Length - off);
      forall i | 0 <= i < n {
        data[off + i] := p[i];
      }
    }
  }

  datatype FileEntry = FileEntry(length: nat, file: RamFile)

  /** The i-th file ends no later than the j-th starts. */
  ghost predicate Before(offsets: seq<nat>, files: seq<FileEntry>, i: nat, j: nat)
    requires i < j < |files| == |offsets|
  {
    offsets[i] + files[i].length <= offsets[j]
  }

  ghost predicate Apart(files: seq<FileEntry>, i: nat, j: nat)
    requires i < j < |files|
  {
    files[i].file.data != files[j].file.data
  }

  /** The offsets are the prefix sums of the lengths. */
  ghost predicate PrefixSums(offsets: seq<nat>, files: seq<FileEntry>, total: nat) {
    && |offsets| == |files|
    && (if files == [] then total == 0
        else offsets[0] == 0 && offsets[|files| - 1] + files[|files| - 1].length == total)
    && forall i {:trigger files[i]} | 0 <= i < |files| - 1 :: offsets[i + 1] == offsets[i] + files[i].length
  }

  lemma {:induction false} PrefixSumsAscend(offsets: seq<nat>, files: seq<FileEntry>, total: nat, i: nat, j: nat)
    requires PrefixSums(offsets, files, total) && i < |files| && i <= j <= |files|
    ensures offsets[i] + files[i].length <= total
    ensures i < j < |files| ==> Before(offsets, files, i, j)
    decreases |files| - i
  {
    if i + 1 < |files| {
      PrefixSumsAscend(offsets, files, total, i + 1, if i < j then j else i + 1);
    }
  }

  /** What a write reports: how far it got, and whether it met a non-zero byte past the end. */
  ghost predicate WriteResult(size: nat, off: nat, p: seq<byte>, n: nat, ok: bool) {
    && n <= |p| && (ok <==> n == |p|)
    && (forall i | 0 <= i < n && off + i >= size :: p[i] == 0)
    && (!ok ==> p[n] != 0 && off + n >= size)
  }

  /** A write succeeds exactly when what was written reads back. */
  lemma OkReadsBack(a: seq<byte>, off: nat, p: seq<byte>, n: nat, ok: bool)
    requires WriteResult(|a|, off, p, n, ok)
    ensures ok <==> PaddedRead(Overlay(a, off, p), off, |p|) == p
  {
    ReadBack(a, off, p);
  }

  class FileStore {
    var offsets: seq<nat>
    var files: seq<FileEntry>  // in increasing global offset order
    var pieceSize: nat
    ghost var contents: seq<byte>

    ghost function Arrays(): set<array<byte>>
      reads this
    {
      set i | 0 <= i < |files| :: files[i].file.data
    }

    /** The i-th file holds its part of the flat contents. */
    ghost predicate Holds(i: nat)
      requires i < |files| == |offsets|
      reads this, files[i].file.data
    {
      && offsets[i] + files[i].length <= |contents|
      && files[i].file.data.Length == files[i].length
      && contents[offsets[i]..offsets[i] + files[i].length] == files[i].file.data[..]
    }

    ghost predicate Valid()
      reads this, Arrays()
    {
      && |files| >= 1 && PrefixSums(offsets, files, |contents|)
      && (forall i, j | 0 <= i < j < |files| :: Apart(files, i, j))
      && (forall i | 0 <= i < |files| :: Holds(i))
    }

    /** A torrent without a file list has one file. */
    constructor (lengths: seq<nat>, length: nat, pieceSize: nat)
      ensures Valid() && fresh(Arrays()) && this.pieceSize == pieceSize
      ensures |files| == (if lengths == [] then 1 else |lengths|)
      ensures forall i | 0 <= i < |files| :: files[i].length == if lengths == [] then length else lengths[i]
      ensures contents == Zeros(|contents|)
    {
      this.pieceSize := pieceSize;
      offsets, files, contents := [], [], [];
      new;
      var totalSize := OpenFiles(if lengths == [] then [length] else lengths);
      contents := Zeros(totalSize);
      forall i | 0 <= i < |files|
        ensures Holds(i)
      {
        PrefixSumsAscend(offsets, files, totalSize, i, i);
        assert contents[offsets[i]..offsets[i] + files[i].length] == Zeros(files[i].length);
      }
    }

    method OpenFiles(sources: seq<nat>) returns (totalSize: nat)
      requires files == [] && offsets == []
      modifies this`files, this`offsets
      ensures |files| == |sources| && PrefixSums(offsets, files, totalSize)
      ensures forall k | 0 <= k < |files| :: files[k].length == sources[k] && fresh(files[k].file.data)
      ensures forall k | 0 <= k < |files| :: files[k].file.data[..] == Zeros(files[k].length)
      ensures forall k, l | 0 <= k < l < |files| :: Apart(files, k, l)
    {
      totalSize := 0;
      for i := 0 to |sources|
        invariant |files| == i && PrefixSums(offsets, files, totalSize)
        invariant forall k | 0 <= k < i :: files[k].length == sources[k] && fresh(files[k].file.data)
        invariant forall k | 0 <= k < i :: files[k].file.data[..] == Zeros(files[k].length)
        invariant forall k, l | 0 <= k < l < i :: Apart(files, k, l)
      {
        totalSize := AddFile(totalSize, sources[i]);
      }
    }

    method AddFile(totalSize: nat, length: nat) returns (newTotal: nat)
      requires PrefixSums(offsets, files, totalSize)
      requires forall k, l | 0 <= k < l < |files| :: Apart(files, k, l)
      modifies this`files, this`offsets
      ensures |files| == old(|files|) + 1 && files[..|files| - 1] == old(files) && PrefixSums(offsets, files, newTotal)
      ensures files[|files| - 1].length == length && fresh(files[|files| - 1].file.data)
      ensures files[|files| - 1].file.data[..] == Zeros(length)
      ensures forall k, l | 0 <= k < l < |files| :: Apart(files, k, l)
    {
      var file := new RamFile.Open(length);
      ghost var was := files;
      files := files + [FileEntry(length, file)];
      offsets := offsets + [totalSize];
      newTotal := totalSize + length;
      forall k, l | 0 <= k < l < |files|
        ensures Apart(files, k, l)
      {
        if l < |was| {
          assert Apart(was, k, l);
        }
      }
      forall i | 0 <= i < |files| - 1
        ensures offsets[i + 1] == offsets[i] + files[i].length
      {
        assert files[i] == was[i];
      }
    }

    /** Binary search: the last file that starts at or before the offset. */
    method Find(offset: nat) returns (low: nat)
      requires Valid()
      ensures low < |offsets| && offsets[low] <= offset
      ensures forall j | low < j < |offsets| :: offset < offsets[j]
    {
      low := 0;
      var high := |offsets|;
      while low < high - 1
        invariant 0 <= low < high <= |offsets|
        invariant offsets[low] <= offset
        invariant forall j | high <= j < |offsets| :: offset < offsets[j]
      {
        var probe := (low + high) / 2;
        if offset < offsets[probe] {
          forall j | probe < j < |offsets|
            ensures offset < offsets[j]
          {
            PrefixSumsAscend(offsets, files, |contents|, probe, j);
          }
          high := probe;
        } else {
          low := probe;
        }
      }
    }

    /** The byte at `off` is in file `index`, or in no file from there on. */
    ghost predicate AtFile(index: nat, off: nat)
      requires |offsets| == |files|
      reads this
    {
      if index < |offsets|
      then offsets[index] <= off && (index + 1 < |offsets| ==> off <= offsets[index] + files[index].length)
      else off >= |contents|
    }

    lemma NextFile(index: nat, off: nat)
      requires Valid() && index < |files| && AtFile(index, off) && off >= offsets[index] + files[index].length
      ensures AtFile(index + 1, off)
    {
      assert files[index].length >= 0;
    }

    lemma FoundFile(index: nat, off: nat)
      requires Valid() && index < |offsets| && offsets[index] <= off
      requires forall j | index < j < |offsets| :: off < offsets[j]
      ensures AtFile(index, off)
    {
      assert files[index].length >= 0;
    }

    /** The next k bytes of a read, all of them from one file. */
    method ReadChunk(p: array<byte>, lo: nat, off: nat, n: nat, k: nat, index: nat, ghost was: seq<byte>)
      requires Valid() && p !in Arrays() && lo + n + k <= p.Length == |was|
      requires index < |files| && offsets[index] <= off + n && off + n + k <= offsets[index] + files[index].length
      requires p[..] == ReadInto(was, lo, contents, off, n)
      modifies p
      ensures Valid() && off + n + k <= |contents|
      ensures p[..] == ReadInto(was, lo, contents, off, n + k)
    {
      hide ReadInto, PaddedRead, Splice;
      var itemOffset := off + n - offsets[index];
      var file := files[index].file;
      assert Holds(index);
      assert file.data in Arrays();
      ghost var part := file.data[itemOffset..itemOffset + k];
      assert part == contents[off + n..off + n + k] by {
        SubSlice(contents, offsets[index], files[index].length, itemOffset, k);
      }
      var nThisTime := file.ReadAt(p, lo + n, lo + n + k, itemOffset);
      UntouchedHolds(p);
      ReadExtends(p[..], was, lo, contents, off, n, part);
    }

    twostate lemma UntouchedHolds(p: array<byte>)
      requires old(Valid()) && p !in old(Arrays()) && unchanged(this)
      requires forall a: array<byte> | a in old(Arrays()) :: unchanged(a)
      ensures Valid()
    {
      forall i | 0 <= i < |files|
        ensures Holds(i)
      {
        assert old(Holds(i));
        assert files[i].file.data in old(Arrays());
      }
    }

    /** One turn of the read loop: what file `index` has of the range is copied. */
    method ReadFile(p: array<byte>, lo: nat, hi: nat, off: nat, n: nat, index: nat, ghost was: seq<byte>)
      returns (m: nat)
      requires Valid() && p !in Arrays() && lo + n < hi <= p.Length == |was|
      requires index < |files| && AtFile(index, off + n)
      requires p[..] == ReadInto(was, lo, contents, off, n)
      modifies p
      ensures Valid() && n <= m <= hi - lo && (m > n ==> off + m <= |contents|)
      ensures lo + m < hi ==> AtFile(index + 1, off + m)
      ensures p[..] == ReadInto(was, lo, contents, off, m)
    {
      m := n;
      var itemOffset := off + n - offsets[index];
      var length := files[index].length;
      if itemOffset < length {
        var chunk := Min(hi - (lo + n), length - itemOffset);
        ReadChunk(p, lo, off, n, chunk, index, was);
        m := n + chunk;
      }
      if lo + m < hi {
        NextFile(index, off + m);
      }
    }

    /** Reads past the end give zeros; n counts the bytes that came from files. */
    method ReadAt(p: array<byte>, lo: nat, hi: nat, off: nat) returns (n: nat)
      requires Valid() && lo <= hi <= p.Length && p !in Arrays()
      modifies p
      ensures Valid()
      ensures p[..] == ReadInto(old(p[..]), lo, contents, off, hi - lo)
      ensures n == if off <= |contents| then Min(hi - lo, |contents| - off) else 0
    {
      n := 0;
      var index := Find(off);
      FoundFile(index, off);
      ghost var was := p[..];
      while lo + n < hi && index < |offsets|
        invariant index <= |offsets| && lo + n <= hi && (n > 0 ==> off + n <= |contents|)
        invariant lo + n < hi ==> AtFile(index, off + n)
        invariant p[..] == ReadInto(was, lo, contents, off, n)
        invariant Valid()
        decreases |offsets| - index
      {
        n := ReadFile(p, lo, hi, off, n, index, was);
        index := index + 1;
      }
      ZeroRest(p, lo, hi, off, n, was);
    }

    /** Past the end of the last file the rest of the range is filled with zeros. */
    method ZeroRest(p: array<byte>, lo: nat, hi: nat, off: nat, n: nat, ghost was: seq<byte>)
      requires Valid() && p !in Arrays() && lo + n <= hi <= p.Length == |was|
      requires lo + n < hi ==> off + n >= |contents|
      requires p[..] == ReadInto(was, lo, contents, off, n)
      modifies p
      ensures Valid()
      ensures p[..] == ReadInto(was, lo, contents, off, hi - lo)
    {
      hide ReadInto, PaddedRead, Splice;
      ZeroFill(p, lo + n, hi, ReadInto(was, lo, contents, off, n));
      if lo + n < hi {
        ReadExtends(p[..], was, lo, contents, off, n, Zeros(hi - lo - n));
      }
    }

    method ZeroFill(p: array<byte>, from: nat, to: nat, ghost before: seq<byte>)
      requires p[..] == before && Valid() && from <= to <= p.Length && p !in Arrays()
      modifies p
      ensures Valid()
      ensures p[..] == Splice(before, from, Zeros(to - from))
    {
      for i := from to to
        invariant forall k | 0 <= k < p.Length :: p[k] == if from <= k < i then 0 else before[k]
      {
        p[i] := 0;
      }
      UntouchedHolds(p);
    }

    /** One file is written, and the flat contents follow. */
    method WriteChunk(index: nat, off: nat, chunk: seq<byte>)
      requires Valid() && index < |files|
      requires offsets[index] <= off && off + |chunk| <= offsets[index] + files[index].length
      modifies files[index].file.data, this`contents
      ensures Valid()
      ensures contents == Overlay(old(contents), off, chunk)
    {
      hide Overlay;
      var itemOffset := off - offsets[index];
      assert Holds(index);
      var nThisTime := files[index].file.WriteAt(chunk, itemOffset);
      assert chunk[..nThisTime] == chunk;
      contents := Overlay(contents, off, chunk);
      OverlayWithin(old(contents), offsets[index], files[index].length, itemOffset, chunk);
      assert Holds(index);
      forall i | 0 <= i < |files| && i != index
        ensures Holds(i)
      {
        assert old(Holds(i));
        if i < index {
          assert Apart(files, i, index);
          PrefixSumsAscend(offsets, files, |contents|, i, index);
        } else {
          assert Apart(files, index, i);
          PrefixSumsAscend(offsets, files, |contents|, index, i);
        }
        OverlayElsewhere(old(contents), off, chunk, offsets[i], files[i].length);
      }
    }

    /** One turn of the write loop: what file `index` has of the range is written. */
    method WriteFile(p: seq<byte>, off: nat, n: nat, index: nat, ghost was: seq<byte>) returns (m: nat)
      requires Valid() && n < |p| && index < |files| && AtFile(index, off + n)
      requires contents == Overlay(was, off, p[..n])
      modifies Arrays(), this`contents
      ensures Valid() && n <= m <= |p| && (m > n ==> off + m <= |contents|)
      ensures m < |p| ==> AtFile(index + 1, off + m)
      ensures contents == Overlay(was, off, p[..m])
    {
      m := n;
      var itemOffset := off + n - offsets[index];
      var length := files[index].length;
      if itemOffset < length {
        var chunk := Min(|p| - n, length - itemOffset);
        assert files[index].file.data in Arrays();
        WriteChunk(index, off + n, p[n..n + chunk]);
        WriteExtends(was, off, p, n, chunk);
        PrefixSumsAscend(offsets, files, |contents|, index, index);
        m := n + chunk;
      }
      if m < |p| {
        NextFile(index, off + m);
      }
    }

    /** Writes what fits into the files; it is an error if anything but zeros lies past the end. */
    method WriteFlat(p: seq<byte>, off: nat) returns (n: nat, ok: bool)
      requires Valid()
      modifies Arrays(), this`contents
      ensures Valid()
      ensures contents == Overlay(old(contents), off, p)
      ensures WriteResult(|contents|, off, p, n, ok)
    {
      n := 0;
      var index := Find(off);
      FoundFile(index, off);
      ghost var was := contents;
      while n < |p| && index < |offsets|
        invariant index <= |offsets| && n <= |p| && (n > 0 ==> off + n <= |contents|)
        invariant Valid()
        invariant n < |p| ==> AtFile(index, off + n)
        invariant contents == Overlay(was, off, p[..n])
        decreases |offsets| - index
      {
        n := WriteFile(p, off, n, index, was);
        index := index + 1;
      }
      OverlayRest(was, off, p, n);
      ok := true;
      while n < |p|
        invariant n <= |p|
        invariant n < |p| ==> off + n >= |contents|
        invariant forall i | 0 <= i < n && off + i >= |contents| :: p[i] == 0
      {
        if p[n] != 0 {
          return n, false;
        }
        n := n + 1;
      }
    }

    method WritePiece(p: seq<byte>, piece: nat) returns (n: nat, ok: bool)
      requires Valid()
      modifies Arrays(), this`contents
      ensures Valid()
      ensures contents == Overlay(old(contents), piece * pieceSize, p)
      ensures WriteResult(|contents|, piece * pieceSize, p, n, ok)
    {
      n, ok := WriteFlat(p, piece * pieceSize);
    }
  }
}
