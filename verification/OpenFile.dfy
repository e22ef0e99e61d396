/** Open files: nachos64/code/filesys/openfile.cc. Byte ranges are read and written through whole sectors. */
module OpenFiles {
  import opened Bytes
  import opened Storage
  import opened FileHeaders

  /** How many of `numBytes` bytes at `position` lie inside a file of `length` bytes. */
  function Clamp(numBytes: int, position: int, length: int): (n: nat)
    ensures n > 0 ==> position + n <= length
    ensures n > 0 && 0 <= position ==> n <= numBytes
  {
    if numBytes <= 0 || position >= length then 0
    else if position + numBytes > length then length - position
    else numBytes
  }

  /** The `n` bytes of `s` at `position`; none when the window is empty, wherever it is. */
  function Window(s: seq<byte>, position: int, n: nat): (w: seq<byte>)
    requires n > 0 ==> 0 <= position && position + n <= |s|
    ensures |w| == n
  {
    if n == 0 then [] else s[position..position + n]
  }

  /** The file after `data` is written at `position`. */
  function Overwrite(s: seq<byte>, position: int, data: seq<byte>): (r: seq<byte>)
    requires |data| > 0 ==> 0 <= position && position + |data| <= |s|
    ensures |r| == |s|
  {
    if data == [] then s else Splice(s, position, data)
  }

  // Sequential use of an open file

  /** The file after one Write of `data` at `position`, cut off at the end of the file. */
  function Written(s: seq<byte>, position: nat, data: seq<byte>): (r: seq<byte>)
    ensures |r| == |s|
  {
    Overwrite(s, position, data[..Clamp(|data|, position, |s|)])
  }

  /** A file after a series of Write calls from `position` on: each moves the position past what it wrote. */
  function WriteEach(s: seq<byte>, position: nat, pieces: seq<seq<byte>>): (r: seq<byte>)
    ensures |r| == |s|
    decreases |pieces|
  {
    if pieces == [] then s
    else WriteEach(Written(s, position, pieces[0]), position + Clamp(|pieces[0]|, position, |s|), pieces[1..])
  }

  /** What one Read of `numBytes` at `position` returns, cut off at the end of the file. */
  function Returned(s: seq<byte>, position: int, numBytes: int): (r: seq<byte>)
    requires numBytes > 0 ==> 0 <= position
    ensures |r| == Clamp(numBytes, position, |s|)
  {
    Window(s, position, Clamp(numBytes, position, |s|))
  }

  /** What a series of Read calls of the given sizes returns, end to end. */
  function ReadEach(s: seq<byte>, position: nat, sizes: seq<nat>): seq<byte>
    decreases |sizes|
  {
    if sizes == [] then []
    else Returned(s, position, sizes[0]) + ReadEach(s, position + Clamp(sizes[0], position, |s|), sizes[1..])
  }

  function Concat(pieces: seq<seq<byte>>): seq<byte> {
    if pieces == [] then [] else pieces[0] + Concat(pieces[1..])
  }

  function Total(sizes: seq<nat>): nat {
    if sizes == [] then 0 else sizes[0] + Total(sizes[1..])
  }

  /** Byte by byte: a write changes the bytes at its positions that the file has, and no others. */
  lemma WrittenAt(s: seq<byte>, position: nat, data: seq<byte>, j: nat)
    requires j < |s|
    ensures Written(s, position, data)[j] == if position <= j < position + |data| then data[j - position] else s[j]
  {
  }

  /** A read returns the bytes at its positions that the file has, as many as there are. */
  lemma ReturnedAt(s: seq<byte>, position: nat, numBytes: nat, k: nat)
    ensures k < |Returned(s, position, numBytes)| <==> k < numBytes && position + k < |s|
    ensures k < |Returned(s, position, numBytes)| ==> Returned(s, position, numBytes)[k] == s[position + k]
  {
  }

  /** Writing in pieces, of whatever sizes, is writing all the bytes at once. */
  lemma {:induction false} WriteEachIsWrite(s: seq<byte>, position: nat, pieces: seq<seq<byte>>)
    ensures WriteEach(s, position, pieces) == Written(s, position, Concat(pieces))
    decreases |pieces|
  {
    if pieces == [] {
      assert Written(s, position, []) == s;
    } else {
      var n := Clamp(|pieces[0]|, position, |s|);
      WriteEachIsWrite(Written(s, position, pieces[0]), position + n, pieces[1..]);
      TwoWrites(s, position, pieces[0], Concat(pieces[1..]));
    }
  }

  lemma TwoWrites(s: seq<byte>, position: nat, a: seq<byte>, b: seq<byte>)
    ensures Written(Written(s, position, a), position + Clamp(|a|, position, |s|), b) == Written(s, position, a + b)
  {
    var n := Clamp(|a|, position, |s|);
    if n < |a| {
      assert (a + b)[..n] == a[..n];
    } else {
      var m := Clamp(|b|, position + n, |s|);
      assert Clamp(|a + b|, position, |s|) == n + m;
      assert (a + b)[..n + m] == a + b[..m];
    }
  }

  /** Reading in pieces returns the bytes that one read of the total size would. */
  lemma {:induction false} ReadEachIsRead(s: seq<byte>, position: nat, sizes: seq<nat>)
    ensures ReadEach(s, position, sizes) == Returned(s, position, Total(sizes))
    decreases |sizes|
  {
    if sizes != [] {
      var next, rest := position + Clamp(sizes[0], position, |s|), sizes[1..];
      var tail := ReadEach(s, next, rest);
      ReadEachIsRead(s, next, rest);
      assert tail == Returned(s, next, Total(rest));
      TwoReads(s, position, sizes[0], Total(rest));
      assert ReadEach(s, position, sizes) == Returned(s, position, sizes[0]) + tail;
    }
  }

  lemma TwoReads(s: seq<byte>, position: nat, a: nat, b: nat)
    ensures Returned(s, position, a) + Returned(s, position + Clamp(a, position, |s|), b)
            == Returned(s, position, a + b)
  {
  }

  /** Bytes written in pieces are read back unchanged in any other pieces that cover them. */
  lemma WrittenThenRead(s: seq<byte>, position: nat, pieces: seq<seq<byte>>, sizes: seq<nat>)
    requires position + |Concat(pieces)| <= |s| && Total(sizes) == |Concat(pieces)|
    ensures ReadEach(WriteEach(s, position, pieces), position, sizes) == Concat(pieces)
  {
    WriteEachIsWrite(s, position, pieces);
    ReadEachIsRead(WriteEach(s, position, pieces), position, sizes);
  }

  /** `buf` holds sectors `first..i` of the file, as far as the file reaches. */
  predicate Holds(contents: seq<byte>, buf: seq<byte>, first: nat, i: nat)
    requires first <= i && (i - first) * SECTOR_SIZE <= |buf|
  {
    forall o | 0 <= o < (i - first) * SECTOR_SIZE && first * SECTOR_SIZE + o < |contents| ::
        buf[o] == contents[first * SECTOR_SIZE + o]
  }

  lemma HoldNext(d: Image, h: Header, buf: seq<byte>, first: nat, i: nat)
    requires Formed(d) && h.Formed() && first <= i < h.numSectors && (i + 1 - first) * SECTOR_SIZE <= |buf|
    requires Holds(FileBytes(d, h), buf, first, i)
    ensures Holds(FileBytes(d, h), Splice(buf, (i - first) * SECTOR_SIZE, d[h.dataSectors[i]]), first, i + 1)
  {
    var contents, next := FileBytes(d, h), Splice(buf, (i - first) * SECTOR_SIZE, d[h.dataSectors[i]]);
    forall o | 0 <= o < (i + 1 - first) * SECTOR_SIZE && first * SECTOR_SIZE + o < |contents|
      ensures next[o] == contents[first * SECTOR_SIZE + o]
    {
      if (i - first) * SECTOR_SIZE <= o {
        var j := first * SECTOR_SIZE + o;
        assert j / SECTOR_SIZE == i && j % SECTOR_SIZE == o - (i - first) * SECTOR_SIZE;
      }
    }
  }

  /** The `k`-th whole sector of a buffer. */
  function Piece(buf: seq<byte>, k: nat): (s: seq<byte>)
    requires (k + 1) * SECTOR_SIZE <= |buf|
    ensures |s| == SECTOR_SIZE
  {
    buf[k * SECTOR_SIZE..(k + 1) * SECTOR_SIZE]
  }

  /** Sectors `first..i` of a file now hold consecutive pieces of `buf`; the rest of the disk is as it was. */
  predicate Stored(before: Image, after: Image, h: Header, buf: seq<byte>, first: nat, i: nat)
    requires h.Formed() && first <= i <= h.numSectors && |buf| >= (i - first) * SECTOR_SIZE
    requires Formed(before) && Formed(after)
  {
    && (forall k | first <= k < i :: after[h.dataSectors[k]] == Piece(buf, k - first))
    && forall s | 0 <= s < NUM_SECTORS && s !in h.dataSectors[first..i] :: after[s] == before[s]
  }

  lemma StoreNext(before: Image, after: Image, h: Header, buf: seq<byte>, first: nat, i: nat)
    requires h.Formed() && h.Distinct() && first <= i < h.numSectors && |buf| >= (i + 1 - first) * SECTOR_SIZE
    requires Formed(before) && Formed(after) && Stored(before, after, h, buf, first, i)
    ensures var next := after[h.dataSectors[i] := Piece(buf, i - first)];
            Formed(next) && Stored(before, next, h, buf, first, i + 1)
  {
    assert h.dataSectors[first..i + 1] == h.dataSectors[first..i] + [h.dataSectors[i]];
  }

  lemma StoredFrame(before: Image, after: Image, h: Header, buf: seq<byte>, first: nat, i: nat)
    requires h.Formed() && first <= i <= h.numSectors && |buf| >= (i - first) * SECTOR_SIZE
    requires Formed(before) && Formed(after) && Stored(before, after, h, buf, first, i)
    ensures forall s | 0 <= s < NUM_SECTORS && !h.Uses(s) :: after[s] == before[s]
  {
  }

  /** The buffer that WriteAt assembles: the new bytes in place, and around them what the file held there. */
  predicate Assembled(contents: seq<byte>, buf: seq<byte>, base: nat, position: nat, data: seq<byte>)
    requires base <= position && position + |data| <= |contents| && position - base + |data| <= |buf|
  {
    forall o | 0 <= o < |buf| && base + o < |contents| ::
      buf[o] == if position <= base + o < position + |data| then data[base + o - position] else contents[base + o]
  }

  /** Storing an assembled buffer splices the new bytes into the flat file. */
  lemma StoredSplice(before: Image, after: Image, h: Header, buf: seq<byte>, first: nat, last: nat, position: nat,
      data: seq<byte>)
    requires Formed(before) && Formed(after) && h.Formed() && h.Distinct()
    requires first <= last < h.numSectors && |buf| == (last + 1 - first) * SECTOR_SIZE
    requires first * SECTOR_SIZE <= position && position + |data| <= (last + 1) * SECTOR_SIZE
             && position + |data| <= h.numBytes
    requires Assembled(FileBytes(before, h), buf, first * SECTOR_SIZE, position, data)
    requires Stored(before, after, h, buf, first, last + 1)
    ensures FileBytes(after, h) == Splice(FileBytes(before, h), position, data)
  {
    var was, now := FileBytes(before, h), FileBytes(after, h);
    forall j | 0 <= j < h.numBytes ensures now[j] == Splice(was, position, data)[j] {
      StoredByte(before, after, h, buf, first, last, j);
    }
  }

  lemma StoredByte(before: Image, after: Image, h: Header, buf: seq<byte>, first: nat, last: nat, j: nat)
    requires Formed(before) && Formed(after) && h.Formed() && h.Distinct() && j < h.numBytes
    requires first <= last < h.numSectors && |buf| == (last + 1 - first) * SECTOR_SIZE
    requires Stored(before, after, h, buf, first, last + 1)
    ensures FileBytes(after, h)[j]
            == if first <= j / SECTOR_SIZE <= last then buf[j - first * SECTOR_SIZE] else FileBytes(before, h)[j]
  {
    var k := j / SECTOR_SIZE;
    if first <= k <= last {
      assert j - first * SECTOR_SIZE == (k - first) * SECTOR_SIZE + j % SECTOR_SIZE;
    } else {
      assert h.dataSectors[k] !in h.dataSectors[first..last + 1];
    }
  }

  /**
   * After the two partial reads and the copy, every byte of the covered sectors outside the write itself is the file's
   * own.
   */
  lemma EndsKept(contents: seq<byte>, one: seq<byte>, two: seq<byte>, position: nat, data: seq<byte>, first: nat,
      last: nat)
    requires data != [] && position + |data| <= |contents|
    requires first == position / SECTOR_SIZE && last == (position + |data| - 1) / SECTOR_SIZE
    requires |one| == |two| == (last + 1 - first) * SECTOR_SIZE
    requires position != first * SECTOR_SIZE ==> Prefix(contents, one, 0, first)
    requires if position + |data| != (last + 1) * SECTOR_SIZE && (first != last || position == first * SECTOR_SIZE)
             then Prefix(contents, two, (last - first) * SECTOR_SIZE, last) &&
                  forall o | 0 <= o < (last - first) * SECTOR_SIZE :: two[o] == one[o]
             else two == one
    ensures Assembled(contents, Splice(two, position - first * SECTOR_SIZE, data), first * SECTOR_SIZE, position, data)
  {
    var base := first * SECTOR_SIZE;
    forall o | 0 <= o < |two| && base + o < |contents| && !(position <= base + o < position + |data|)
      ensures two[o] == contents[base + o]
    {
      if base + o < position {
        assert o < SECTOR_SIZE;
        assert one[o] == contents[base + o];
      } else {
        assert (last - first) * SECTOR_SIZE <= o;
      }
    }
  }

  /** `buf` from `at` on holds sector `k` of the file, as far as the file reaches. */
  predicate Prefix(contents: seq<byte>, buf: seq<byte>, at: nat, k: nat)
    requires at + SECTOR_SIZE <= |buf|
  {
    forall o | at <= o < at + SECTOR_SIZE && k * SECTOR_SIZE + (o - at) < |contents| ::
        buf[o] == contents[k * SECTOR_SIZE + (o - at)]
  }

  class OpenFile {
    const disk: SynchDisk
    const hdr: FileHeader
    var seekPosition: int

    ghost predicate Valid()
      reads this, disk, hdr
    {
      disk.Valid() && hdr.Value().Formed() && hdr.Value().Distinct()
    }

    ghost function Contents(): seq<byte>
      requires Valid()
      reads this, disk, hdr
    {
      FileBytes(disk.sectors, hdr.Value())
    }

    constructor (disk: SynchDisk, sector: int, garbage: Header)
      requires disk.Valid() && 0 <= sector < NUM_SECTORS && Storable(garbage)
      requires HeaderIn(disk.sectors[sector]).Formed() && HeaderIn(disk.sectors[sector]).Distinct()
      ensures Valid() && this.disk == disk && fresh(hdr) && hdr.Value() == HeaderIn(disk.sectors[sector])
      ensures seekPosition == 0
    {
      this.disk := disk;
      hdr := new FileHeader(garbage);
      seekPosition := 0;
      new;
      hdr.FetchFrom(disk, sector);
    }

    method Seek(position: int)
      modifies this`seekPosition
      ensures seekPosition == position
    {
      seekPosition := position;
    }

    method ReadAt(into: array<byte>, at: nat, numBytes: int, position: int) returns (n: int)
      requires Valid() && (numBytes > 0 ==> 0 <= position)
      requires at + Clamp(numBytes, position, hdr.numBytes) <= into.Length
      modifies into
      ensures n == Clamp(numBytes, position, hdr.numBytes)
      ensures into[..] == Splice(old(into[..]), at, Window(Contents(), position, n))
    {
      var fileLength := hdr.FileLength();
      n := numBytes;
      if n <= 0 || position >= fileLength {
        assert into[..] == Splice(into[..], at, []);
        return 0;
      }
      if position + n > fileLength {
        n := fileLength - position;
      }
      ghost var contents := Contents();
      var bytes := Fetch(position, n);
      assert bytes == Window(contents, position, n);
      Copy(bytes, into, at);
      assert Contents() == contents;
    }

    /** The part of ReadAt that reads whole sectors and cuts the bytes asked for out of them. */
    method Fetch(position: nat, n: nat) returns (bytes: seq<byte>)
      requires Valid() && n > 0 && position + n <= hdr.numBytes
      ensures bytes == Contents()[position..position + n]
    {
      var first, last := position / SECTOR_SIZE, (position + n - 1) / SECTOR_SIZE;
      var buf := Load(first, last);
      var start := position - first * SECTOR_SIZE;
      bytes := buf[start..start + n];
    }

    /** The loop of ReadAt: sectors `first` to `last` of the file, whole. */
    method Load(first: nat, last: nat) returns (bytes: seq<byte>)
      requires Valid() && first <= last < hdr.numSectors
      ensures |bytes| == (last + 1 - first) * SECTOR_SIZE && Holds(Contents(), bytes, first, last + 1)
    {
      var buf := new byte[(1 + last - first) * SECTOR_SIZE];
      var i := first;
      while i <= last
        invariant first <= i <= last + 1
        invariant Holds(Contents(), buf[..], first, i)
      {
        assert i * SECTOR_SIZE / SECTOR_SIZE == i;
        var s := hdr.ByteToSector(i * SECTOR_SIZE, disk.sectors);
        HoldNext(disk.sectors, hdr.Value(), buf[..], first, i);
        disk.ReadSector(s, buf, (i - first) * SECTOR_SIZE);
        i := i + 1;
      }
      bytes := buf[..];
    }

    /** Splices the clamped bytes into the file and touches no sector of any other file. */
    method WriteAt(from: seq<byte>, numBytes: int, position: int) returns (n: int)
      requires Valid() && (numBytes > 0 ==> 0 <= position) && Clamp(numBytes, position, hdr.numBytes) <= |from|
      modifies disk
      ensures Valid() && n == Clamp(numBytes, position, hdr.numBytes)
      ensures Contents() == Overwrite(old(Contents()), position, from[..n])
      ensures forall s | 0 <= s < NUM_SECTORS && !hdr.Value().Uses(s) :: disk.sectors[s] == old(disk.sectors)[s]
    {
      var fileLength := hdr.FileLength();
      n := numBytes;
      if n <= 0 || position >= fileLength {
        return 0;
      }
      if position + n > fileLength {
        n := fileLength - position;
      }
      var first, last := position / SECTOR_SIZE, (position + n - 1) / SECTOR_SIZE;
      var buf := Assemble(from[..n], position, first, last);
      ghost var d := disk.sectors;
      Store(buf, first, last);
      StoredSplice(d, disk.sectors, hdr.Value(), buf, first, last, position, from[..n]);
    }

    /** The loop of WriteAt: sectors `first` to `last` of the file are written from consecutive pieces of `buf`. */
    method Store(buf: seq<byte>, first: nat, last: nat)
      requires Valid() && first <= last < hdr.numSectors && |buf| == (last + 1 - first) * SECTOR_SIZE
      modifies disk
      ensures Valid() && Stored(old(disk.sectors), disk.sectors, hdr.Value(), buf, first, last + 1)
      ensures forall s | 0 <= s < NUM_SECTORS && !hdr.Value().Uses(s) :: disk.sectors[s] == old(disk.sectors)[s]
    {
      ghost var d, h := disk.sectors, hdr.Value();
      var i := first;
      while i <= last
        invariant first <= i <= last + 1
        invariant disk.Valid() && hdr.Value() == h && Stored(d, disk.sectors, h, buf, first, i)
      {
        assert i * SECTOR_SIZE / SECTOR_SIZE == i;
        var s := hdr.ByteToSector(i * SECTOR_SIZE, disk.sectors);
        assert s == h.dataSectors[i];
        StoreNext(d, disk.sectors, h, buf, first, i);
        disk.WriteSector(s, Piece(buf, i - first));
        i := i + 1;
      }
      StoredFrame(d, disk.sectors, h, buf, first, last + 1);
    }

    /** Reads what the file holds of its sector `k` into `buf` at `at`. */
    method Fill(buf: array<byte>, at: nat, k: nat)
      requires Valid() && k < hdr.numSectors && at + SECTOR_SIZE <= buf.Length
      modifies buf
      ensures Prefix(Contents(), buf[..], at, k)
      ensures forall o | 0 <= o < buf.Length && !(at <= o < at + SECTOR_SIZE) :: buf[o] == old(buf[o])
    {
      var n := ReadAt(buf, at, SECTOR_SIZE, k * SECTOR_SIZE);
      assert forall o | 0 <= o < buf.Length :: buf[o] == buf[..][o];
    }

    /** Reads the end sectors that a write of `n` bytes covers only in part. `one` is the buffer after the first. */
    method ReadEnds(buf: array<byte>, position: nat, n: nat, first: nat, last: nat) returns (ghost one: seq<byte>)
      requires Valid() && n > 0 && position + n <= hdr.numBytes
      requires first == position / SECTOR_SIZE && last == (position + n - 1) / SECTOR_SIZE
      requires buf.Length == (last + 1 - first) * SECTOR_SIZE
      modifies buf
      ensures |one| == buf.Length && (position != first * SECTOR_SIZE ==> Prefix(Contents(), one, 0, first))
      ensures if position + n != (last + 1) * SECTOR_SIZE && (first != last || position == first * SECTOR_SIZE)
              then Prefix(Contents(), buf[..], (last - first) * SECTOR_SIZE, last) &&
                   forall o | 0 <= o < (last - first) * SECTOR_SIZE :: buf[o] == one[o]
              else buf[..] == one
    {
      var firstAligned := position == first * SECTOR_SIZE;
      var lastAligned := position + n == (last + 1) * SECTOR_SIZE;
      if !firstAligned {
        Fill(buf, 0, first);
      }
      one := buf[..];
      if !lastAligned && (first != last || firstAligned) {
        Fill(buf, (last - first) * SECTOR_SIZE, last);
      }
    }

    /** The first half of WriteAt: reads the partly covered end sectors and copies the new bytes over them. */
    method Assemble(data: seq<byte>, position: nat, first: nat, last: nat) returns (bytes: seq<byte>)
      requires Valid() && |data| > 0 && position + |data| <= hdr.numBytes
      requires first == position / SECTOR_SIZE && last == (position + |data| - 1) / SECTOR_SIZE
      ensures |bytes| == (last + 1 - first) * SECTOR_SIZE
      ensures Assembled(Contents(), bytes, first * SECTOR_SIZE, position, data)
    {
      ghost var contents := Contents();
      var buf := new byte[(1 + last - first) * SECTOR_SIZE];
      ghost var one := ReadEnds(buf, position, |data|, first, last);
      EndsKept(contents, one, buf[..], position, data, first, last);
      Copy(data, buf, position - first * SECTOR_SIZE);
      bytes := buf[..];
    }

    method Read(into: array<byte>, numBytes: int) returns (n: int)
      requires Valid() && (numBytes > 0 ==> 0 <= seekPosition)
      requires Clamp(numBytes, seekPosition, hdr.numBytes) <= into.Length
      modifies into, this`seekPosition
      ensures Valid() && n == Clamp(numBytes, old(seekPosition), hdr.numBytes)
      ensures into[..] == Splice(old(into[..]), 0, Window(Contents(), old(seekPosition), n))
      ensures seekPosition == old(seekPosition) + n
    {
      n := ReadAt(into, 0, numBytes, seekPosition);
      seekPosition := seekPosition + n;
    }

    method Write(from: seq<byte>, numBytes: int) returns (n: int)
      requires Valid() && (numBytes > 0 ==> 0 <= seekPosition)
      requires Clamp(numBytes, seekPosition, hdr.numBytes) <= |from|
      modifies disk, this`seekPosition
      ensures Valid() && n == Clamp(numBytes, old(seekPosition), hdr.numBytes)
      ensures Contents() == Overwrite(old(Contents()), old(seekPosition), from[..n])
      ensures forall s | 0 <= s < NUM_SECTORS && !hdr.Value().Uses(s) :: disk.sectors[s] == old(disk.sectors)[s]
      ensures seekPosition == old(seekPosition) + n
    {
      n := WriteAt(from, numBytes, seekPosition);
      seekPosition := seekPosition + n;
    }
  }
}
