/** The archive reader of inf24-0/main.c: files stored one behind the other in a single stream that is only
    ever moved by relative seeks. */
module FlatArchive {
  import opened Bytes
  import opened Sums

  const BUFFER_LENGTH: nat := 100000

  /** What a `char` holds of the end-of-file mark of `fgetc`. */
  const EOF_BYTE: Byte := 255

  const EISDIR: int := 21
  const EIO: int := 5

  function Min(a: nat, b: nat): nat { if a < b then a else b }

  /** The sum of the sizes of the files before file `i`. */
  function Head(sizes: seq<nat>, i: nat): nat
    requires i <= |sizes|
  {
    if i == 0 then 0 else Head(sizes, i - 1) + sizes[i - 1]
  }

  lemma {:induction false} HeadIsSum(sizes: seq<nat>, i: nat)
    requires i <= |sizes|
    ensures Head(sizes, i) == Sum(sizes[..i])
    ensures i == |sizes| ==> Head(sizes, i) == Sum(sizes)
  {
    if i != 0 {
      HeadIsSum(sizes, i - 1);
      SumPrefix(sizes, i - 1);
    }
    if i == |sizes| {
      assert sizes[..i] == sizes;
    }
  }

  /** The regions of the files follow one another without overlapping. */
  lemma {:induction false} RegionsInOrder(sizes: seq<nat>, i: nat, j: nat)
    requires i < j <= |sizes|
    ensures Head(sizes, i) + sizes[i] <= Head(sizes, j)
    decreases j
  {
    if i < j - 1 {
      RegionsInOrder(sizes, i, j - 1);
    }
  }

  /** The first file called `name`, or the number of files. */
  function Find(names: seq<string>, name: string): (i: nat)
    ensures i <= |names|
    ensures i < |names| ==> names[i] == name
    ensures forall j :: 0 <= j < i ==> names[j] != name
  {
    if names == [] || names[0] == name then 0 else 1 + Find(names[1..], name)
  }

  /** How many bytes a read of `size` bytes at `offset` of a file is to return. */
  function Asked(fileSize: nat, size: nat, offset: nat): nat {
    if fileSize <= offset then 0 else Min(size, fileSize - offset)
  }

  /** How many of `n` bytes at `at` the stream has. */
  function Available(bytes: seq<Byte>, at: nat, n: nat): nat {
    if |bytes| <= at then 0 else Min(n, |bytes| - at)
  }

  /** What `n` calls of `fgetc` give from `at` on: the bytes that there are, then end-of-file marks. */
  function Got(bytes: seq<Byte>, at: nat, n: nat): (r: seq<Byte>)
    ensures |r| == n
    ensures forall k :: 0 <= k < n ==> r[k] == if at + k < |bytes| then bytes[at + k] else 255
  {
    seq(n, k requires 0 <= k => if at + k < |bytes| then bytes[at + k] else EOF_BYTE)
  }

  /** A relative seek; one that would lead before the start of the stream fails and moves nothing. */
  function Seek(pos: nat, delta: int): nat {
    if pos + delta < 0 then pos else pos + delta
  }

  /** Where reading `n` bytes at distance `ahead` and seeking back leaves the stream. */
  function PositionAfter(bytes: seq<Byte>, base: nat, ahead: nat, n: nat): nat {
    Seek(base + ahead + Available(bytes, base + ahead, n), -(ahead + n))
  }

  /** A read of `n` bytes at distance `ahead`, from `before` to `after`: what it returns and where it leaves
      the stream. */
  ghost predicate ReadsFrom(bytes: seq<Byte>, before: nat, ahead: nat, n: nat, buf: seq<Byte>, after: nat) {
    && |buf| == n && buf == Got(bytes, before + ahead, n)
    && after == if n == 0 then before else PositionAfter(bytes, before, ahead, n)
  }

  /** The stream is back at its base exactly if it had all the bytes read; the one exception is a first file
      of which there is nothing, too close to the start of the stream for the seek back to succeed. */
  lemma PositionKeptIff(bytes: seq<Byte>, base: nat, ahead: nat, n: nat)
    ensures var there := if |bytes| <= base + ahead then 0
                         else if n <= |bytes| - (base + ahead) then n else |bytes| - (base + ahead);
            PositionAfter(bytes, base, ahead, n)
            == if n - there <= base then base - (n - there) else base + ahead + there
    ensures PositionAfter(bytes, base, ahead, n) == base
            <==> n == 0 || base + ahead + n <= |bytes| || (ahead == 0 && |bytes| <= base < n)
  {
  }

  /** After a read of `n` bytes of which some were missing, the next read gets bytes from as many places
      before the ones it asks for, until the stream is so far back that the seek fails. */
  lemma MisplacedRead(bytes: seq<Byte>, base: nat, ahead: nat, n: nat, at: nat, k: nat)
    requires base + at + k <= |bytes|
    ensures var missing := n - Available(bytes, base + ahead, n);
            missing <= base ==>
              Got(bytes, PositionAfter(bytes, base, ahead, n) + at, k)
              == bytes[base + at - missing..base + at - missing + k]
  {
    var missing := n - Available(bytes, base + ahead, n);
    if missing <= base {
      assert PositionAfter(bytes, base, ahead, n) == base - missing;
    }
  }

  /** Where two files of 2 bytes and 1 are declared but the second is missing, reading it makes the first
      read as other bytes. */
  lemma TruncatedArchiveMisreads(bytes: seq<Byte>)
    requires bytes == [1, 2, 10, 11]
    ensures Got(bytes, 2, 2) == [10, 11] && Got(bytes, PositionAfter(bytes, 2, 2, 1) + 0, 2) == [2, 10]
  {
    MisplacedRead(bytes, 2, 2, 1, 0, 2);
    assert bytes[2..4] == [10, 11] && bytes[1..3] == [2, 10];
  }

  /** A slice from the start, continued where it ended. */
  lemma SliceGrows(file: seq<Byte>, n: nat, more: nat)
    ensures Slice(file, 0, n) + Slice(file, |Slice(file, 0, n)|, more) == Slice(file, 0, n + more)
  {
    if n < |file| {
      assert Slice(file, 0, n) == file[..n];
    } else {
      assert Slice(file, 0, n) == file;
    }
  }

  method BuildHeads(sizes: seq<nat>) returns (heads: array<nat>)
    requires sizes != []
    ensures fresh(heads) && heads.Length == |sizes|
    ensures forall i {:trigger heads[i]} :: 0 <= i < |sizes| ==> heads[i] == Sum(sizes[..i])
  {
    heads := new nat[|sizes|](_ => 0);
    for i := 1 to |sizes|
      invariant forall j {:trigger heads[j]} :: 0 <= j < i ==> heads[j] == Sum(sizes[..j])
    {
      SumPrefix(sizes, i - 1);
      heads[i] := heads[i - 1] + sizes[i - 1];
    }
  }

  /** The open archive: the stream, its table of contents, and the buffer that reads go through. */
  class Reader {
    const bytes: seq<Byte>
    const base: nat
    const names: seq<string>
    const sizes: seq<nat>
    const heads: array<nat>
    const buffer: array<Byte>
    var pos: nat

    ghost predicate Valid()
      reads this, heads
    {
      && |names| == |sizes| == heads.Length && buffer.Length == BUFFER_LENGTH
      && (forall i {:trigger heads[i]} {:trigger sizes[i]} :: 0 <= i < |sizes| ==>
            heads[i] == Sum(sizes[..i]) && sizes[i] <= BUFFER_LENGTH)
    }

    /** The archive holds every byte that its table of contents declares. */
    ghost predicate Whole() {
      base + Sum(sizes) <= |bytes|
    }

    lemma RegionEnds(i: nat)
      requires i < |sizes|
      ensures Head(sizes, i) == Sum(sizes[..i])
      ensures Head(sizes, i) + sizes[i] == Sum(sizes[..i + 1]) <= Sum(sizes)
    {
      RegionsInOrder(sizes, i, |sizes|);
      HeadIsSum(sizes, i);
      HeadIsSum(sizes, |sizes|);
      SumPrefix(sizes, i);
    }

    /** What file `i` of a whole archive contains. */
    ghost function File(i: nat): (file: seq<Byte>)
      requires Whole() && i < |sizes|
      ensures |file| == sizes[i]
      ensures base + Sum(sizes[..i]) <= base + Sum(sizes[..i + 1]) <= |bytes|
      ensures file == bytes[base + Sum(sizes[..i])..base + Sum(sizes[..i + 1])]
    {
      RegionEnds(i);
      bytes[base + Head(sizes, i)..base + Head(sizes, i) + sizes[i]]
    }

    /** `main`, with the header already scanned: the heads are the prefix sums of the sizes. */
    constructor (bytes: seq<Byte>, base: nat, names: seq<string>, sizes: seq<nat>)
      requires 0 < |names| == |sizes| && forall i :: 0 <= i < |sizes| ==> sizes[i] <= BUFFER_LENGTH
      ensures Valid() && pos == base && fresh(heads) && fresh(buffer)
      ensures this.bytes == bytes && this.base == base && this.names == names && this.sizes == sizes
    {
      this.bytes, this.base, this.names, this.sizes := bytes, base, names, sizes;
      var built := BuildHeads(sizes);
      heads := built;
      buffer := new Byte[BUFFER_LENGTH](_ => 0);
      pos := base;
    }

    method FSeek(delta: int)
      modifies this`pos
      ensures pos == Seek(old(pos), delta)
    {
      if 0 <= pos + delta {
        pos := pos + delta;
      }
    }

    method FGetC() returns (b: Byte)
      modifies this`pos
      ensures old(pos) < |bytes| ==> b == bytes[old(pos)] && pos == old(pos) + 1
      ensures |bytes| <= old(pos) ==> b == EOF_BYTE && pos == old(pos)
    {
      if pos < |bytes| {
        b := bytes[pos];
        pos := pos + 1;
      } else {
        b := EOF_BYTE;
      }
    }

    /** The loop over `fgetc`. */
    method Fill(offset: nat, size: nat)
      requires offset + size <= buffer.Length
      modifies this`pos, buffer
      ensures pos == old(pos) + Available(bytes, old(pos), size)
      ensures buffer[offset..offset + size] == Got(bytes, old(pos), size)
    {
      var j := 0;
      while j < size
        invariant 0 <= j <= size && pos == old(pos) + Available(bytes, old(pos), j)
        invariant buffer[offset..offset + j] == Got(bytes, old(pos), j)
      {
        buffer[j + offset] := FGetC();
        assert buffer[offset..offset + j + 1] == buffer[offset..offset + j] + [buffer[offset + j]];
        j := j + 1;
      }
    }

    lemma WholeSlice(i: nat, offset: nat, n: nat)
      requires Whole() && i < |sizes| && offset + n <= sizes[i]
      ensures Got(bytes, base + (Head(sizes, i) + offset), n) == File(i)[offset..offset + n]
    {
      RegionEnds(i);
      var file, got := File(i), Got(bytes, base + (Head(sizes, i) + offset), n);
      forall k | 0 <= k < n ensures got[k] == file[offset + k] {
        assert file[offset + k] == bytes[base + Head(sizes, i) + (offset + k)];
      }
    }

    lemma WholeEntryFits(i: nat, size: nat, offset: nat)
      requires i < |sizes| && Whole()
      ensures var n := Asked(sizes[i], size, offset); n == 0 || base + Head(sizes, i) + offset + n <= |bytes|
    {
      RegionEnds(i);
    }

    lemma WholeEntry(i: nat, size: nat, offset: nat, n: nat)
      requires i < |sizes| && n == Asked(sizes[i], size, offset) && Whole()
      ensures Got(bytes, base + (Head(sizes, i) + offset), n) == Slice(File(i), offset, size)
    {
      if offset < sizes[i] {
        WholeSlice(i, offset, n);
      }
    }

    /** With the stream at its base, reading file `i` of a whole archive gives the slice and keeps the base. */
    ghost predicate SliceRead(i: nat, size: nat, offset: nat, before: nat, buf: seq<Byte>, after: nat)
      requires i < |sizes|
    {
      Whole() && before == base ==> after == base && buf == Slice(File(i), offset, size)
    }

    /** The effect of reading file `i` with the stream at `before`: what is returned, where the stream is
        left, exactly when that is where it was, and what it all means for a whole archive. */
    ghost predicate EntryRead(i: nat, size: nat, offset: nat, before: nat, buf: seq<Byte>, after: nat)
      requires i < |sizes|
    {
      var ahead, n := Head(sizes, i) + offset, Asked(sizes[i], size, offset);
      && ReadsFrom(bytes, before, ahead, n, buf, after)
      && (after == before <==>
          n == 0 || before + ahead + n <= |bytes| || (ahead == 0 && |bytes| <= before < n))
      && SliceRead(i, size, offset, before, buf, after)
    }

    lemma WholeEffect(i: nat, size: nat, offset: nat, before: nat, buf: seq<Byte>, after: nat)
      requires i < |sizes|
      requires buf == Got(bytes, before + (Head(sizes, i) + offset), Asked(sizes[i], size, offset))
      requires Whole() && before == base ==> after == base
      ensures SliceRead(i, size, offset, before, buf, after)
    {
      var n := Asked(sizes[i], size, offset);
      if Whole() && before == base {
        assert buf == Got(bytes, base + (Head(sizes, i) + offset), n);
        WholeEntry(i, size, offset, n);
      }
    }

    lemma EntryEffect(i: nat, size: nat, offset: nat, before: nat, buf: seq<Byte>, after: nat)
      requires i < |sizes|
      requires ReadsFrom(bytes, before, Head(sizes, i) + offset, Asked(sizes[i], size, offset), buf, after)
      ensures EntryRead(i, size, offset, before, buf, after)
    {
      PositionKeptIff(bytes, before, Head(sizes, i) + offset, Asked(sizes[i], size, offset));
      if Whole() && before == base {
        WholeEntryFits(i, size, offset);
      }
      WholeEffect(i, size, offset, before, buf, after);
    }

    /** The seek to the part asked for, the loop, and the seek back. */
    method ReadPart(ahead: nat, offset: nat, code: nat) returns (buf: seq<Byte>)
      requires offset + code <= buffer.Length
      modifies this`pos, buffer
      ensures |buf| == code && buf == Got(bytes, old(pos) + ahead, code)
      ensures pos == PositionAfter(bytes, old(pos), ahead, code)
    {
      FSeek(ahead);
      Fill(offset, code);
      FSeek(-(ahead + code));
      buf := buffer[offset..offset + code];
    }

    /** What `read_callback` does for file `i`, from wherever the stream is. */
    method ReadEntry(i: nat, size: nat, offset: nat) returns (code: nat, buf: seq<Byte>)
      requires Valid() && i < |sizes|
      modifies this`pos, buffer
      ensures Valid() && code == |buf| && EntryRead(i, size, offset, old(pos), buf, pos)
    {
      HeadIsSum(sizes, i);
      if offset >= sizes[i] {
        EntryEffect(i, size, offset, pos, [], pos);
        return 0, [];
      }
      code := if offset + size <= sizes[i] then size else sizes[i] - offset;
      buf := ReadPart(heads[i] + offset, offset, code);
      EntryEffect(i, size, offset, old(pos), buf, pos);
    }

    /** The bytes of a read, one by one. */
    lemma EntryBytes(i: nat, size: nat, offset: nat, before: nat, buf: seq<Byte>, after: nat)
      requires i < |sizes| && EntryRead(i, size, offset, before, buf, after)
      ensures |buf| == if sizes[i] <= offset then 0 else if size <= sizes[i] - offset then size else sizes[i] - offset
      ensures var at := before + Sum(sizes[..i]) + offset;
              forall n :: 0 <= n < |buf| ==> buf[n] == if at + n < |bytes| then bytes[at + n] else 255
    {
      HeadIsSum(sizes, i);
    }

    /** `read_callback`. */
    method Read(path: string, size: nat, offset: nat) returns (code: int, buf: seq<Byte>)
      requires Valid() && offset + size < 0x1_0000_0000_0000_0000
      modifies this`pos, buffer
      ensures Valid()
      ensures path == "/" ==> code == -21 && buf == [] && pos == old(pos)
      ensures path != "/" && (path == "" || path[0] != '/' || Find(names, path[1..]) == |names|) ==>
                code == -5 && buf == [] && pos == old(pos)
      ensures path != "/" && path != "" && path[0] == '/' && Find(names, path[1..]) < |names| ==>
                var i := Find(names, path[1..]);
                var at := old(pos) + Sum(sizes[..i]) + offset;
                && code == (if sizes[i] <= offset then 0 else if size <= sizes[i] - offset then size
                            else sizes[i] - offset) == |buf|
                && (forall n :: 0 <= n < |buf| ==> buf[n] == if at + n < |bytes| then bytes[at + n] else 255)
                && EntryRead(i, size, offset, old(pos), buf, pos)
    {
      if path == "/" {
        return -EISDIR, [];
      }
      var i := 0;
      while i < |names|
        invariant 0 <= i <= |names|
        invariant path != "" && path[0] == '/' ==> forall j :: 0 <= j < i ==> names[j] != path[1..]
      {
        if path != "" && path[0] == '/' && path[1..] == names[i] {
          assert i == Find(names, path[1..]);
          code, buf := ReadEntry(i, size, offset);
          EntryBytes(i, size, offset, old(pos), buf, pos);
          return;
        }
        i := i + 1;
      }
      return -EIO, [];
    }

    ghost function Files(): (files: seq<seq<Byte>>)
      requires Whole()
    {
      seq(|sizes|, i requires 0 <= i < |sizes| => File(i))
    }

    lemma SlicesJoin(from: nat, mid: nat, to: nat)
      requires from <= mid <= to <= |bytes|
      ensures bytes[from..mid] + bytes[mid..to] == bytes[from..to]
    {
    }

    lemma {:induction false} FirstFiles(n: nat)
      requires Whole() && n <= |sizes|
      ensures base + Sum(sizes[..n]) <= |bytes| && Concat(Files()[..n]) == bytes[base..base + Sum(sizes[..n])]
    {
      if n == 0 {
        assert bytes[base..base] == [] && Files()[..0] == [];
      } else {
        FirstFiles(n - 1);
        ConcatSnoc(Files()[..n - 1], File(n - 1));
        assert Files()[..n] == Files()[..n - 1] + [File(n - 1)];
        SlicesJoin(base, base + Sum(sizes[..n - 1]), base + Sum(sizes[..n]));
      }
    }

    /** The contents of all files, in order, are what follows the header. */
    lemma FilesFillArchive()
      requires Whole()
      ensures Concat(Files()) == bytes[base..base + Sum(sizes)]
    {
      FirstFiles(|sizes|);
      assert Files()[..|sizes|] == Files() && sizes[..|sizes|] == sizes;
    }

    /** What chunked reads add up to, byte by byte. */
    lemma FromStart(i: nat, total: nat)
      requires Whole() && i < |sizes|
      ensures var data := Slice(File(i), 0, total);
              && |data| == (if total <= sizes[i] then total else sizes[i])
              && forall n :: 0 <= n < |data| ==>
                   base + Sum(sizes[..i]) + n < |bytes| && data[n] == bytes[base + Sum(sizes[..i]) + n]
    {
    }

    /** Any run of reads, each starting where the last one ended, adds up to the file. */
    method ReadInChunks(path: string, chunks: seq<nat>) returns (data: seq<Byte>)
      requires Valid() && Whole() && pos == base
      requires path != "" && path[0] == '/' && path != "/" && Find(names, path[1..]) < |names|
      requires forall n :: 0 <= n < |chunks| ==> chunks[n] < 0x1_0000_0000
      modifies this`pos, buffer
      ensures var i := Find(names, path[1..]);
              && pos == base && data == Slice(File(i), 0, Sum(chunks))
              && |data| == (if Sum(chunks) <= sizes[i] then Sum(chunks) else sizes[i])
              && forall n :: 0 <= n < |data| ==>
                   base + Sum(sizes[..i]) + n < |bytes| && data[n] == bytes[base + Sum(sizes[..i]) + n]
    {
      ghost var file := File(Find(names, path[1..]));
      data := [];
      assert chunks[..0] == [];
      for n := 0 to |chunks|
        invariant Valid() && pos == base
        invariant data == Slice(file, 0, Sum(chunks[..n]))
      {
        var code, buf := Read(path, chunks[n], |data|);
        SumPrefix(chunks, n);
        SliceGrows(file, Sum(chunks[..n]), chunks[n]);
        data := data + buf;
      }
      assert chunks[..|chunks|] == chunks;
      FromStart(Find(names, path[1..]), Sum(chunks));
    }
  }
}
