/** The download buffer of inf23-2/main.c: `CallbackFunction` appends a chunk, and reallocates to twice the
    required size when the chunk does not fit. */
module GrowingBuffer {
  import opened Bytes
  import opened Sums

  const INT64_LIMIT: int := 0x8000_0000_0000_0000

  /** The sizes of a buffer, the number of reallocations and the bytes that they may have copied: all of
      the old block, whatever part of it was in use. */
  datatype Account = Account(length: nat, capacity: nat, reallocations: nat, copied: nat)

  const EMPTY := Account(0, 0, 0, 0)

  function Grow(a: Account, size: nat): Account {
    var required := a.length + size;
    if a.capacity < required then Account(required, 2 * required, a.reallocations + 1, a.copied + a.capacity)
    else a.(length := required)
  }

  function GrowAll(a: Account, sizes: seq<nat>): Account
    decreases |sizes|
  {
    if sizes == [] then a else GrowAll(Grow(a, sizes[0]), sizes[1..])
  }

  function Pow2(n: nat): nat { if n == 0 then 1 else 2 * Pow2(n - 1) }

  /** Past reallocations have copied less than the current capacity, which has doubled with each of them
      and is at most twice what is in use. */
  ghost predicate Amortised(a: Account) {
    && a.length <= a.capacity <= 2 * a.length
    && (if a.reallocations == 0 then a.capacity == 0 && a.copied == 0
        else a.copied < a.capacity && Pow2(a.reallocations) <= a.capacity)
  }

  lemma GrowAmortised(a: Account, size: nat)
    requires Amortised(a)
    ensures Amortised(Grow(a, size))
  {
    if a.capacity < a.length + size && a.reallocations == 0 {
      assert Pow2(1) == 2 * Pow2(0);
    }
  }

  /** Over any sequence of chunks the buffer is exactly as long as the chunks together, at most half empty,
      and all reallocations together copy less than twice its length, in a number of reallocations that is
      logarithmic in it. */
  lemma {:induction false} AnyChunks(a: Account, sizes: seq<nat>)
    requires Amortised(a)
    ensures var r := GrowAll(a, sizes);
            && Amortised(r) && r.length == a.length + Sum(sizes)
            && r.copied <= 2 * r.length && (0 < r.length ==> Pow2(r.reallocations) <= 2 * r.length)
    decreases |sizes|
  {
    if sizes == [] {
      assert a.reallocations == 0 ==> a.length == 0;
    } else {
      GrowAmortised(a, sizes[0]);
      AnyChunks(Grow(a, sizes[0]), sizes[1..]);
    }
  }

  /** The capacity is exactly twice what the chunks came to when it last did not suffice, and what it was if
      it always did. */
  lemma {:induction false} CapacityIsTwice(a: Account, sizes: seq<nat>)
    ensures var r := GrowAll(a, sizes);
            && (r.reallocations == a.reallocations ==> r.capacity == a.capacity && r.copied == a.copied)
            && (r.reallocations != a.reallocations ==>
                  exists n :: 0 < n <= |sizes| && r.capacity == 2 * (a.length + Sum(sizes[..n])))
            && a.reallocations <= r.reallocations
    decreases |sizes|
  {
    if sizes != [] {
      var a1 := Grow(a, sizes[0]);
      var r := GrowAll(a1, sizes[1..]);
      CapacityIsTwice(a1, sizes[1..]);
      if r.reallocations != a1.reallocations {
        var n :| 0 < n <= |sizes[1..]| && r.capacity == 2 * (a1.length + Sum(sizes[1..][..n]));
        assert sizes[..n + 1] == [sizes[0]] + sizes[1..][..n];
        assert Sum(sizes[..n + 1]) == sizes[0] + Sum(sizes[1..][..n]);
      } else if a1.reallocations != a.reallocations {
        assert sizes[..1] == [sizes[0]] && Sum(sizes[..1]) == sizes[0] + Sum([]);
      }
    }
  }

  function Sizes(chunks: seq<seq<Byte>>): seq<nat> {
    if chunks == [] then [] else [|chunks[0]|] + Sizes(chunks[1..])
  }

  lemma {:induction false} ConcatLength(chunks: seq<seq<Byte>>)
    ensures |Concat(chunks)| == Sum(Sizes(chunks))
  {
    if chunks != [] {
      ConcatLength(chunks[1..]);
      assert Sizes(chunks)[1..] == Sizes(chunks[1..]);
    }
  }

  /** `buffer_t`; the null pointer of an empty buffer is an array of no elements. */
  class Buffer {
    var data: array<Byte>
    var length: nat
    var capacity: nat
    ghost var reallocations: nat
    ghost var copied: nat

    ghost function Sheet(): Account
      reads this
    {
      Account(length, capacity, reallocations, copied)
    }

    ghost predicate Valid()
      reads this
    {
      data.Length == capacity && Amortised(Sheet())
    }

    ghost function Contents(): seq<Byte>
      requires Valid()
      reads this, data
    {
      data[..length]
    }

    constructor ()
      ensures Valid() && fresh(data) && Contents() == [] && Sheet() == EMPTY
    {
      data := new Byte[0];
      length, capacity, reallocations, copied := 0, 0, 0, 0;
    }

    /** `realloc`: a new block that starts with the old one. */
    method Reallocate(size: nat)
      requires data.Length <= size
      modifies this`data, this`capacity, this`reallocations, this`copied
      ensures fresh(data) && data.Length == capacity == size
      ensures data[..old(data.Length)] == old(data[..])
      ensures reallocations == old(reallocations) + 1 && copied == old(copied) + old(data.Length)
    {
      var block := new Byte[size](_ => 0);
      for i := 0 to data.Length
        modifies block
        invariant block[..i] == data[..i]
      {
        block[i] := data[i];
      }
      reallocations, copied := reallocations + 1, copied + data.Length;
      data, capacity := block, size;
    }

    /** `memcpy` behind the bytes in use. */
    method Append(chunk: seq<Byte>)
      requires length + |chunk| <= data.Length
      modifies this`length, data
      ensures length == old(length) + |chunk|
      ensures data[..length] == old(data[..length]) + chunk
    {
      for i := 0 to |chunk|
        modifies data
        invariant data[..length + i] == old(data[..length]) + chunk[..i]
      {
        data[length + i] := chunk[i];
      }
      length := length + |chunk|;
    }

    method Callback(ptr: seq<Byte>, chunkSize: nat, nmemb: nat) returns (total: nat)
      requires Valid() && |ptr| == chunkSize * nmemb && 2 * (length + |ptr|) < INT64_LIMIT
      modifies this, data
      ensures Valid() && (data == old(data) || fresh(data))
      ensures total == |ptr|
      ensures Contents() == old(Contents()) + ptr
      ensures capacity == if old(capacity) < old(length) + |ptr| then 2 * (old(length) + |ptr|) else old(capacity)
      ensures Sheet() == Grow(old(Sheet()), |ptr|)
    {
      GrowAmortised(Sheet(), |ptr|);
      total := chunkSize * nmemb;
      var required := length + total;
      if capacity < required {
        required := required * 2;
        Reallocate(required);
      }
      assert data[..length] == old(data[..length]);
      Append(ptr);
    }

    /** A whole download. */
    method Receive(chunks: seq<seq<Byte>>)
      requires Valid() && 2 * (length + |Concat(chunks)|) < INT64_LIMIT
      modifies this, data
      ensures Valid() && Contents() == old(Contents()) + Concat(chunks)
      ensures Sheet() == GrowAll(old(Sheet()), Sizes(chunks))
    {
      assert chunks[0..] == chunks;
      for n := 0 to |chunks|
        invariant Valid() && (data == old(data) || fresh(data))
        invariant Contents() + Concat(chunks[n..]) == old(Contents()) + Concat(chunks)
        invariant GrowAll(Sheet(), Sizes(chunks[n..])) == GrowAll(old(Sheet()), Sizes(chunks))
      {
        ghost var rest := chunks[n..];
        assert rest[0] == chunks[n] && rest[1..] == chunks[n + 1..];
        assert Sizes(rest)[1..] == Sizes(rest[1..]);
        assert |Contents() + Concat(rest)| == old(length) + |Concat(chunks)|;
        var total := Callback(chunks[n], 1, |chunks[n]|);
      }
    }
  }

  /** A download into an empty buffer: its text, and its price. */
  method Download(chunks: seq<seq<Byte>>) returns (buffer: Buffer)
    requires 2 * |Concat(chunks)| < INT64_LIMIT
    ensures buffer.Valid() && buffer.Contents() == Concat(chunks)
    ensures buffer.copied <= 2 * |Concat(chunks)|
  {
    buffer := new Buffer();
    buffer.Receive(chunks);
    AnyChunks(EMPTY, Sizes(chunks));
    ConcatLength(chunks);
  }
}
