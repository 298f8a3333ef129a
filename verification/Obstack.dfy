/**
 Object stacks (lib/compat/obstack.c, lib/compat/obstack.h), which all of dpkg's
 package data lives on: objects grow at the end of the newest chunk, are finished,
 and are freed together with everything younger.

 Addresses are natural numbers and memory is a function from addresses to bytes.
 */
module Obstack {
  import opened Text

  /** Limit and link to the previous chunk, at the front of each chunk. */
  const HEADER: nat := 16
  const DEFAULT_ALIGNMENT: nat := 16
  const DEFAULT_SIZE: nat := 4064

  datatype Chunk = Chunk(addr: nat, limit: nat)

  /** A finished object and the number of its chunk, counted from the oldest. */
  datatype Obj = Obj(addr: nat, size: nat, home: nat)

  type Memory = nat -> int

  // ---- alignment ----

  predicate Aligned(p: nat, align: nat)
    requires align > 0
  {
    Remainder(p, align) == 0
  }

  /** `__PTR_ALIGN`: the next multiple of the alignment. */
  function AlignUp(p: nat, align: nat): (r: nat)
    requires align > 0
    ensures p <= r < p + align
    ensures Aligned(r, align)
  {
    NextMultiple(p, align);
    if Remainder(p, align) == 0 then p else p + align - Remainder(p, align)
  }

  /** Where objects begin in a chunk. */
  function First(c: Chunk, align: nat): nat
    requires align > 0
  {
    AlignUp(c.addr + HEADER, align)
  }

  lemma FirstBound(c: Chunk, align: nat)
    requires align > 0
    ensures c.addr + HEADER <= First(c, align) < c.addr + HEADER + align
  { }

  // ---- chunks ----

  predicate Disjoint(c: Chunk, d: Chunk) { c.limit <= d.addr || d.limit <= c.addr }

  ghost predicate ChunksOk(chunks: seq<Chunk>, align: nat)
    requires align > 0
  {
    && (forall i :: 0 <= i < |chunks| ==> First(chunks[i], align) <= chunks[i].limit)
    && (forall i, j :: 0 <= i < j < |chunks| ==> Disjoint(chunks[i], chunks[j]))
  }

  /** What an allocator promises: the block is apart from all live chunks. */
  ghost predicate Apart(c: Chunk, chunks: seq<Chunk>) { forall i :: 0 <= i < |chunks| ==> Disjoint(chunks[i], c) }

  ghost predicate Allocates(malloc: nat -> nat, chunks: seq<Chunk>) {
    forall n :: Apart(Chunk(malloc(n), malloc(n) + n), chunks)
  }

  // ---- the objects ----

  /** An object lies inside its chunk, and is aligned unless it is empty and at the very end. */
  ghost predicate Placed(o: Obj, chunks: seq<Chunk>, align: nat)
    requires align > 0
  {
    && o.home < |chunks|
    && First(chunks[o.home], align) <= o.addr && o.addr + o.size <= chunks[o.home].limit
    && (Aligned(o.addr, align) || (o.size == 0 && o.addr == chunks[o.home].limit))
  }

  /** Older objects are in older chunks, or before younger ones in the same chunk. */
  predicate Before(o: Obj, p: Obj) { o.home < p.home || (o.home == p.home && o.addr + o.size <= p.addr) }

  ghost predicate ObjectsOk(objects: seq<Obj>, chunks: seq<Chunk>, align: nat)
    requires align > 0
  {
    && (forall i :: 0 <= i < |objects| ==> Placed(objects[i], chunks, align))
    && (forall i, j :: 0 <= i < j < |objects| ==> Before(objects[i], objects[j]))
  }

  /** The object being built is in the newest chunk, after all finished ones. */
  ghost predicate TopOk(objects: seq<Obj>, chunks: seq<Chunk>, align: nat, base: nat, next: nat, maybeEmpty: bool)
    requires align > 0
  {
    && chunks != []
    && var top := |chunks| - 1;
    && First(chunks[top], align) <= base <= next <= chunks[top].limit
    && (Aligned(base, align) || (base == next && base == chunks[top].limit))
    && (forall i :: 0 <= i < |objects| && objects[i].home == top ==> objects[i].addr + objects[i].size <= base)
    && (!maybeEmpty ==> forall i :: 0 <= i < |objects| && objects[i].home == top ==> objects[i].size > 0)
  }

  function Bytes(mem: Memory, at: nat, n: nat): (r: seq<int>)
    ensures |r| == n
  {
    seq(n, k requires 0 <= k < n => mem(at + k))
  }

  /** Every finished object holds the bytes it had when it was finished. */
  ghost predicate Intact(objects: seq<Obj>, contents: seq<seq<int>>, mem: Memory) {
    && |contents| == |objects|
    && forall i :: 0 <= i < |objects| ==> contents[i] == Bytes(mem, objects[i].addr, objects[i].size)
  }

  // ---- consequences: what users of the objects rely on ----

  predicate Overlap(a: nat, n: nat, b: nat, m: nat) { a < b + m && b < a + n }

  /** Non-empty objects are aligned, inside a live chunk, and pairwise disjoint. */
  lemma ObjectsApart(objects: seq<Obj>, chunks: seq<Chunk>, align: nat, i: nat, j: nat)
    requires align > 0 && ChunksOk(chunks, align) && ObjectsOk(objects, chunks, align)
    requires i < j < |objects| && objects[i].size > 0 && objects[j].size > 0
    ensures !Overlap(objects[i].addr, objects[i].size, objects[j].addr, objects[j].size)
    ensures Aligned(objects[i].addr, align) && Aligned(objects[j].addr, align)
    ensures chunks[objects[i].home].addr < objects[i].addr && objects[i].addr + objects[i].size <= chunks[objects[i].home].limit
  { }

  /** Writing at the top, or into a new chunk, leaves finished objects alone. */
  lemma WriteKeeps(objects: seq<Obj>, contents: seq<seq<int>>, mem: Memory, mem': Memory, at: nat, n: nat)
    requires Intact(objects, contents, mem)
    requires forall a: nat :: !(at <= a < at + n) ==> mem'(a) == mem(a)
    requires forall i :: 0 <= i < |objects| ==> !Overlap(objects[i].addr, objects[i].size, at, n)
    ensures Intact(objects, contents, mem')
  { }

  /** Room at the top is clear of finished objects. */
  lemma TopClear(objects: seq<Obj>, chunks: seq<Chunk>, align: nat, base: nat, next: nat, maybeEmpty: bool, n: nat, i: nat)
    requires align > 0 && ChunksOk(chunks, align) && ObjectsOk(objects, chunks, align)
    requires TopOk(objects, chunks, align, base, next, maybeEmpty)
    requires next + n <= chunks[|chunks| - 1].limit && i < |objects|
    ensures !Overlap(objects[i].addr, objects[i].size, next, n)
  { }

  // ---- the steps, on values ----

  /** A new chunk on top of the others. */
  lemma PushChunk(objects: seq<Obj>, chunks: seq<Chunk>, align: nat, c: Chunk, next: nat)
    requires align > 0 && ChunksOk(chunks, align) && ObjectsOk(objects, chunks, align) && Apart(c, chunks)
    requires First(c, align) <= next <= c.limit
    ensures ChunksOk(chunks + [c], align) && ObjectsOk(objects, chunks + [c], align)
    ensures TopOk(objects, chunks + [c], align, First(c, align), next, false)
  { }

  /** Taking away the newest chunk when no object is in it. */
  lemma PopChunk(objects: seq<Obj>, chunks: seq<Chunk>, align: nat, c: Chunk)
    requires align > 0 && ChunksOk(chunks, align) && ObjectsOk(objects, chunks, align) && chunks != [] && Apart(c, chunks)
    requires forall i :: 0 <= i < |objects| ==> objects[i].home != |chunks| - 1
    ensures var rest := chunks[..|chunks| - 1];
      ChunksOk(rest, align) && ObjectsOk(objects, rest, align) && Apart(c, rest)
  { }

  /** The test of `_obstack_newchunk`: nothing but the partial object is in the chunk. */
  lemma OnlyPartial(objects: seq<Obj>, chunks: seq<Chunk>, align: nat, base: nat, next: nat)
    requires align > 0 && ObjectsOk(objects, chunks, align) && TopOk(objects, chunks, align, base, next, false)
    requires base == First(chunks[|chunks| - 1], align)
    ensures forall i :: 0 <= i < |objects| ==> objects[i].home < |chunks| - 1
  { }

  /** Finishing an object. */
  lemma PushObject(objects: seq<Obj>, chunks: seq<Chunk>, align: nat, base: nat, next: nat, base': nat, maybeEmpty: bool)
    requires align > 0 && ObjectsOk(objects, chunks, align) && TopOk(objects, chunks, align, base, next, maybeEmpty)
    requires next <= base' <= chunks[|chunks| - 1].limit && (Aligned(base', align) || base' == chunks[|chunks| - 1].limit)
    ensures var o := Obj(base, next - base, |chunks| - 1);
      ObjectsOk(objects + [o], chunks, align) && TopOk(objects + [o], chunks, align, base', base', maybeEmpty || next == base)
  { }

  /** The search of `__obstack_free` passes by the chunks younger than the object's own, and stops there. */
  lemma PassesBy(chunks: seq<Chunk>, align: nat, o: Obj, j: nat)
    requires align > 0 && ChunksOk(chunks, align) && Placed(o, chunks, align) && o.home <= j < |chunks|
    ensures o.home < j <==> chunks[j].addr >= o.addr || chunks[j].limit < o.addr
    ensures chunks[j].addr < o.addr < chunks[j].limit ==> o.home == j
  { }

  /** Freeing an object. */
  lemma PopObjects(objects: seq<Obj>, chunks: seq<Chunk>, align: nat, i: nat, base: nat, next: nat, maybeEmpty: bool)
    requires align > 0 && ChunksOk(chunks, align) && ObjectsOk(objects, chunks, align)
    requires TopOk(objects, chunks, align, base, next, maybeEmpty) && i < |objects|
    ensures var o := objects[i];
      && o.home < |chunks| && ChunksOk(chunks[..o.home + 1], align) && ObjectsOk(objects[..i], chunks[..o.home + 1], align)
      && TopOk(objects[..i], chunks[..o.home + 1], align, o.addr, o.addr, o.home < |chunks| - 1 || maybeEmpty)
  {
    hide AlignUp, Disjoint;
    var o := objects[i];
    assert Placed(o, chunks, align);
    forall k | 0 <= k < i ensures Placed(objects[k], chunks[..o.home + 1], align) && Before(objects[k], o) {
      assert Placed(objects[k], chunks, align) && Before(objects[k], objects[i]);
    }
  }

  /** The size of a new chunk for an object of `size` bytes so far that needs `length` more. */
  function NewSize(size: nat, length: nat, align: nat, chunkSize: nat): nat
    requires align > 0
  {
    var n := size + length + size / 8 + (align - 1) + 100;
    if n < chunkSize then chunkSize else n
  }

  lemma NewSizeFits(size: nat, length: nat, align: nat, chunkSize: nat)
    requires align > 0
    ensures NewSize(size, length, align, chunkSize) >= HEADER + align + size + length
    ensures NewSize(size, length, align, chunkSize) >= chunkSize
  { }

  // ---- the obstack ----

  /** There is one new chunk, and at most the newest old one is gone, with no object in it. */
  ghost predicate OnTop(chunks: seq<Chunk>, chunks': seq<Chunk>, objects: seq<Obj>) {
    && chunks != [] && chunks' != []
    && var n := |chunks|;
       var c := chunks'[|chunks'| - 1];
       || chunks' == chunks + [c]
       || (chunks' == chunks[..n - 1] + [c] && forall i :: 0 <= i < |objects| ==> objects[i].home < n - 1)
  }

  /** All of the above together. */
  ghost predicate Sound(chunks: seq<Chunk>, align: nat, objects: seq<Obj>, contents: seq<seq<int>>, base: nat, next: nat,
                        maybeEmpty: bool, mem: Memory)
    requires align > 0
  {
    && ChunksOk(chunks, align) && ObjectsOk(objects, chunks, align)
    && TopOk(objects, chunks, align, base, next, maybeEmpty) && Intact(objects, contents, mem)
  }

  function Limit(chunks: seq<Chunk>): nat { if chunks == [] then 0 else chunks[|chunks| - 1].limit }

  class Stack {
    const align: nat             // alignment_mask + 1
    var chunkSize: nat
    var chunks: seq<Chunk>       // the chain, oldest first
    var base: nat                // object_base
    var next: nat                // next_free
    var limit: nat               // chunk_limit
    var maybeEmpty: bool         // maybe_empty_object
    var mem: Memory
    ghost var objects: seq<Obj>
    ghost var contents: seq<seq<int>>

    ghost predicate Valid()
      reads this
    {
      align > 0 && limit == Limit(chunks) && Sound(chunks, align, objects, contents, base, next, maybeEmpty, mem)
    }

    /** The bytes of the object being built. */
    ghost function Growing(): seq<int>
      requires base <= next
      reads this
    {
      Bytes(mem, base, next - base)
    }

    /** `_obstack_begin`. */
    constructor (size: nat, alignment: nat, malloc: nat -> nat, m: Memory)
      requires size == 0 || size >= HEADER + (if alignment == 0 then DEFAULT_ALIGNMENT else alignment)
      requires size == 0 ==> HEADER + alignment <= DEFAULT_SIZE
      ensures Valid() && objects == [] && Growing() == [] && !maybeEmpty && |chunks| == 1 && mem == m
      ensures align == (if alignment == 0 then DEFAULT_ALIGNMENT else alignment)
      ensures chunkSize == (if size == 0 then DEFAULT_SIZE else size) && limit == chunks[0].addr + chunkSize
    {
      var a := if alignment == 0 then DEFAULT_ALIGNMENT else alignment;
      var n := if size == 0 then DEFAULT_SIZE else size;
      var c := Chunk(malloc(n), malloc(n) + n);
      align, chunkSize, chunks := a, n, [c];
      base, next, limit := AlignUp(c.addr + HEADER, a), AlignUp(c.addr + HEADER, a), c.limit;
      maybeEmpty, mem, objects, contents := false, m, [], [];
    }

    /**
     `_obstack_newchunk`: there is room for the requested length, the partial
     object keeps its bytes, finished objects stay where they are, and the old
     chunk is released only if none of them is in it.
     */
    method NewChunk(length: nat, malloc: nat -> nat)
      requires Valid() && Allocates(malloc, chunks)
      modifies this`chunks, this`mem, this`base, this`next, this`limit, this`maybeEmpty
      ensures Valid() && Growing() == old(Growing()) && limit - next >= length
      ensures OnTop(old(chunks), chunks, objects)
    {
      hide Sound, Apart, First, Copied, Bytes, OnTop, Limit, Allocates;
      var c := Obtain(length, malloc);
      var rest := Remaining();
      var to, m, from, size := First(c, align), mem, base, next - base;
      CopiedIs(m, from, to, size);
      MoveSound(chunks, rest, align, objects, contents, base, next, maybeEmpty, mem, c);
      chunks, mem, base, next, limit, maybeEmpty := rest + [c], Copied(m, from, to, size), to, to + size, c.limit, false;
    }

    /** A chunk with room for the partial object and what is to be added. */
    method Obtain(length: nat, malloc: nat -> nat) returns (c: Chunk)
      requires Valid() && Allocates(malloc, chunks)
      ensures base <= next && Apart(c, chunks) && First(c, align) + (next - base) + length <= c.limit
      ensures c.limit - c.addr >= chunkSize
      ensures var needed := (next - base) + length + (next - base) / 8 + (align - 1) + 100;
        c.limit - c.addr == if needed >= chunkSize then needed else chunkSize
    {
      hide Sound, Apart, First;
      SoundTop(chunks, align, objects, contents, base, next, maybeEmpty, mem);
      var size := NewSize(next - base, length, align, chunkSize);
      NewSizeFits(next - base, length, align, chunkSize);
      c := Chunk(malloc(size), malloc(size) + size);
      FirstBound(c, align);
    }

    /** The chunks that stay: all of them, unless the partial object is certainly alone in the newest one. */
    method Remaining() returns (rest: seq<Chunk>)
      requires Valid()
      ensures chunks != []
      ensures rest == if maybeEmpty || base != First(chunks[|chunks| - 1], align) then chunks else chunks[..|chunks| - 1]
      ensures rest != chunks ==> forall i :: 0 <= i < |objects| ==> objects[i].home < |chunks| - 1
    {
      hide Sound, First;
      SoundTop(chunks, align, objects, contents, base, next, maybeEmpty, mem);
      rest := chunks;
      if !maybeEmpty && base == First(chunks[|chunks| - 1], align) {
        OnlyPartial(objects, chunks, align, base, next);
        rest := chunks[..|chunks| - 1];
      }
    }

    /** `obstack_grow`. */
    method Grow(data: seq<int>, malloc: nat -> nat)
      requires Valid() && Allocates(malloc, chunks)
      modifies this`chunks, this`mem, this`base, this`next, this`limit, this`maybeEmpty
      ensures Valid()
      ensures Growing() == old(Growing()) + data
    {
      hide AlignUp, ChunksOk, ObjectsOk, Disjoint, Intact, Bytes, Allocates;
      if next + |data| > limit {
        NewChunk(|data|, malloc);
      }
      Put(data);
    }

    /** `obstack_grow0`: with a zero byte at the end. */
    method Grow0(data: seq<int>, malloc: nat -> nat)
      requires Valid() && Allocates(malloc, chunks)
      modifies this`chunks, this`mem, this`base, this`next, this`limit, this`maybeEmpty
      ensures Valid()
      ensures Growing() == old(Growing()) + data + [0]
    {
      hide AlignUp, ChunksOk, ObjectsOk, Disjoint, Intact, Bytes, Allocates;
      if next + |data| + 1 > limit {
        NewChunk(|data| + 1, malloc);
      }
      Put(data);
      Put([0]);
    }

    /** Writing at `next_free`, where there is room. */
    method Put(data: seq<int>)
      requires Valid() && next + |data| <= limit
      modifies this`mem, this`next
      ensures Valid() && Growing() == old(Growing()) + data && next == old(next) + |data|
    {
      hide AlignUp, ChunksOk, ObjectsOk, Disjoint, Intact, Bytes;
      var m, at := mem, next;
      var mem' := Stored(m, at, data);
      forall i | 0 <= i < |objects| ensures !Overlap(objects[i].addr, objects[i].size, at, |data|) {
        TopClear(objects, chunks, align, base, next, maybeEmpty, |data|, i);
      }
      WriteKeeps(objects, contents, m, mem', at, |data|);
      StoredBytes(m, base, at, data);
      TopGrows(objects, chunks, align, base, next, next + |data|, maybeEmpty);
      mem, next := mem', next + |data|;
    }

    /** `obstack_blank`: room whose bytes are not set. */
    method Blank(length: nat, malloc: nat -> nat)
      requires Valid() && Allocates(malloc, chunks)
      modifies this`chunks, this`mem, this`base, this`next, this`limit, this`maybeEmpty
      ensures Valid()
      ensures |Growing()| == |old(Growing())| + length && old(Growing()) <= Growing()
    {
      hide AlignUp, ChunksOk, ObjectsOk, Disjoint, Intact, Bytes, Allocates;
      if limit - next < length {
        NewChunk(length, malloc);
      }
      TopGrows(objects, chunks, align, base, next, next + length, maybeEmpty);
      BytesPrefix(mem, base, next - base, length);
      next := next + length;
    }

    /** `obstack_finish`: the object is where it was built, with the bytes it had. */
    method Finish() returns (p: nat)
      requires Valid()
      modifies this`next, this`base, this`maybeEmpty, this`objects, this`contents
      ensures Valid() && Growing() == [] && chunks == old(chunks) && mem == old(mem)
      ensures p == old(base) && objects == old(objects) + [Obj(p, |old(Growing())|, |chunks| - 1)]
      ensures contents == old(contents) + [old(Growing())]
      ensures Aligned(p, align) || |old(Growing())| == 0
    {
      hide Sound, Aligned, AlignUp;
      SoundTop(chunks, align, objects, contents, base, next, maybeEmpty, mem);
      hide ChunksOk, ObjectsOk, TopOk, Intact;
      p := base;
      ghost var o := Obj(base, next - base, |chunks| - 1);
      ghost var bytes := Growing();
      var next' := AlignUp(next, align);
      if next' > limit {
        next' := limit;
      }
      FinishSound(chunks, align, objects, contents, base, next, next', maybeEmpty, mem);
      if next == p {
        maybeEmpty := true;
      }
      objects, contents := objects + [o], contents + [bytes];
      next, base := next', next';
    }

    /**
     `obstack_free`, the macro and the function: exactly the older objects stay.
     The caller hands in the address of a finished object, number i.
     */
    method Free(p: nat, ghost i: nat)
      requires Valid() && i < |objects| && objects[i].addr == p
      modifies this
      ensures Valid() && objects == old(objects)[..i] && contents == old(contents)[..i] && mem == old(mem)
      ensures chunks == old(chunks)[..old(objects)[i].home + 1] && base == p && Growing() == []
    {
      hide ChunksOk, ObjectsOk, Disjoint, AlignUp, TopOk;
      ghost var o := objects[i];
      ghost var old_ := chunks;
      IsPlaced(objects, chunks, align, i);
      TopChunk(objects, chunks, align, base, next, maybeEmpty);
      PopObjects(objects, chunks, align, i, base, next, maybeEmpty);
      PassesBy(chunks, align, o, |chunks| - 1);
      if chunks[|chunks| - 1].addr < p < limit {
        assert chunks[..o.home + 1] == chunks;
        base, next := p, p;
      } else {
        while chunks[|chunks| - 1].addr >= p || chunks[|chunks| - 1].limit < p
          invariant o.home < |chunks| <= |old_| && chunks == old_[..|chunks|]
          invariant maybeEmpty == (old(maybeEmpty) || |chunks| < |old_|)
          invariant o.home < |chunks| - 1 <==> chunks[|chunks| - 1].addr >= p || chunks[|chunks| - 1].limit < p
          invariant unchanged(`objects) && unchanged(`contents) && unchanged(`mem) && unchanged(`base) && unchanged(`next)
          decreases |chunks|
        {
          PassesBy(old_, align, o, |chunks| - 2);
          chunks := chunks[..|chunks| - 1];
          maybeEmpty := true;
        }
        base, next, limit := p, p, chunks[|chunks| - 1].limit;
      }
      objects, contents := objects[..i], contents[..i];
    }

    /** `obstack_free` of a null pointer: every chunk is released. */
    method FreeAll()
      requires Valid()
      modifies this
      ensures chunks == [] && objects == [] && contents == []
    {
      while chunks != []
        decreases |chunks|
      {
        chunks := chunks[..|chunks| - 1];
        maybeEmpty := true;
      }
      objects, contents := [], [];
    }

    /** `nfmalloc`: `obstack_alloc`.  An object that was being grown becomes part of it. */
    method Alloc(length: nat, malloc: nat -> nat) returns (p: nat)
      requires Valid() && Allocates(malloc, chunks)
      modifies this
      ensures Valid() && Growing() == [] && |objects| == |old(objects)| + 1 && objects[..|objects| - 1] == old(objects)
      ensures objects[|objects| - 1].addr == p && objects[|objects| - 1].size == |old(Growing())| + length
      ensures |contents| == |old(contents)| + 1 && contents[..|contents| - 1] == old(contents)
      ensures old(Growing()) <= contents[|contents| - 1]
    {
      hide ChunksOk, ObjectsOk, Disjoint, AlignUp, TopOk, Intact, Allocates;
      Blank(length, malloc);
      p := Finish();
    }

    /** `nfstrsave` and `nfstrnsave`: `obstack_copy0`. */
    method Copy0(data: seq<int>, malloc: nat -> nat) returns (p: nat)
      requires Valid() && Allocates(malloc, chunks)
      modifies this
      ensures Valid() && Growing() == [] && |objects| == |old(objects)| + 1 && objects[..|objects| - 1] == old(objects)
      ensures objects[|objects| - 1].addr == p && contents == old(contents) + [old(Growing()) + data + [0]]
    {
      hide ChunksOk, ObjectsOk, Disjoint, AlignUp, TopOk, Intact, Allocates;
      Grow0(data, malloc);
      p := Finish();
    }
  }

  /** `memcpy`. */
  function Copied(mem: Memory, from: nat, to: nat, n: nat): Memory {
    (a: nat) => if to <= a < to + n then mem(a - to + from) else mem(a)
  }

  lemma CopiedIs(mem: Memory, from: nat, to: nat, n: nat)
    ensures Bytes(Copied(mem, from, to, n), to, n) == Bytes(mem, from, n)
  { }

  /** Copying the partial object into a new chunk. */
  lemma MovesPartial(objects: seq<Obj>, contents: seq<seq<int>>, chunks: seq<Chunk>, align: nat, mem: Memory, c: Chunk,
                     from: nat, to: nat, n: nat)
    requires align > 0 && ObjectsOk(objects, chunks, align) && Apart(c, chunks) && c.addr <= to && to + n <= c.limit
    requires Intact(objects, contents, mem)
    ensures Intact(objects, contents, Copied(mem, from, to, n))
    ensures Bytes(Copied(mem, from, to, n), to, n) == Bytes(mem, from, n)
  { }

  function Stored(mem: Memory, at: nat, data: seq<int>): Memory {
    (a: nat) => if at <= a < at + |data| then data[a - at] else mem(a)
  }

  lemma StoredBytes(mem: Memory, base: nat, at: nat, data: seq<int>)
    requires base <= at
    ensures Bytes(Stored(mem, at, data), base, at - base + |data|) == Bytes(mem, base, at - base) + data
    ensures forall a: nat :: !(at <= a < at + |data|) ==> Stored(mem, at, data)(a) == mem(a)
  { }

  lemma BytesPrefix(mem: Memory, base: nat, n: nat, more: nat)
    ensures Bytes(mem, base, n) <= Bytes(mem, base, n + more)
  { }

  lemma TopGrows(objects: seq<Obj>, chunks: seq<Chunk>, align: nat, base: nat, next: nat, next': nat, maybeEmpty: bool)
    requires align > 0 && TopOk(objects, chunks, align, base, next, maybeEmpty)
    requires next <= next' <= chunks[|chunks| - 1].limit
    ensures TopOk(objects, chunks, align, base, next', maybeEmpty)
  { }

  lemma IsPlaced(objects: seq<Obj>, chunks: seq<Chunk>, align: nat, i: nat)
    requires align > 0 && ObjectsOk(objects, chunks, align) && i < |objects|
    ensures Placed(objects[i], chunks, align) && objects[i].home < |chunks|
  { }

  lemma TopChunk(objects: seq<Obj>, chunks: seq<Chunk>, align: nat, base: nat, next: nat, maybeEmpty: bool)
    requires align > 0 && TopOk(objects, chunks, align, base, next, maybeEmpty)
    ensures chunks != [] && base <= next
  { }

  lemma SoundTop(chunks: seq<Chunk>, align: nat, objects: seq<Obj>, contents: seq<seq<int>>, base: nat, next: nat,
                 maybeEmpty: bool, mem: Memory)
    requires align > 0 && Sound(chunks, align, objects, contents, base, next, maybeEmpty, mem)
    ensures chunks != [] && base <= next <= Limit(chunks)
    ensures ChunksOk(chunks, align) && ObjectsOk(objects, chunks, align) && Intact(objects, contents, mem)
    ensures TopOk(objects, chunks, align, base, next, maybeEmpty)
  { }

  lemma MoveSound(chunks: seq<Chunk>, rest: seq<Chunk>, align: nat, objects: seq<Obj>, contents: seq<seq<int>>, base: nat,
                  next: nat, maybeEmpty: bool, mem: Memory, c: Chunk)
    requires align > 0 && Sound(chunks, align, objects, contents, base, next, maybeEmpty, mem) && Apart(c, chunks)
    requires base <= next && First(c, align) + (next - base) <= c.limit
    requires rest == chunks || (chunks != [] && rest == chunks[..|chunks| - 1])
    requires rest != chunks ==> forall i :: 0 <= i < |objects| ==> objects[i].home < |chunks| - 1
    ensures var to := First(c, align);
      Sound(rest + [c], align, objects, contents, to, to + (next - base), false, Copied(mem, base, to, next - base))
    ensures OnTop(chunks, rest + [c], objects) && Limit(rest + [c]) == c.limit
  {
    hide AlignUp, ChunksOk, ObjectsOk, Apart, Intact, Copied, TopOk;
    SoundTop(chunks, align, objects, contents, base, next, maybeEmpty, mem);
    var to := First(c, align);
    MovesPartial(objects, contents, chunks, align, mem, c, base, to, next - base);
    if rest != chunks { PopChunk(objects, chunks, align, c); }
    PushChunk(objects, rest, align, c, to + (next - base));
  }

  lemma FinishSound(chunks: seq<Chunk>, align: nat, objects: seq<Obj>, contents: seq<seq<int>>, base: nat, next: nat, next': nat,
                    maybeEmpty: bool, mem: Memory)
    requires align > 0 && Sound(chunks, align, objects, contents, base, next, maybeEmpty, mem)
    requires next <= next' <= Limit(chunks) && (Aligned(next', align) || next' == Limit(chunks))
    ensures base <= next && Sound(chunks, align, objects + [Obj(base, next - base, |chunks| - 1)],
      contents + [Bytes(mem, base, next - base)], next', next', maybeEmpty || next == base, mem)
    ensures Aligned(base, align) || next == base
  {
    SoundTop(chunks, align, objects, contents, base, next, maybeEmpty, mem);
    hide ChunksOk, ObjectsOk, Aligned, AlignUp;
    PushObject(objects, chunks, align, base, next, next', maybeEmpty);
  }
}
