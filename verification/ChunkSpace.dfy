/** Blocks inside chunks: pool/chunk.cpp, run by one thread.

    Memory is addressed by integers.  A chunk in use is known by its address and header; a live block is known
    by the address of its payload and by the header written in front of it.  Sizes are those of a 64-bit
    build, and sums of sizes do not wrap. */
module ChunkSpace {
  import opened Extents

  type Byte = x: int | 0 <= x < 0x100

  const CHUNK_HEADER := 40     // sizeof(struct chunk)
  const BLOCK_HEADER := 16     // sizeof(struct chunk *) + sizeof(size_t)
  const NULL := 0

  // rec: 0 held by a micro heap, 1 given up with live blocks, 2 recovered.
  datatype Header = Header(size: int, slide: int, count: int, rec: int)

  // What the block header in memory says: the chunk and the recorded size.
  datatype Block = Block(chunk: int, size: int)

  function Range(chunks: map<int, Header>, c: int): Extent
    requires c in chunks
  {
    Extent(c, chunks[c].size)
  }

  predicate HeaderOk(h: Header) {
    ChunkSized(h.size) && CHUNK_HEADER <= h.slide <= h.size
  }

  function BlocksOf(blocks: map<int, Block>, c: int): set<int> {
    set p | p in blocks && blocks[p].chunk == c
  }

  ghost predicate ChunksOk(chunks: map<int, Header>) {
    && (forall c | c in chunks :: c > 0 && HeaderOk(chunks[c]))
    && (forall c, d | c in chunks && d in chunks && c != d :: Apart(Range(chunks, c), Range(chunks, d)))
  }

  /** A live block lies between its chunk's header and slide, and its recorded size is not more than what
      has been granted to it. */
  ghost predicate BlockOk(chunks: map<int, Header>, blocks: map<int, Block>, granted: map<int, int>, p: int)
    requires p in blocks && p in granted
  {
    var b := blocks[p];
    && b.chunk in chunks
    && b.chunk + CHUNK_HEADER <= p - BLOCK_HEADER
    && p + granted[p] <= b.chunk + chunks[b.chunk].slide
    && 0 <= b.size <= granted[p]
  }

  // Header and payload of two blocks do not meet.
  predicate BlocksApart(granted: map<int, int>, p: int, q: int)
    requires p in granted && q in granted
  {
    p + granted[p] <= q - BLOCK_HEADER || q + granted[q] <= p - BLOCK_HEADER
  }

  ghost predicate BlocksOk(chunks: map<int, Header>, blocks: map<int, Block>, granted: map<int, int>) {
    && granted.Keys == blocks.Keys
    && (forall p | p in blocks :: BlockOk(chunks, blocks, granted, p))
    && (forall p, q | p in blocks && q in blocks && p != q :: BlocksApart(granted, p, q))
  }

  ghost predicate CountsOk(chunks: map<int, Header>, blocks: map<int, Block>) {
    forall c | c in chunks :: chunks[c].count == |BlocksOf(blocks, c)|
  }

  /** Headers are sound, live blocks do not overlap, and every count is the number of live blocks. */
  ghost predicate SpaceOk(chunks: map<int, Header>, blocks: map<int, Block>, granted: map<int, int>) {
    ChunksOk(chunks) && BlocksOk(chunks, blocks, granted) && CountsOk(chunks, blocks)
  }

  // Where the next block of a chunk would start; an empty chunk starts over.
  function Start(h: Header): int {
    if h.count == 0 then CHUNK_HEADER else h.slide
  }

  // Line 64: header and payload fit.
  predicate Fits(h: Header, size: int) {
    Start(h) + BLOCK_HEADER + size <= h.size
  }

  // The header after a grant.
  function Bumped(h: Header, size: int): Header {
    h.(slide := Start(h) + BLOCK_HEADER + size, count := h.count + 1)
  }

  lemma BlocksOfAdd(blocks: map<int, Block>, p: int, b: Block, c: int)
    requires p !in blocks
    ensures BlocksOf(blocks[p := b], c) == BlocksOf(blocks, c) + (if b.chunk == c then {p} else {})
    ensures |BlocksOf(blocks[p := b], c)| == |BlocksOf(blocks, c)| + (if b.chunk == c then 1 else 0)
  {
  }

  lemma BlocksOfRemove(blocks: map<int, Block>, p: int, c: int)
    requires p in blocks
    ensures BlocksOf(blocks - {p}, c) == BlocksOf(blocks, c) - (if blocks[p].chunk == c then {p} else {})
    ensures |BlocksOf(blocks - {p}, c)| == |BlocksOf(blocks, c)| - (if blocks[p].chunk == c then 1 else 0)
  {
    assert blocks[p].chunk == c ==> p in BlocksOf(blocks, c);
  }

  // A chunk whose count is zero has no block.
  lemma EmptyChunk(chunks: map<int, Header>, blocks: map<int, Block>, c: int)
    requires CountsOk(chunks, blocks) && c in chunks && chunks[c].count == 0
    ensures forall p | p in blocks :: blocks[p].chunk != c
  {
    assert BlocksOf(blocks, c) == {};
    assert forall p | p in blocks :: blocks[p].chunk == c <==> p in BlocksOf(blocks, c);
  }

  // A block stays within its chunk's extent.
  lemma BlocksOfOtherChunks(chunks: map<int, Header>, blocks: map<int, Block>, granted: map<int, int>, p: int, c: int)
    requires ChunksOk(chunks) && BlocksOk(chunks, blocks, granted) && p in blocks && c in chunks && blocks[p].chunk != c
    ensures p + granted[p] <= c || c + chunks[c].size <= p - BLOCK_HEADER
  {
    assert BlockOk(chunks, blocks, granted, p);
    assert Apart(Range(chunks, c), Range(chunks, blocks[p].chunk));
  }

  // The addresses a grant takes: header and payload.
  function Stretch(c: int, h: Header, size: int): Extent {
    Extent(c + Start(h), BLOCK_HEADER + size)
  }

  /** A request fits exactly if its header and payload lie in the chunk; an empty chunk offers all but its header, any
      other what lies behind all its blocks. */
  lemma FitsIff(chunks: map<int, Header>, blocks: map<int, Block>, granted: map<int, int>, c: int, size: int)
    requires SpaceOk(chunks, blocks, granted) && c in chunks && size >= 0
    ensures var stretch := Stretch(c, chunks[c], size);
      && (Fits(chunks[c], size) <==> forall a | Within(stretch, a) :: Within(Range(chunks, c), a))
      && ((forall p | p in blocks :: blocks[p].chunk != c) ==> stretch.addr == c + CHUNK_HEADER)
      && (forall p | p in blocks && blocks[p].chunk == c :: p + granted[p] <= stretch.addr)
  {
    var stretch := Stretch(c, chunks[c], size);
    assert Within(stretch, stretch.addr) && Within(stretch, stretch.addr + BLOCK_HEADER + size - 1);
    forall p | p in blocks && blocks[p].chunk == c
      ensures p + granted[p] <= stretch.addr
    {
      assert p in BlocksOf(blocks, c) && BlockOk(chunks, blocks, granted, p);
    }
    if forall p | p in blocks :: blocks[p].chunk != c { assert BlocksOf(blocks, c) == {}; }
  }

  /** Granting the next stretch of a chunk to a new block keeps everything sound. */
  lemma GrantKeepsSpace(chunks: map<int, Header>, blocks: map<int, Block>, granted: map<int, int>, c: int, size: int)
    requires SpaceOk(chunks, blocks, granted) && c in chunks && size >= 0
    requires Start(chunks[c]) + BLOCK_HEADER + size <= chunks[c].size
    ensures var h := chunks[c];
      var p := c + Start(h) + BLOCK_HEADER;
      && p !in blocks
      && SpaceOk(chunks[c := h.(slide := Start(h) + BLOCK_HEADER + size, count := h.count + 1)],
                 blocks[p := Block(c, size)], granted[p := size])
  {
    var h := chunks[c];
    var p := c + Start(h) + BLOCK_HEADER;
    var chunks' := chunks[c := h.(slide := Start(h) + BLOCK_HEADER + size, count := h.count + 1)];
    forall q | q in blocks
      ensures q != p && (q + granted[q] <= p - BLOCK_HEADER || p + size <= q - BLOCK_HEADER)
    {
      GrantIsApart(chunks, blocks, granted, c, size, q);
    }
    if h.count == 0 { EmptyChunk(chunks, blocks, c); }
    GrantKeepsCounts(chunks, chunks', blocks, c, p, size);
    SameExtents(chunks, chunks');
    GrantKeepsBlocks(chunks, chunks', blocks, granted, c, p, size);
  }

  lemma GrantIsApart(chunks: map<int, Header>, blocks: map<int, Block>, granted: map<int, int>, c: int, size: int,
                     q: int)
    requires SpaceOk(chunks, blocks, granted) && c in chunks && size >= 0 && q in blocks
    requires Start(chunks[c]) + BLOCK_HEADER + size <= chunks[c].size
    ensures var p := c + Start(chunks[c]) + BLOCK_HEADER;
      q != p && (q + granted[q] <= p - BLOCK_HEADER || p + size <= q - BLOCK_HEADER)
  {
    assert BlockOk(chunks, blocks, granted, q) && HeaderOk(chunks[c]);
    if blocks[q].chunk != c {
      BlocksOfOtherChunks(chunks, blocks, granted, q, c);
    } else if chunks[c].count == 0 {
      EmptyChunk(chunks, blocks, c);
    }
  }

  lemma GrantKeepsCounts(chunks: map<int, Header>, chunks': map<int, Header>, blocks: map<int, Block>,
                         c: int, p: int, size: int)
    requires CountsOk(chunks, blocks) && p !in blocks && c in chunks && c in chunks'
    requires chunks' == chunks[c := chunks'[c]] && chunks'[c].count == chunks[c].count + 1
    ensures CountsOk(chunks', blocks[p := Block(c, size)])
  {
    forall d | d in chunks'
      ensures chunks'[d].count == |BlocksOf(blocks[p := Block(c, size)], d)|
    {
      BlocksOfAdd(blocks, p, Block(c, size), d);
    }
  }

  lemma SameExtents(chunks: map<int, Header>, chunks': map<int, Header>)
    requires ChunksOk(chunks) && chunks'.Keys == chunks.Keys
    requires forall c | c in chunks :: chunks'[c].size == chunks[c].size && HeaderOk(chunks'[c])
    ensures ChunksOk(chunks')
  {
    forall c, d | c in chunks' && d in chunks' && c != d
      ensures Apart(Range(chunks', c), Range(chunks', d))
    {
      assert Apart(Range(chunks, c), Range(chunks, d));
    }
  }

  lemma GrantKeepsBlocks(chunks: map<int, Header>, chunks': map<int, Header>, blocks: map<int, Block>,
                         granted: map<int, int>, c: int, p: int, size: int)
    requires BlocksOk(chunks, blocks, granted) && p !in blocks && c in chunks && size >= 0
    requires c in chunks' && chunks' == chunks[c := chunks'[c]]
    requires c + CHUNK_HEADER <= p - BLOCK_HEADER && p + size <= c + chunks'[c].slide
    requires (forall q | q in blocks :: blocks[q].chunk != c) || chunks[c].slide <= chunks'[c].slide
    requires forall q | q in granted :: q + granted[q] <= p - BLOCK_HEADER || p + size <= q - BLOCK_HEADER
    ensures BlocksOk(chunks', blocks[p := Block(c, size)], granted[p := size])
  {
    var blocks', granted' := blocks[p := Block(c, size)], granted[p := size];
    forall q | q in blocks'
      ensures BlockOk(chunks', blocks', granted', q)
    {
      if q != p { assert BlockOk(chunks, blocks, granted, q); }
    }
    forall q, r | q in blocks' && r in blocks' && q != r
      ensures BlocksApart(granted', q, r)
    {
      if q != p && r != p { assert BlocksApart(granted, q, r); }
    }
  }

  /** Growing the last block of a chunk in place keeps everything sound; the block is the last one because
      its recorded end is the slide, and then it has been granted exactly its recorded size. */
  lemma GrowKeepsSpace(chunks: map<int, Header>, blocks: map<int, Block>, granted: map<int, int>, p: int, more: int)
    requires SpaceOk(chunks, blocks, granted) && p in blocks && more >= 0
    requires var h := chunks[blocks[p].chunk];
      p + blocks[p].size == blocks[p].chunk + h.slide && h.slide + more <= h.size
    ensures granted[p] == blocks[p].size
    ensures var c := blocks[p].chunk;
      SpaceOk(chunks[c := chunks[c].(slide := chunks[c].slide + more)], blocks, granted[p := blocks[p].size + more])
  {
    var c := blocks[p].chunk;
    assert BlockOk(chunks, blocks, granted, p);
    var chunks' := chunks[c := chunks[c].(slide := chunks[c].slide + more)];
    var granted' := granted[p := blocks[p].size + more];
    SameExtents(chunks, chunks');
    forall q | q in blocks && q != p
      ensures BlockOk(chunks', blocks, granted', q)
      ensures BlocksApart(granted', q, p) && BlocksApart(granted', p, q)
    {
      assert BlockOk(chunks, blocks, granted, q) && BlocksApart(granted, q, p);
      if blocks[q].chunk != c { BlocksOfOtherChunks(chunks, blocks, granted, q, c); }
    }
    forall q, r | q in blocks && r in blocks && q != r
      ensures BlocksApart(granted', q, r)
    {
      if q != p && r != p { assert BlocksApart(granted, q, r); }
    }
  }

  /** Freeing a block keeps everything sound. */
  lemma FreeKeepsSpace(chunks: map<int, Header>, blocks: map<int, Block>, granted: map<int, int>, p: int)
    requires SpaceOk(chunks, blocks, granted) && p in blocks
    ensures var c := blocks[p].chunk;
      c in chunks && chunks[c].count > 0
      && SpaceOk(chunks[c := chunks[c].(count := chunks[c].count - 1)], blocks - {p}, granted - {p})
  {
    assert BlockOk(chunks, blocks, granted, p);
    var c := blocks[p].chunk;
    var chunks' := chunks[c := chunks[c].(count := chunks[c].count - 1)];
    assert p in BlocksOf(blocks, c);
    forall d | d in chunks'
      ensures chunks'[d].count == |BlocksOf(blocks - {p}, d)|
    {
      BlocksOfRemove(blocks, p, d);
    }
    SameExtents(chunks, chunks');
    forall q | q in blocks - {p}
      ensures BlockOk(chunks', blocks - {p}, granted - {p}, q)
    {
      assert BlockOk(chunks, blocks, granted, q);
    }
    forall q, r | q in blocks - {p} && r in blocks - {p} && q != r
      ensures BlocksApart(granted - {p}, q, r)
    {
      assert BlocksApart(granted, q, r);
    }
  }

  // ---------------------------------------------------------------- bytes

  // The bytes that have been written; what others hold does not matter, and is 0.
  type Memory = map<int, Byte>

  function Peek(mem: Memory, a: int): Byte { if a in mem then mem[a] else 0 }

  // The byte that belongs at `a` when what is at `src` goes to `dst`.
  function Shifted(mem: Memory, dst: int, src: int, a: int): Byte { Peek(mem, a - dst + src) }

  /** memcpy(dst, src, n). */
  function Copied(mem: Memory, dst: int, src: int, n: int): Memory {
    mem + map a | dst <= a < dst + n :: Shifted(mem, dst, src, a)
  }

  // The n bytes at q in mem' are those at p in mem.
  ghost predicate SameBytes(mem: Memory, p: int, mem': Memory, q: int, n: int) {
    forall a | q <= a < q + n :: Peek(mem', a) == Peek(mem, a - q + p)
  }

  /** The functions of chunk.cpp on the chunks in use. */
  class Space {
    var chunks: map<int, Header>
    var blocks: map<int, Block>
    ghost var granted: map<int, int>
    var mem: Memory

    ghost predicate Valid()
      reads this
    {
      SpaceOk(chunks, blocks, granted)
    }

    constructor ()
      ensures Valid() && chunks == map[] && blocks == map[] && granted == map[] && mem == map[]
    {
      chunks, blocks, granted, mem := map[], map[], map[], map[];
    }

    /** `_malloc`: grants a block where the chunk's free part starts, or nothing if it does not fit. */
    method Malloc(c: int, size: int) returns (p: int)
      requires Valid() && c in chunks && size >= 0
      modifies this
      ensures Valid() && mem == old(mem)
      ensures var h := old(chunks[c]);
        if Fits(h, size) then
          && p == c + Start(h) + BLOCK_HEADER && p !in old(blocks)
          && blocks == old(blocks)[p := Block(c, size)] && granted == old(granted)[p := size]
          && chunks == old(chunks)[c := Bumped(h, size)]
        else
          && p == NULL && blocks == old(blocks) && granted == old(granted)
          && chunks == old(chunks)[c := h.(slide := Start(h))]
    {
      var h := chunks[c];
      if h.count == 0 { h := h.(slide := CHUNK_HEADER); }
      p := NULL;
      h := h.(count := h.count + 1);
      var newsize := BLOCK_HEADER + size;
      if h.slide + newsize <= h.size {
        GrantKeepsSpace(chunks, blocks, granted, c, size);
        p := c + h.slide + BLOCK_HEADER;
        h := h.(slide := h.slide + newsize);
        blocks, granted := blocks[p := Block(c, size)], granted[p := size];
      } else {
        RestartKeepsSpace(chunks, blocks, granted, c);
      }
      if p == NULL { h := h.(count := h.count - 1); }
      chunks := chunks[c := h];
    }

    /** `_realloc`.  The last block of a chunk grows in place if strictly less than the free rest is needed; its
        header is not updated.  Asked for less than is recorded, it gives the end of the last block back and
        leaves the header recording more than is granted; its only caller never asks for that. */
    method Extend(p: int, size: int) returns (r: int)
      requires Valid() && p in blocks && size >= 0
      modifies this
      ensures mem == old(mem) && blocks == old(blocks) && (r == p || r == NULL)
      ensures var b := old(blocks[p]);
        var h := old(chunks)[b.chunk];
        var last := p + b.size == b.chunk + h.slide;
        && (Valid() <==> !last || b.size <= size)
        && if last && (size <= b.size || size - b.size < h.size - h.slide) then
             && r == p && granted == old(granted)[p := size]
             && chunks == old(chunks)[b.chunk := h.(slide := h.slide + (size - b.size))]
           else
             && r == (if size <= b.size then p else NULL)
             && chunks == old(chunks) && granted == old(granted)
    {
      assert BlockOk(chunks, blocks, granted, p);
      var c, oldsize := blocks[p].chunk, blocks[p].size;
      var slide := p + oldsize - c;
      if oldsize >= size {
        if slide == chunks[c].slide {
          GrowKeepsSpace(chunks, blocks, granted, p, 0);
          chunks := chunks[c := chunks[c].(slide := slide - (oldsize - size))];
          granted := granted[p := size];
          if size < oldsize { assert !BlockOk(chunks, blocks, granted, p); }
        }
        return p;
      }
      r := NULL;
      if slide == chunks[c].slide {
        var increment := size - oldsize;
        if increment < chunks[c].size - chunks[c].slide {
          Grow(p, increment);
          r := p;
        }
      }
    }

    // `_brk`, for the block that ends at the slide.
    method Grow(p: int, increment: int)
      requires Valid() && p in blocks && increment >= 0
      requires var h := chunks[blocks[p].chunk];
        p + blocks[p].size == blocks[p].chunk + h.slide && h.slide + increment <= h.size
      modifies this`chunks, this`granted
      ensures Valid() && granted == old(granted)[p := blocks[p].size + increment]
      ensures var c := blocks[p].chunk;
        c in old(chunks) && chunks == old(chunks)[c := old(chunks[c]).(slide := old(chunks[c]).slide + increment)]
    {
      GrowKeepsSpace(chunks, blocks, granted, p, increment);
      var c := blocks[p].chunk;
      assert BlockOk(chunks, blocks, granted, p);
      chunks := chunks[c := chunks[c].(slide := chunks[c].slide + increment)];
      granted := granted[p := blocks[p].size + increment];
    }

    /** The first half of `_free`: the block is gone and its chunk has one fewer. */
    method Drop(p: int) returns (c: int)
      requires Valid() && p in blocks
      modifies this
      ensures Valid() && mem == old(mem)
      ensures c == old(blocks[p].chunk) && c in old(chunks)
      ensures blocks == old(blocks) - {p} && granted == old(granted) - {p}
      ensures chunks == old(chunks)[c := old(chunks)[c].(count := old(chunks)[c].count - 1)]
    {
      FreeKeepsSpace(chunks, blocks, granted, p);
      c := blocks[p].chunk;
      chunks := chunks[c := chunks[c].(count := chunks[c].count - 1)];
      blocks, granted := blocks - {p}, granted - {p};
    }

    /** Lines 125-129 of `_chunk`: a chunk that is not in use gets a fresh header. */
    method Adopt(c: int, size: int)
      requires Valid() && c !in chunks && ChunksOk(chunks[c := Header(size, CHUNK_HEADER, 0, 0)])
      modifies this`chunks
      ensures Valid() && chunks == old(chunks)[c := Header(size, CHUNK_HEADER, 0, 0)]
    {
      forall p | p in blocks
        ensures blocks[p].chunk in chunks
      {
        assert BlockOk(chunks, blocks, granted, p);
      }
      forall p | p in blocks
        ensures BlockOk(chunks[c := Header(size, CHUNK_HEADER, 0, 0)], blocks, granted, p)
      {
        assert BlockOk(chunks, blocks, granted, p);
      }
      assert BlocksOf(blocks, c) == {};
      chunks := chunks[c := Header(size, CHUNK_HEADER, 0, 0)];
    }

    /** An empty chunk leaves the chunks in use. */
    method Discard(c: int)
      requires Valid() && c in chunks && chunks[c].count == 0
      modifies this`chunks
      ensures Valid() && chunks == old(chunks) - {c}
    {
      EmptyChunk(chunks, blocks, c);
      forall p | p in blocks
        ensures BlockOk(chunks - {c}, blocks, granted, p)
      {
        assert BlockOk(chunks, blocks, granted, p);
      }
      forall d, e | d in chunks - {c} && e in chunks - {c} && d != e
        ensures Apart(Range(chunks - {c}, d), Range(chunks - {c}, e))
      {
        assert Apart(Range(chunks, d), Range(chunks, e));
      }
      chunks := chunks - {c};
    }

    /** rec_flag.store(rec). */
    method SetRec(c: int, rec: int)
      requires Valid() && c in chunks
      modifies this`chunks
      ensures Valid() && chunks == old(chunks)[c := old(chunks)[c].(rec := rec)]
    {
      var chunks' := chunks[c := chunks[c].(rec := rec)];
      SameExtents(chunks, chunks');
      forall p | p in blocks
        ensures BlockOk(chunks', blocks, granted, p)
      {
        assert BlockOk(chunks, blocks, granted, p);
      }
      chunks := chunks';
    }

    // The owner of a block writes to it.
    method Poke(a: int, x: Byte)
      modifies this`mem
      ensures mem == old(mem)[a := x]
    {
      mem := mem[a := x];
    }

    // memcpy between two live blocks.
    method Copy(dst: int, src: int, n: int)
      modifies this`mem
      ensures mem == Copied(old(mem), dst, src, n)
    {
      mem := Copied(mem, dst, src, n);
    }
  }

  lemma RestartKeepsSpace(chunks: map<int, Header>, blocks: map<int, Block>, granted: map<int, int>, c: int)
    requires SpaceOk(chunks, blocks, granted) && c in chunks
    ensures SpaceOk(chunks[c := chunks[c].(slide := Start(chunks[c]))], blocks, granted)
  {
    if chunks[c].count == 0 { EmptyChunk(chunks, blocks, c); }
    var chunks' := chunks[c := chunks[c].(slide := Start(chunks[c]))];
    SameExtents(chunks, chunks');
    forall q | q in blocks
      ensures BlockOk(chunks', blocks, granted, q)
    {
      assert BlockOk(chunks, blocks, granted, q);
    }
  }
}
