/** Which requests to the allocator of pool/ come back, and what they leave on its free stores, told from the
    state before the request.  What can fail to come back is a search of the list of big chunks and a take from the
    ring of 64K chunks. */
module Shelves {
  import opened Wrappers
  import opened Extents
  import opened ChunkSpace
  import opened BigFree
  import opened SmallFree

  const BIG_REQUEST := 4096     // requests from here on use the big chunk, mirco_mempage_heap.cpp:92

  datatype Micro = Micro(chunk: int, small: int)

  // The current chunk of one place: `big` tells which of the two.
  function Current(m: Micro, big: bool): int { if big then m.chunk else m.small }

  function WithCurrent(m: Micro, big: bool, c: int): Micro { if big then m.(chunk := c) else m.(small := c) }

  // Line 24 of mirco_mempage_heap.cpp: twice the request with its headers, rounded up to 64K.
  function ChunkFor(size: int): int {
    ((size + CHUNK_HEADER + BLOCK_HEADER) * 2 + CHUNK_SIZE - 1) / CHUNK_SIZE * CHUNK_SIZE
  }

  // The size of the chunk that replaces one the request does not fit in.
  function Wanted(h: Header, big: bool, size: int): int {
    if !big then CHUNK_SIZE else if ChunkFor(size) <= h.size then h.size else ChunkFor(size)
  }

  /** A big chunk is replaced by one of its own size, or of the least multiple of 64K that holds the request with its
      headers twice, whichever is more; a small one by 64K, which holds any small request. */
  lemma WantedHasRoom(h: Header, big: bool, size: int)
    requires h.size % CHUNK_SIZE == 0 && size >= 0
    ensures var wanted, twice := Wanted(h, big, size), 2 * (CHUNK_HEADER + BLOCK_HEADER + size);
      && wanted % CHUNK_SIZE == 0
      && (big ==> h.size <= wanted && twice <= wanted && (wanted == h.size || wanted < twice + CHUNK_SIZE))
      && (!big ==> wanted == CHUNK_SIZE && (size < BIG_REQUEST ==> twice <= wanted))
  {
    var n := 2 * (CHUNK_HEADER + BLOCK_HEADER + size);
    assert n <= ChunkFor(size) < n + CHUNK_SIZE;
  }

  const TABLE_ENTRY := 8          // sizeof(struct chunk *)
  const MICRO_HEAP := 32          // sizeof(struct mirco_mempage_heap)

  // What n bytes take of a chunk.
  function Footprint(n: nat): nat { BLOCK_HEADER + n }

  /** The heap's own chunk of 64K holds its `own` bytes, the micro heaps, the three tables of `_create_mempage_heap`,
      and the bigger table that may come once. */
  predicate OwnChunkSuffices(own: nat, processors: nat) {
    CHUNK_HEADER + Footprint(own) + Footprint(MICRO_HEAP * processors) + 3 * Footprint(TABLE_ENTRY * ROOM)
      + Footprint(TABLE_ENTRY * 2 * ROOM) <= CHUNK_SIZE
  }

  /** Then the table of the list is big enough after it has been enlarged once. */
  lemma OwnChunkIsEnough(own: nat, processors: nat)
    requires OwnChunkSuffices(own, processors)
    ensures IsCapacity(ROOM, processors)
  {
  }

  // ---------------------------------------------------------------- the free stores

  // The ring of 64K chunks, and the list of bigger ones in its array.
  datatype Shelf = Shelf(ring: Ring, listed: seq<Extent>, capacity: nat)

  predicate ShelfOk(sh: Shelf, processors: nat) {
    Sorted(sh.listed) && |sh.listed| <= sh.capacity && IsCapacity(sh.capacity, processors)
  }

  // Another chunk can be put back, whatever its size, without losing one.
  predicate Spacious(sh: Shelf) {
    |sh.listed| <= ROOM && HasRoom(sh.ring)
  }

  // Two can.
  predicate Roomy(sh: Shelf) {
    |sh.listed| < ROOM && HasRoom(sh.ring) && sh.ring.slots[Next(sh.ring.freeSlide)].None?
  }

  /** `_chunk`: the ring is asked first for 64K, then the list. */
  function Got(sh: Shelf, size: int, processors: nat): (Taken, Shelf) {
    if size <= CHUNK_SIZE && RingTaken(sh.ring).0 != Nothing then
      (RingTaken(sh.ring).0, sh.(ring := RingTaken(sh.ring).1))
    else GotBig(sh, if size > CHUNK_SIZE then size else CHUNK_SIZE, processors)
  }

  function GotBig(sh: Shelf, size: int, processors: nat): (Taken, Shelf) {
    var (r, ys) := TakenList(sh.listed, size, processors);
    (r, sh.(listed := ys))
  }

  /** `_recover_chunk`. */
  function PutBack(sh: Shelf, e: Extent, processors: nat): Option<Shelf> {
    if e.size <= CHUNK_SIZE then Some(sh.(ring := RingPut(sh.ring, e)))
    else match RecoveredList(sh.listed, sh.capacity, processors, e)
      case None => None
      case Some(ys) => Some(Shelf(sh.ring, ys, CapacityAfter(sh.listed, sh.capacity, processors)))
  }

  function PutThenGot(sh: Shelf, e: Extent, wanted: int, processors: nat): (Taken, Shelf) {
    match PutBack(sh, e, processors)
    case None => (NeverReturns, sh)
    case Some(sh1) => Got(sh1, wanted, processors)
  }

  /** With at most five entries on the list a take can only wait at the ring. */
  lemma GotKeepsShelf(sh: Shelf, size: int, processors: nat)
    requires ShelfOk(sh, processors)
    ensures |sh.listed| <= 5 ==> (Got(sh, size, processors).0 == NeverReturns <==> size <= CHUNK_SIZE && Waits(sh.ring))
    ensures var sh1 := Got(sh, size, processors).1;
      ShelfOk(sh1, processors) && |sh1.listed| <= |sh.listed| && (Spacious(sh) ==> Spacious(sh1))
  {
    ShortListsAreTakenFrom(sh.listed, if size > CHUNK_SIZE then size else CHUNK_SIZE, processors);
  }

  /** What `_chunk` does about the free stores, told from them alone: for 64K, while the indices of the ring differ, it
      is the slot after the first of them that decides; otherwise the ring stays as it is and the tightest chunk that
      is on offer and big enough leaves the list, which is coalesced if it has none. */
  ghost predicate Chosen(sh: Shelf, size: int, processors: nat, r: Taken, sh': Shelf) {
    if size <= CHUNK_SIZE && sh.ring.allocSlide != sh.ring.freeSlide then
      var k := Next(sh.ring.allocSlide);
      match sh.ring.slots[k]
      case None => r == NeverReturns
      case Some(e) =>
        r == Chunk(e) && sh' == sh.(ring := RingState(sh.ring.slots[k := None], k, sh.ring.freeSlide))
    else
      var least := if size > CHUNK_SIZE then size else CHUNK_SIZE;
      && (r == NeverReturns <==> TakeHangs(sh.listed, least, processors))
      && (r != NeverReturns ==> sh'.ring == sh.ring && sh'.capacity == sh.capacity)
      && TightlyTaken(Offered(sh.listed, least, processors), least, r, sh'.listed)
  }

  lemma GotIsChosen(sh: Shelf, size: int, processors: nat)
    requires ShelfOk(sh, processors)
    ensures Chosen(sh, size, processors, Got(sh, size, processors).0, Got(sh, size, processors).1)
  {
    var least := if size > CHUNK_SIZE then size else CHUNK_SIZE;
    TakesTightly(sh.listed, least, processors);
    TakeHangsIff(sh.listed, least, processors);
  }

  lemma PutBackKeepsShelf(sh: Shelf, e: Extent, processors: nat)
    requires ShelfOk(sh, processors)
    ensures |sh.listed| <= 5 ==> PutBack(sh, e, processors).Some?
    ensures PutBack(sh, e, processors).Some? ==> var sh1 := PutBack(sh, e, processors).value;
      ShelfOk(sh1, processors) && |sh1.listed| <= |sh.listed| + 1 && (Roomy(sh) ==> Spacious(sh1))
  {
    ShortListsTakeMore(sh.listed, sh.capacity, processors, e);
    GrowsOnce(sh.listed, sh.capacity, processors);
    MergedListIsSorted(sh.listed, processors);
    InsertedIsSorted(sh.listed, e);
    if MergedList(sh.listed, processors).Some? { InsertedIsSorted(MergedList(sh.listed, processors).value, e); }
  }

  // ---------------------------------------------------------------- requests

  // What a request depends on, beside the operating system.
  datatype Snapshot = Snapshot(shelf: Shelf, chunks: map<int, Header>, micro: seq<Micro>, busy: seq<bool>,
                               blocks: map<int, Block>)

  datatype Request = Malloc(size: int) | Release(p: int) | Resize(p: int, size: int)

  // The first micro heap whose flag is clear, or how many there are.
  function FirstClear(busy: seq<bool>): (k: nat)
    ensures k <= |busy| && (k < |busy| ==> !busy[k]) && forall j | 0 <= j < k :: busy[j]
  {
    if busy == [] || !busy[0] then 0 else 1 + FirstClear(busy[1..])
  }

  // What a micro heap does about a current chunk `c`, with header `h`, that the request does not fit in.
  function Renewed(sh: Shelf, c: int, h: Header, big: bool, size: int, processors: nat): (Taken, Shelf) {
    if big && ChunkFor(size) > h.size && h.count == 0 then
      PutThenGot(sh, Extent(c, h.size), ChunkFor(size), processors)
    else Got(sh, Wanted(h, big, size), processors)
  }

  function AfterMicro(sh: Shelf, c: int, h: Header, big: bool, size: int, processors: nat): Option<Shelf> {
    if Fits(h, size) then Some(sh)
    else
      var (r, sh1) := Renewed(sh, c, h, big, size, processors);
      if r == NeverReturns then None else Some(sh1)
  }

  // The header of a chunk that has just been taken, or comes from the system.
  function FreshHeader(r: Taken, wanted: int): Header {
    Header(if r.Chunk? then r.chunk.size else wanted, CHUNK_HEADER, 0, 0)
  }

  // The chunk that grants the request unless it is full.
  function Granter(s: Snapshot, size: int): int {
    var k := FirstClear(s.busy);
    if k < |s.micro| then Current(s.micro[k], size >= BIG_REQUEST) else NULL
  }

  function AfterAlloc(s: Snapshot, size: int, processors: nat): Option<Shelf> {
    var c := Granter(s, size);
    if FirstClear(s.busy) >= |s.micro| || c !in s.chunks then Some(s.shelf)
    else AfterMicro(s.shelf, c, s.chunks[c], size >= BIG_REQUEST, size, processors)
  }

  // The chunk a live block is in.
  function HomeOf(s: Snapshot, p: int): Option<Extent> {
    if p in s.blocks && s.blocks[p].chunk in s.chunks then
      Some(Extent(s.blocks[p].chunk, s.chunks[s.blocks[p].chunk].size))
    else None
  }

  // The last block of a chunk that has been given up.
  predicate IsLastOut(s: Snapshot, p: int) {
    && p in s.blocks && s.blocks[p].chunk in s.chunks
    && var h := s.chunks[s.blocks[p].chunk]; h.count == 1 && h.rec == 1
  }

  function AfterFree(s: Snapshot, p: int, processors: nat): Option<Shelf> {
    if IsLastOut(s, p) then PutBack(s.shelf, HomeOf(s, p).value, processors) else Some(s.shelf)
  }

  /** `realloc` leaves the block where it is: it is asked for no more than the header records, or the block ends
      at the slide of its chunk and less than the rest is missing. */
  predicate Stays(s: Snapshot, p: int, size: int) {
    && p in s.blocks && s.blocks[p].chunk in s.chunks
    && var b := s.blocks[p];
    && var h := s.chunks[b.chunk];
    && (b.size >= size || (p + b.size == b.chunk + h.slide && size - b.size < h.size - h.slide))
  }

  // The headers when it has stayed: the slide has moved by what was missing.
  function StayedChunks(s: Snapshot, p: int, size: int): map<int, Header> {
    if p in s.blocks && s.blocks[p].chunk in s.chunks && s.blocks[p].size < size then
      var c := s.blocks[p].chunk;
      s.chunks[c := s.chunks[c].(slide := s.chunks[c].slide + (size - s.blocks[p].size))]
    else s.chunks
  }

  // Alone in a chunk that is given up by the time a block of `size` bytes has been granted.
  predicate IsLastOutAfter(s: Snapshot, p: int, size: int) {
    && p in s.blocks && s.blocks[p].chunk in s.chunks
    && var c := s.blocks[p].chunk;
    && var h := s.chunks[c];
    && h.count == 1 && (h.rec == 1 || (c == Granter(s, size) && !Fits(h, size)))
  }

  function AfterMove(s: Snapshot, p: int, size: int, processors: nat): Option<Shelf> {
    if FirstClear(s.busy) >= |s.micro| then Some(s.shelf)
    else match AfterAlloc(s, size, processors)
      case None => None
      case Some(sh) =>
        if IsLastOutAfter(s, p, size) then PutBack(sh, HomeOf(s, p).value, processors) else Some(sh)
  }

  function AfterRealloc(s: Snapshot, p: int, size: int, processors: nat): Option<Shelf> {
    if size == 0 then AfterFree(s, p, processors)
    else if Stays(s, p, size) then Some(s.shelf)
    else AfterMove(s, p, size, processors)
  }

  /** The micro heap has another chunk in one of its places: the one taken, if one was, with the header `h`, of at
      least `wanted` bytes; the old one is still in use, by its blocks, exactly if it had any, and then its flag is
      up; no other chunk has changed. */
  predicate Replaced(chunks: map<int, Header>, micro: seq<Micro>, k: nat, big: bool, r: Taken, wanted: int, h: Header,
                     chunks': map<int, Header>, micro': seq<Micro>)
    requires k < |micro|
  {
    && |micro'| == |micro|
    && var c0, c := Current(micro[k], big), Current(micro'[k], big);
    && micro' == micro[k := WithCurrent(micro[k], big, c)] && (r.Chunk? ==> c == r.chunk.addr)
    && c in chunks' && chunks'[c] == h && wanted <= h.size && (c !in chunks || c == c0)
    && c0 in chunks && (chunks[c0].count > 0 <==> c != c0 && c0 in chunks')
    && (chunks[c0].count > 0 ==> chunks'[c0] == chunks[c0].(rec := 1))
    && (forall d | d in chunks && d != c0 :: d in chunks' && chunks'[d] == chunks[d])
  }

  /** What a micro heap does about its current chunk, and where it grants the request: it keeps a chunk the
      request fits in and grants the stretch at its slide; it replaces any other by one that is no smaller, and
      for a big request no smaller than twice what it takes, and grants the first stretch of that.  `r` tells
      whether that one was free before. */
  predicate CurrentAfter(chunks: map<int, Header>, micro: seq<Micro>, k: nat, big: bool, size: int, r: Taken,
                         chunks': map<int, Header>, micro': seq<Micro>, p: int, b: Block)
    requires k < |micro| == |micro'|
  {
    var c := Current(micro[k], big);
    && c in chunks && b == Block(Current(micro'[k], big), size) &&
    var h := chunks[c];
    if Fits(h, size) then
      micro' == micro && p == c + Start(h) + BLOCK_HEADER && chunks' == chunks[c := Bumped(h, size)]
    else
      && Replaced(chunks, micro, k, big, r, Wanted(h, big, size), Bumped(FreshHeader(r, Wanted(h, big, size)), size),
                  chunks', micro')
      && p == b.chunk + CHUNK_HEADER + BLOCK_HEADER
  }

  // What the request takes from the free stores, if it needs another chunk.
  function TakenFor(s: Snapshot, size: int, processors: nat): Taken {
    var c := Granter(s, size);
    if c in s.chunks then Renewed(s.shelf, c, s.chunks[c], size >= BIG_REQUEST, size, processors).0 else Nothing
  }

  // ---------------------------------------------------------------- what a request does

  ghost predicate Allocated(s: Snapshot, t: Snapshot, size: int, processors: nat) {
    && AfterAlloc(s, size, processors) == Some(t.shelf) && t.busy == s.busy && |t.micro| == |s.micro|
    && if FirstClear(s.busy) >= |s.micro| then t == s
       else exists p :: p in t.blocks && GrantedAt(s, t, p, size, processors)
  }

  predicate GrantedAt(s: Snapshot, t: Snapshot, p: int, size: int, processors: nat)
    requires p in t.blocks && |t.micro| == |s.micro| && FirstClear(s.busy) < |s.micro|
  {
    && p !in s.blocks && t.blocks == s.blocks[p := t.blocks[p]]
    && CurrentAfter(s.chunks, s.micro, FirstClear(s.busy), size >= BIG_REQUEST, size, TakenFor(s, size, processors),
                    t.chunks, t.micro, p, t.blocks[p])
  }

  predicate Freed(s: Snapshot, t: Snapshot, p: int, processors: nat) {
    && AfterFree(s, p, processors) == Some(t.shelf) && t.busy == s.busy && t.micro == s.micro
    && p in s.blocks && s.blocks[p].chunk in s.chunks && t.blocks == s.blocks - {p}
    && var c := s.blocks[p].chunk;
    && var h := s.chunks[c];
    && t.chunks == if h.count == 1 && h.rec == 1 then s.chunks - {c} else s.chunks[c := h.(count := h.count - 1)]
  }

  ghost predicate Moved(s: Snapshot, t: Snapshot, p: int, size: int, processors: nat) {
    if FirstClear(s.busy) >= |s.micro| then t == s
    else exists m :: Allocated(s, m, size, processors) && Freed(m, t, p, processors)
  }

  ghost predicate Reallocated(s: Snapshot, t: Snapshot, p: int, size: int, processors: nat) {
    if size == 0 then Freed(s, t, p, processors)
    else if Stays(s, p, size) then t == s.(chunks := StayedChunks(s, p, size))
    else Moved(s, t, p, size, processors)
  }

  /** The request has been served, from `s` to `t`. */
  ghost predicate Served(s: Snapshot, request: Request, t: Snapshot, processors: nat) {
    && AfterRequest(s, request, processors) == Some(t.shelf)
    && match request
       case Malloc(size) => if size >= 0 then Allocated(s, t, size, processors) else t == s
       case Release(p) => if p in s.blocks then Freed(s, t, p, processors) else t == s
       case Resize(p, size) => if p in s.blocks && size >= 0 then Reallocated(s, t, p, size, processors) else t == s
  }

  /** The free stores after a request, or None if it never comes back.  What names no live block is ignored. */
  function AfterRequest(s: Snapshot, request: Request, processors: nat): Option<Shelf> {
    match request
    case Malloc(size) => if size >= 0 then AfterAlloc(s, size, processors) else Some(s.shelf)
    case Release(p) => if p in s.blocks then AfterFree(s, p, processors) else Some(s.shelf)
    case Resize(p, size) =>
      if p in s.blocks && size >= 0 then AfterRealloc(s, p, size, processors) else Some(s.shelf)
  }

  // ---------------------------------------------------------------- when requests come back

  // The request needs another 64K chunk.
  predicate AllocAsksRing(s: Snapshot, size: int) {
    && FirstClear(s.busy) < |s.micro| && Granter(s, size) in s.chunks
    && var h := s.chunks[Granter(s, size)];
    && !Fits(h, size) && Wanted(h, size >= BIG_REQUEST, size) <= CHUNK_SIZE
  }

  predicate AsksRing(s: Snapshot, request: Request) {
    match request
    case Malloc(size) => size >= 0 && AllocAsksRing(s, size)
    case Release(_) => false
    case Resize(p, size) => p in s.blocks && size > 0 && !Stays(s, p, size) && AllocAsksRing(s, size)
  }

  lemma BigAsksNoRing(s: Snapshot, size: int)
    requires size >= CHUNK_SIZE
    ensures !AllocAsksRing(s, size)
  {
    assert ChunkFor(size) >= 2 * size;
  }

  // No chunk in use is smaller than 64K.
  ghost predicate Sized(s: Snapshot) {
    forall c | c in s.chunks :: s.chunks[c].size >= CHUNK_SIZE
  }

  lemma ShortShelfAllocates(s: Snapshot, size: int, processors: nat)
    requires ShelfOk(s.shelf, processors)
    ensures Sized(s) && |s.shelf.listed| <= 4 ==>
      (AfterAlloc(s, size, processors).None? <==> AllocAsksRing(s, size) && Waits(s.shelf.ring))
    ensures AfterAlloc(s, size, processors).Some? ==> var sh := AfterAlloc(s, size, processors).value;
      ShelfOk(sh, processors) && |sh.listed| <= |s.shelf.listed| + 1 && (Roomy(s.shelf) ==> Spacious(sh))
  {
    var c := Granter(s, size);
    if c in s.chunks {
      var h := s.chunks[c];
      GotKeepsShelf(s.shelf, Wanted(h, size >= BIG_REQUEST, size), processors);
      PutBackKeepsShelf(s.shelf, Extent(c, h.size), processors);
      if PutBack(s.shelf, Extent(c, h.size), processors).Some? {
        GotKeepsShelf(PutBack(s.shelf, Extent(c, h.size), processors).value, ChunkFor(size), processors);
      }
    }
  }

  lemma ShortShelfFrees(s: Snapshot, p: int, processors: nat)
    requires ShelfOk(s.shelf, processors)
    ensures |s.shelf.listed| <= 5 ==> AfterFree(s, p, processors).Some?
    ensures AfterFree(s, p, processors).Some? ==> var sh := AfterFree(s, p, processors).value;
      ShelfOk(sh, processors) && |sh.listed| <= |s.shelf.listed| + 1
  {
    if IsLastOut(s, p) { PutBackKeepsShelf(s.shelf, HomeOf(s, p).value, processors); }
  }

  lemma ShortShelfReallocs(s: Snapshot, p: int, size: int, processors: nat)
    requires ShelfOk(s.shelf, processors) && p in s.blocks && size >= 0
    ensures Sized(s) && |s.shelf.listed| <= 4 ==>
      (AfterRealloc(s, p, size, processors).None? <==> AsksRing(s, Resize(p, size)) && Waits(s.shelf.ring))
    ensures AfterRealloc(s, p, size, processors).Some? ==> var sh := AfterRealloc(s, p, size, processors).value;
      ShelfOk(sh, processors) && |sh.listed| <= |s.shelf.listed| + 2
  {
    ShortShelfFrees(s, p, processors);
    ShortShelfAllocates(s, size, processors);
    if AfterAlloc(s, size, processors).Some? && HomeOf(s, p).Some? {
      PutBackKeepsShelf(AfterAlloc(s, size, processors).value, HomeOf(s, p).value, processors);
    }
  }

  /** While the list has at most four entries a request fails to come back if and only if it asks the ring for a
      chunk and the ring lets it wait. */
  lemma ShortShelfServes(s: Snapshot, request: Request, processors: nat)
    requires ShelfOk(s.shelf, processors) && Sized(s)
    ensures |s.shelf.listed| <= 4 ==>
      (AfterRequest(s, request, processors).None? <==> AsksRing(s, request) && Waits(s.shelf.ring))
  {
    match request
    case Malloc(size) => ShortShelfAllocates(s, size, processors);
    case Release(p) => ShortShelfFrees(s, p, processors);
    case Resize(p, size) =>
      if p in s.blocks && size >= 0 { ShortShelfReallocs(s, p, size, processors); }
  }

  // ---------------------------------------------------------------- runs

  /** The requests have been served one after the other, from `s` to `t`; `roomy` tells whether before each of them
      two more chunks could have been put back without losing one. */
  ghost predicate Runs(s: Snapshot, requests: seq<Request>, t: Snapshot, roomy: bool, processors: nat)
    decreases |requests|
  {
    if requests == [] then t == s && roomy
    else exists m, rest ::
      && Served(s, requests[0], m, processors) && Runs(m, requests[1..], t, rest, processors)
      && roomy == (rest && Roomy(s.shelf))
  }

  datatype Where = AtRing | AtList

  // The request never comes back.
  predicate Sticks(s: Snapshot, request: Request, place: Where, processors: nat) {
    && AfterRequest(s, request, processors) == None
    && match place
       case AtRing => AsksRing(s, request) && Waits(s.shelf.ring)
       case AtList => |s.shelf.listed| >= 5
  }

  /** One of them never comes back, those before it having been served: it waits at the ring, or the list has at
      least five entries. */
  ghost predicate BreaksOff(s: Snapshot, requests: seq<Request>, place: Where, processors: nat)
    decreases |requests|
  {
    requests != [] &&
    ( || Sticks(s, requests[0], place, processors)
      || exists m :: Served(s, requests[0], m, processors) && BreaksOff(m, requests[1..], place, processors))
  }

  // A request puts two chunks on the list at most.
  lemma ServedKeepsShelf(s: Snapshot, request: Request, t: Snapshot, processors: nat)
    requires ShelfOk(s.shelf, processors) && Served(s, request, t, processors)
    ensures ShelfOk(t.shelf, processors) && |t.shelf.listed| <= |s.shelf.listed| + 2
  {
    match request
    case Malloc(size) => if size >= 0 { ShortShelfAllocates(s, size, processors); }
    case Release(p) => if p in s.blocks { ShortShelfFrees(s, p, processors); }
    case Resize(p, size) =>
      if p in s.blocks && size >= 0 { ShortShelfReallocs(s, p, size, processors); }
  }

  /** A run breaks off at the list only after requests enough to have put five chunks on it. */
  lemma {:induction false} BreaksOffLate(s: Snapshot, requests: seq<Request>, processors: nat)
    requires ShelfOk(s.shelf, processors) && BreaksOff(s, requests, AtList, processors)
    ensures |s.shelf.listed| + 2 * |requests| >= 7
    decreases |requests|
  {
    if !Sticks(s, requests[0], AtList, processors) {
      var m :| Served(s, requests[0], m, processors) && BreaksOff(m, requests[1..], AtList, processors);
      ServedKeepsShelf(s, requests[0], m, processors);
      BreaksOffLate(m, requests[1..], processors);
    }
  }

  lemma LateAtList(s: Snapshot, requests: seq<Request>, place: Where, processors: nat)
    requires ShelfOk(s.shelf, processors) && BreaksOff(s, requests, place, processors)
    ensures |s.shelf.listed| + 2 * |requests| <= 6 ==> place == AtRing
  {
    if place == AtList { BreaksOffLate(s, requests, processors); }
  }

  lemma RunsMore(s: Snapshot, requests: seq<Request>, m: Snapshot, t: Snapshot, rest: bool, processors: nat)
    requires requests != [] && Served(s, requests[0], m, processors) && Runs(m, requests[1..], t, rest, processors)
    ensures Runs(s, requests, t, rest && Roomy(s.shelf), processors)
  {
  }

  lemma BreaksOffLater(s: Snapshot, requests: seq<Request>, m: Snapshot, place: Where, processors: nat)
    requires requests != [] && Served(s, requests[0], m, processors) && BreaksOff(m, requests[1..], place, processors)
    ensures BreaksOff(s, requests, place, processors)
  {
  }
}
