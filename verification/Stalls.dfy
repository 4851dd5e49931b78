/** Two runs of requests to a new heap of pool/ that lead to a request that never comes back: one at the list of big
    chunks, one at the ring of 64K chunks. */
module Stalls {
  import opened Wrappers
  import opened Extents
  import opened ChunkSpace
  import opened BigFree
  import opened SmallFree
  import opened Shelves
  import opened PoolHeap

  // ---------------------------------------------------------------- at the list

  // The chunks one micro heap goes through, in units of 64K: each twice as big and one more.
  function Units(i: nat): nat { if i == 0 then 4 else 2 * Units(i - 1) + 1 }

  // Requests that do not fit in the chunk before.
  function Ask(i: nat): nat { if i == 0 then 100000 else Units(i - 1) * CHUNK_SIZE }

  lemma {:induction false} UnitsGrow(i: nat, j: nat)
    requires i < j
    ensures 4 <= Units(i) < Units(j)
    decreases j
  {
    if i < j - 1 {
      UnitsGrow(i, j - 1);
    } else {
      UnitsPositive(i);
    }
  }

  lemma {:induction false} UnitsPositive(i: nat)
    ensures Units(i) >= 4
  {
    if i > 0 { UnitsPositive(i - 1); }
  }

  lemma AsksForTheNext(i: nat)
    requires i > 0
    ensures ChunkFor(Ask(i)) == Units(i) * CHUNK_SIZE && Ask(i) >= BIG_REQUEST && Ask(i) >= CHUNK_SIZE
  {
    UnitsPositive(i - 1);
    Rounded(Units(i - 1));
  }

  lemma Rounded(u: nat)
    ensures ChunkFor(u * CHUNK_SIZE) == (2 * u + 1) * CHUNK_SIZE
  {
    var n := (u * CHUNK_SIZE + CHUNK_HEADER + BLOCK_HEADER) * 2 + CHUNK_SIZE - 1;
    assert n == (2 * u + 1) * 65536 + 111;
    assert n / 65536 == 2 * u + 1;
  }

  // The header of such a chunk, with the block it was taken for.
  function Storey(i: nat, rec: int): Header {
    Header(Units(i) * CHUNK_SIZE, CHUNK_HEADER + BLOCK_HEADER + Ask(i), 1, rec)
  }

  function Payload(c: int): int { c + CHUNK_HEADER + BLOCK_HEADER }

  // The i-th of them is in use by its block.
  predicate Stands(s: Snapshot, c: int, i: nat, rec: int) {
    && c in s.chunks && s.chunks[c] == Storey(i, rec)
    && Payload(c) in s.blocks && s.blocks[Payload(c)] == Block(c, Ask(i))
  }

  // The first micro heap is free, nothing is on the list.
  predicate Ready(s: Snapshot) {
    && |s.micro| == |s.busy| > 0 && !s.busy[0] && s.shelf.capacity == ROOM
  }

  /** A micro heap that has gone through the chunks at `at`; all but the last have been given up. */
  ghost predicate Tower(s: Snapshot, at: seq<int>) {
    && Ready(s) && s.shelf.listed == [] && at != [] && s.micro[0].chunk == at[|at| - 1]
    && (forall i, j | 0 <= i < j < |at| :: at[i] != at[j])
    && forall i | 0 <= i < |at| :: Stands(s, at[i], i, if i < |at| - 1 then 1 else 0)
  }

  lemma TowerAsks(s: Snapshot, at: seq<int>, processors: nat)
    requires Tower(s, at)
    ensures var size := Ask(|at|);
      && FirstClear(s.busy) == 0 && Granter(s, size) == at[|at| - 1] && size >= BIG_REQUEST
      && !Fits(s.chunks[at[|at| - 1]], size) && Wanted(s.chunks[at[|at| - 1]], true, size) == Units(|at|) * CHUNK_SIZE
      && TakenFor(s, size, processors) == Nothing && AfterAlloc(s, size, processors) == Some(s.shelf)
  {
    var n := |at|;
    AsksForTheNext(n);
    UnitsGrow(n - 1, n);
    assert Stands(s, at[n - 1], n - 1, 0);
    assert Got(s.shelf, Units(n) * CHUNK_SIZE, processors) == (Nothing, s.shelf);
  }

  /** The next request adds a chunk. */
  lemma TowerGrows(s: Snapshot, at: seq<int>, t: Snapshot, processors: nat)
    requires Tower(s, at) && Served(s, Malloc(Ask(|at|)), t, processors)
    ensures Tower(t, at + [t.micro[0].chunk])
  {
    var n, c := |at|, t.micro[0].chunk;
    TowerAsks(s, at, processors);
    var p :| p in t.blocks && GrantedAt(s, t, p, Ask(n), processors);
    assert Stands(s, at[n - 1], n - 1, 0);
    var at' := at + [c];
    forall i | 0 <= i < n
      ensures c != at[i] && Stands(t, at[i], i, 1)
    {
      assert Stands(s, at[i], i, if i < n - 1 then 1 else 0);
    }
  }

  lemma TowerStarts(s: Snapshot, t: Snapshot, processors: nat)
    requires Ready(s) && s.shelf.listed == [] && s.micro[0].chunk in s.chunks
    requires s.chunks[s.micro[0].chunk] == Header(4 * CHUNK_SIZE, CHUNK_HEADER, 0, 0)
    requires Served(s, Malloc(Ask(0)), t, processors)
    ensures Tower(t, [t.micro[0].chunk])
  {
    var p :| p in t.blocks && GrantedAt(s, t, p, Ask(0), processors);
    assert Stands(t, t.micro[0].chunk, 0, 0);
  }

  // What the chunks up to the m-th in `order` make on the list.
  function Fallen(at: seq<int>, order: seq<nat>, m: nat): (xs: seq<Extent>)
    requires m <= |order| && forall j | 0 <= j < |order| :: order[j] < |at|
    ensures |xs| == m && forall j | 0 <= j < m :: xs[j] == Extent(at[order[j]], Units(order[j]) * CHUNK_SIZE)
  {
    seq(m, j requires 0 <= j < m => Extent(at[order[j]], Units(order[j]) * CHUNK_SIZE))
  }

  predicate Upwards(order: seq<nat>, n: nat) {
    (forall j | 0 <= j < |order| :: order[j] < n) && forall j, k | 0 <= j < k < |order| :: order[j] < order[k]
  }

  /** The blocks of the first m chunks in `order` have been freed, which never names the last chunk. */
  ghost predicate Felled(s: Snapshot, at: seq<int>, order: seq<nat>, m: nat) {
    && Ready(s) && at != [] && Upwards(order, |at| - 1) && m <= |order| < ROOM
    && s.shelf.listed == Fallen(at, order, m)
    && (forall i, j | 0 <= i < j < |at| :: at[i] != at[j])
    && forall i: nat | i < |at| && i !in order[..m] :: Stands(s, at[i], i, if i < |at| - 1 then 1 else 0)
  }

  lemma NotYetFelled(order: seq<nat>, n: nat, m: nat)
    requires Upwards(order, n) && m < |order|
    ensures order[m] !in order[..m]
  {
  }

  lemma FallenIsSorted(at: seq<int>, order: seq<nat>, m: nat)
    requires Upwards(order, |at|) && m <= |order|
    ensures Sorted(Fallen(at, order, m))
    ensures m < |order| ==> forall e | e in Fallen(at, order, m) :: e.size < Units(order[m]) * CHUNK_SIZE
  {
    var xs := Fallen(at, order, m);
    forall i, j | 0 <= i < j < m
      ensures xs[i].size <= xs[j].size
    {
      UnitsGrow(order[i], order[j]);
    }
    if m < |order| {
      forall i | 0 <= i < m
        ensures xs[i].size < Units(order[m]) * CHUNK_SIZE
      {
        UnitsGrow(order[i], order[m]);
      }
    }
  }

  lemma LargestGoesLast(xs: seq<Extent>, c: Extent)
    requires Sorted(xs) && forall e | e in xs :: e.size < c.size
    ensures Inserted(xs, c) == Some(xs + [c])
  {
    assert forall i | 0 <= i < |xs| :: xs[i] in xs;
    ExtremeRequestsReturn(xs, c.size);
    SearchAnswers(xs, c.size);
    assert Insert(xs, |xs|, c) == xs + [c];
  }

  lemma FellingComesBack(s: Snapshot, at: seq<int>, order: seq<nat>, m: nat, processors: nat)
    requires Felled(s, at, order, m) && m < |order|
    ensures var p := Payload(at[order[m]]);
      && IsLastOut(s, p) && s.blocks[p].chunk == at[order[m]]
      && AfterRequest(s, Release(p), processors) == Some(s.shelf.(listed := Fallen(at, order, m + 1)))
  {
    var i := order[m];
    NotYetFelled(order, |at| - 1, m);
    assert Stands(s, at[i], i, 1);
    UnitsPositive(i);
    FallenIsSorted(at, order, m);
    LargestGoesLast(s.shelf.listed, Extent(at[i], Units(i) * CHUNK_SIZE));
    assert s.shelf.listed + [Extent(at[i], Units(i) * CHUNK_SIZE)] == Fallen(at, order, m + 1);
  }

  /** The next free adds a chunk to the end of the list. */
  lemma FellingGoesOn(s: Snapshot, at: seq<int>, order: seq<nat>, m: nat, t: Snapshot, processors: nat)
    requires Felled(s, at, order, m) && m < |order|
    requires Served(s, Release(Payload(at[order[m]])), t, processors)
    ensures Felled(t, at, order, m + 1)
  {
    FellingComesBack(s, at, order, m, processors);
    assert order[..m + 1] == order[..m] + [order[m]];
    forall i: nat | i < |at| && i !in order[..m + 1]
      ensures Stands(t, at[i], i, if i < |at| - 1 then 1 else 0)
    {
      assert i !in order[..m];
      assert Stands(s, at[i], i, if i < |at| - 1 then 1 else 0);
      assert at[i] != at[order[m]];
    }
  }

  function AllButTheThird(): (order: seq<nat>)
    ensures |order| == 6 && Upwards(order, 7) && 2 !in order
  {
    [0, 1, 3, 4, 5, 6]
  }

  /** With the chunks of 4, 9, 39, 79, 159 and 319 units on the list the one of 19 is never given a place. */
  lemma TheThirdHangs(s: Snapshot, at: seq<int>, processors: nat)
    requires |at| == 8 && Felled(s, at, AllButTheThird(), 6)
    ensures IsLastOut(s, Payload(at[2])) && s.blocks[Payload(at[2])].size == 589824 && |s.shelf.listed| == 6
    ensures AfterRequest(s, Release(Payload(at[2])), processors) == None
  {
    var order := AllButTheThird();
    var c := Extent(at[2], Units(2) * CHUNK_SIZE);
    assert Stands(s, at[2], 2, 1);
    FallenIsSorted(at, order, 6);
    UnitsGrow(1, 2);
    UnitsGrow(2, 3);
    SearchCanSpin(s.shelf.listed, c.size);
    InsertedIsSorted(s.shelf.listed, c);
  }

  // ---------------------------------------------------------------- a heap that gets there

  // The operating system's memory is apart from the heap's and handed out once.
  ghost predicate Running(heap: MempageHeap, world: int -> int -> int, k: nat)
    reads heap, heap.ring, heap.ring.slots, heap.space, heap.big, heap.big.bigfree
  {
    heap.Valid() && heap.FreshFrom(world, k) && NeverTwice(world)
  }

  method NewHeap(places: seq<Micro>, ghost own: nat, world: int -> int -> int) returns (heap: MempageHeap)
    requires FreshPlaces(places) && |places| > 0 && OwnChunkSuffices(own, |places|) && OsBeside(places, world)
    ensures fresh(heap) && fresh(heap.ring) && fresh(heap.ring.slots) && fresh(heap.space) && fresh(heap.big)
    ensures fresh(heap.big.bigfree) && fresh(heap.big.tmpchunk)
    ensures Running(heap, world, 0) && Ready(heap.Now()) && heap.OnShelf() == Shelf(NewRing(), [], ROOM)
    ensures heap.micro == places && heap.Processors() == |places|
    ensures places[0].chunk in heap.space.chunks && places[0].small in heap.space.chunks
    ensures heap.space.chunks[places[0].chunk] == Header(4 * CHUNK_SIZE, CHUNK_HEADER, 0, 0)
    ensures heap.space.chunks[places[0].small] == Header(CHUNK_SIZE, CHUNK_HEADER, 0, 0)
  {
    heap := new MempageHeap(places, own);
    forall j | 0 <= j
      ensures heap.Fresh(world(j))
    {
      BesideIsFresh(places, world, heap.space.chunks, j);
    }
    FirstChunks(places, heap.space.chunks);
  }

  method AddStorey(heap: MempageHeap, at: seq<int>, world: int -> int -> int, k: nat) returns (at': seq<int>)
    requires Running(heap, world, k) && Tower(heap.Now(), at)
    modifies heap, heap.ring, heap.ring.slots, heap.space, heap.big`slide, heap.big`bigfree, heap.big.bigfree,
      heap.big.tmpchunk
    ensures heap.big.bigfree == old(heap.big.bigfree) || fresh(heap.big.bigfree)
    ensures Running(heap, world, k + 1) && Tower(heap.Now(), at') && |at'| == |at| + 1
  {
    ghost var s := heap.Now();
    TowerAsks(s, at, heap.Processors());
    var ok, _ := heap.ServeNext(Malloc(Ask(|at|)), world, k);
    TowerGrows(s, at, heap.Now(), heap.Processors());
    at' := at + [heap.micro[0].chunk];
  }

  method FirstStorey(heap: MempageHeap, world: int -> int -> int, k: nat) returns (at: seq<int>)
    requires Running(heap, world, k) && Ready(heap.Now()) && heap.big.Listed() == []
    requires heap.micro[0].chunk in heap.space.chunks
    requires heap.space.chunks[heap.micro[0].chunk] == Header(4 * CHUNK_SIZE, CHUNK_HEADER, 0, 0)
    modifies heap, heap.ring, heap.ring.slots, heap.space, heap.big`slide, heap.big`bigfree, heap.big.bigfree,
      heap.big.tmpchunk
    ensures heap.big.bigfree == old(heap.big.bigfree) || fresh(heap.big.bigfree)
    ensures Running(heap, world, k + 1) && Tower(heap.Now(), at) && |at| == 1
  {
    ghost var s := heap.Now();
    assert FirstClear(s.busy) == 0 && Fits(s.chunks[s.micro[0].chunk], Ask(0));
    var ok, _ := heap.ServeNext(Malloc(Ask(0)), world, k);
    TowerStarts(s, heap.Now(), heap.Processors());
    at := [heap.micro[0].chunk];
  }

  method Fell(heap: MempageHeap, at: seq<int>, order: seq<nat>, m: nat, world: int -> int -> int, k: nat)
    requires Running(heap, world, k) && Felled(heap.Now(), at, order, m) && m < |order|
    modifies heap, heap.ring, heap.ring.slots, heap.space, heap.big`slide, heap.big`bigfree, heap.big.bigfree,
      heap.big.tmpchunk
    ensures heap.big.bigfree == old(heap.big.bigfree) || fresh(heap.big.bigfree)
    ensures Running(heap, world, k + 1) && Felled(heap.Now(), at, order, m + 1)
  {
    ghost var s := heap.Now();
    FellingComesBack(s, at, order, m, heap.Processors());
    var ok, _ := heap.ServeNext(Release(Payload(at[order[m]])), world, k);
    FellingGoesOn(s, at, order, m, heap.Now(), heap.Processors());
  }

  method Build(heap: MempageHeap, height: nat, world: int -> int -> int) returns (at: seq<int>)
    requires Running(heap, world, 0) && Ready(heap.Now()) && heap.big.Listed() == [] && height > 0
    requires heap.micro[0].chunk in heap.space.chunks
    requires heap.space.chunks[heap.micro[0].chunk] == Header(4 * CHUNK_SIZE, CHUNK_HEADER, 0, 0)
    modifies heap, heap.ring, heap.ring.slots, heap.space, heap.big`slide, heap.big`bigfree, heap.big.bigfree,
      heap.big.tmpchunk
    ensures heap.big.bigfree == old(heap.big.bigfree) || fresh(heap.big.bigfree)
    ensures Running(heap, world, height) && Tower(heap.Now(), at) && |at| == height
  {
    at := FirstStorey(heap, world, 0);
    while |at| < height
      invariant heap.big.bigfree == old(heap.big.bigfree) || fresh(heap.big.bigfree)
      invariant |at| <= height && Running(heap, world, |at|) && Tower(heap.Now(), at)
    {
      at := AddStorey(heap, at, world, |at|);
    }
  }

  method FellFrom(heap: MempageHeap, at: seq<int>, order: seq<nat>, m: nat, world: int -> int -> int, k: nat)
    requires Running(heap, world, k) && Felled(heap.Now(), at, order, m)
    modifies heap, heap.ring, heap.ring.slots, heap.space, heap.big`slide, heap.big`bigfree, heap.big.bigfree,
      heap.big.tmpchunk
    ensures heap.Valid() && Felled(heap.Now(), at, order, |order|)
    decreases |order| - m
  {
    if m < |order| {
      Fell(heap, at, order, m, world, k);
      FellFrom(heap, at, order, m + 1, world, k + 1);
    }
  }

  lemma TowerIsUnfelled(s: Snapshot, at: seq<int>, order: seq<nat>)
    requires Tower(s, at) && Upwards(order, |at| - 1) && |order| < ROOM
    ensures Felled(s, at, order, 0)
  {
  }

  method Topple(heap: MempageHeap, world: int -> int -> int) returns (at: seq<int>)
    requires Running(heap, world, 0) && Ready(heap.Now()) && heap.big.Listed() == []
    requires heap.micro[0].chunk in heap.space.chunks
    requires heap.space.chunks[heap.micro[0].chunk] == Header(4 * CHUNK_SIZE, CHUNK_HEADER, 0, 0)
    modifies heap, heap.ring, heap.ring.slots, heap.space, heap.big`slide, heap.big`bigfree, heap.big.bigfree,
      heap.big.tmpchunk
    ensures |at| == 8 && heap.Valid() && Felled(heap.Now(), at, AllButTheThird(), 6)
  {
    at := Build(heap, 8, world);
    FellTower(heap, at, AllButTheThird(), world);
  }

  method FellTower(heap: MempageHeap, at: seq<int>, order: seq<nat>, world: int -> int -> int)
    requires Running(heap, world, |at|) && Tower(heap.Now(), at) && Upwards(order, |at| - 1) && |order| < ROOM
    modifies heap, heap.ring, heap.ring.slots, heap.space, heap.big`slide, heap.big`bigfree, heap.big.bigfree,
      heap.big.tmpchunk
    ensures heap.Valid() && Felled(heap.Now(), at, order, |order|)
  {
    TowerIsUnfelled(heap.Now(), at, order);
    FellFrom(heap, at, order, 0, world, |at|);
  }

  /** In any new heap: after blocks of 100000, 262144, 589824, 1245184, 2555904, 5177344, 10420224 and 20905984 bytes,
      when all but the third and the last have been freed, freeing the third never comes back. */
  method FreeCanHang(places: seq<Micro>, ghost own: nat, world: int -> int -> int) returns (heap: MempageHeap, p: int)
    requires FreshPlaces(places) && |places| > 0 && OwnChunkSuffices(own, |places|) && OsBeside(places, world)
    ensures heap.Valid() && p in heap.space.blocks && heap.space.blocks[p].size == 589824 && |heap.big.Listed()| == 6
    ensures AfterRequest(heap.Now(), Release(p), heap.Processors()) == None
  {
    heap := NewHeap(places, own, world);
    var at := Topple(heap, world);
    TheThirdHangs(heap.Now(), at, heap.Processors());
    p := Payload(at[2]);
  }

  // ---------------------------------------------------------------- at the ring

  // The small chunk of the first micro heap holds one block, recorded with `size` bytes.
  ghost predicate Alone(s: Snapshot, ring: Ring, c: int, slide: int, size: int) {
    && Ready(s) && s.shelf == Shelf(ring, [], ROOM) && s.micro[0].small == c
    && c in s.chunks && s.chunks[c] == Header(CHUNK_SIZE, slide, 1, 0)
    && Payload(c) in s.blocks && s.blocks[Payload(c)] == Block(c, size)
  }

  // Another is given up with one block in it.
  predicate LeftBehind(s: Snapshot, c: int) {
    && c in s.chunks && s.chunks[c].size == CHUNK_SIZE && s.chunks[c].count == 1 && s.chunks[c].rec == 1
    && Payload(c) in s.blocks && s.blocks[Payload(c)].chunk == c
  }

  lemma AloneStarts(s: Snapshot, t: Snapshot, processors: nat)
    requires Ready(s) && s.shelf == Shelf(NewRing(), [], ROOM) && s.micro[0].small in s.chunks
    requires s.chunks[s.micro[0].small] == Header(CHUNK_SIZE, CHUNK_HEADER, 0, 0)
    ensures AfterRequest(s, Malloc(100), processors).Some?
    ensures Served(s, Malloc(100), t, processors) ==> Alone(t, NewRing(), t.micro[0].small, 156, 100)
  {
    if Served(s, Malloc(100), t, processors) {
      var p :| p in t.blocks && GrantedAt(s, t, p, 100, processors);
    }
  }

  lemma AloneGrows(s: Snapshot, ring: Ring, c: int, slide: int, size: int, more: int, t: Snapshot, processors: nat)
    requires Alone(s, ring, c, slide, size) && slide == CHUNK_HEADER + BLOCK_HEADER + size && 0 <= size < more
    requires more - size < CHUNK_SIZE - slide
    ensures var p := Payload(c);
      && Stays(s, p, more) && AfterRequest(s, Resize(p, more), processors) == Some(s.shelf)
      && (Served(s, Resize(p, more), t, processors) ==> Alone(t, ring, c, slide + (more - size), size))
  {
  }

  lemma AloneIsReplaced(s: Snapshot, c: int, slide: int, size: int, next: int, t: Snapshot, processors: nat)
    requires Alone(s, NewRing(), c, slide, size) && 0 <= next < BIG_REQUEST && slide + BLOCK_HEADER + next > CHUNK_SIZE
    ensures AfterRequest(s, Malloc(next), processors) == Some(s.shelf)
    ensures Served(s, Malloc(next), t, processors) ==> var d := t.micro[0].small;
      d != c && Alone(t, NewRing(), d, CHUNK_HEADER + BLOCK_HEADER + next, next) && LeftBehind(t, c)
  {
    assert Got(s.shelf, CHUNK_SIZE, processors) == (Nothing, s.shelf);
    if Served(s, Malloc(next), t, processors) {
      var p :| p in t.blocks && GrantedAt(s, t, p, next, processors);
    }
  }

  lemma LeftIsPutBack(s: Snapshot, c: int, d: int, slide: int, size: int, t: Snapshot, processors: nat)
    requires Alone(s, NewRing(), d, slide, size) && LeftBehind(s, c) && c != d
    ensures var ring := RingPut(NewRing(), Extent(c, CHUNK_SIZE));
      && AfterRequest(s, Release(Payload(c)), processors) == Some(s.shelf.(ring := ring))
      && (Served(s, Release(Payload(c)), t, processors) ==> Alone(t, ring, d, slide, size))
  {
  }

  lemma RingHangs(s: Snapshot, c: int, d: int, slide: int, size: int, next: int, processors: nat)
    requires Alone(s, RingPut(NewRing(), Extent(c, CHUNK_SIZE)), d, slide, size)
    requires 0 <= next < BIG_REQUEST && slide + BLOCK_HEADER + next > CHUNK_SIZE
    ensures AsksRing(s, Malloc(next)) && AfterRequest(s, Malloc(next), processors) == None
  {
    OneChunkIsNotTaken(Extent(c, CHUNK_SIZE));
  }

  // A block of 100 bytes that grows in place until the chunk is full.
  method FillFirst(heap: MempageHeap, world: int -> int -> int, k: nat) returns (c: int)
    requires Running(heap, world, k) && Ready(heap.Now()) && heap.OnShelf() == Shelf(NewRing(), [], ROOM)
    requires heap.micro[0].small in heap.space.chunks
    requires heap.space.chunks[heap.micro[0].small] == Header(CHUNK_SIZE, CHUNK_HEADER, 0, 0)
    modifies heap, heap.ring, heap.ring.slots, heap.space, heap.big`slide, heap.big`bigfree, heap.big.bigfree,
      heap.big.tmpchunk
    ensures heap.big.bigfree == old(heap.big.bigfree) || fresh(heap.big.bigfree)
    ensures Running(heap, world, k + 2) && Alone(heap.Now(), NewRing(), c, 65056, 100)
  {
    ghost var s := heap.Now();
    AloneStarts(s, s, heap.Processors());
    var ok, _ := heap.ServeNext(Malloc(100), world, k);
    AloneStarts(s, heap.Now(), heap.Processors());
    c := heap.micro[0].small;
    GrowAlone(heap, c, NewRing(), 100, 65000, world, k + 1);
  }

  method GrowAlone(heap: MempageHeap, c: int, ghost ring: Ring, size: nat, more: nat, world: int -> int -> int, k: nat)
    requires Running(heap, world, k) && Alone(heap.Now(), ring, c, CHUNK_HEADER + BLOCK_HEADER + size, size)
    requires size < more < CHUNK_SIZE - CHUNK_HEADER - BLOCK_HEADER
    modifies heap, heap.ring, heap.ring.slots, heap.space, heap.big`slide, heap.big`bigfree, heap.big.bigfree,
      heap.big.tmpchunk
    ensures heap.big.bigfree == old(heap.big.bigfree) || fresh(heap.big.bigfree)
    ensures Running(heap, world, k + 1) && Alone(heap.Now(), ring, c, CHUNK_HEADER + BLOCK_HEADER + more, size)
  {
    ghost var s := heap.Now();
    AloneGrows(s, ring, c, CHUNK_HEADER + BLOCK_HEADER + size, size, more, s, heap.Processors());
    var ok, _ := heap.ServeNext(Resize(Payload(c), more), world, k);
    AloneGrows(s, ring, c, CHUNK_HEADER + BLOCK_HEADER + size, size, more, heap.Now(), heap.Processors());
  }

  // Another chunk takes its place, and the full one goes to the ring with its block.
  method ReplaceAndFree(heap: MempageHeap, c: int, world: int -> int -> int, k: nat) returns (d: int)
    requires Running(heap, world, k) && Alone(heap.Now(), NewRing(), c, 65056, 100)
    modifies heap, heap.ring, heap.ring.slots, heap.space, heap.big`slide, heap.big`bigfree, heap.big.bigfree,
      heap.big.tmpchunk
    ensures heap.big.bigfree == old(heap.big.bigfree) || fresh(heap.big.bigfree)
    ensures Running(heap, world, k + 2)
    ensures Alone(heap.Now(), RingPut(NewRing(), Extent(c, CHUNK_SIZE)), d, 1056, 1000)
  {
    ghost var s := heap.Now();
    AloneIsReplaced(s, c, 65056, 100, 1000, s, heap.Processors());
    var ok, _ := heap.ServeNext(Malloc(1000), world, k);
    ghost var t := heap.Now();
    AloneIsReplaced(s, c, 65056, 100, 1000, t, heap.Processors());
    d := heap.micro[0].small;
    FreeLeft(heap, c, d, world, k + 1);
  }

  method FreeLeft(heap: MempageHeap, c: int, d: int, world: int -> int -> int, k: nat)
    requires Running(heap, world, k) && Alone(heap.Now(), NewRing(), d, 1056, 1000)
    requires LeftBehind(heap.Now(), c) && c != d
    modifies heap, heap.ring, heap.ring.slots, heap.space, heap.big`slide, heap.big`bigfree, heap.big.bigfree,
      heap.big.tmpchunk
    ensures heap.big.bigfree == old(heap.big.bigfree) || fresh(heap.big.bigfree)
    ensures Running(heap, world, k + 1)
    ensures Alone(heap.Now(), RingPut(NewRing(), Extent(c, CHUNK_SIZE)), d, 1056, 1000)
  {
    ghost var s := heap.Now();
    LeftIsPutBack(s, c, d, 1056, 1000, s, heap.Processors());
    var ok, _ := heap.ServeNext(Release(Payload(c)), world, k);
    LeftIsPutBack(s, c, d, 1056, 1000, heap.Now(), heap.Processors());
  }

  method FillTwo(heap: MempageHeap, world: int -> int -> int) returns (c: int, d: int)
    requires Running(heap, world, 0) && Ready(heap.Now()) && heap.OnShelf() == Shelf(NewRing(), [], ROOM)
    requires heap.micro[0].small in heap.space.chunks
    requires heap.space.chunks[heap.micro[0].small] == Header(CHUNK_SIZE, CHUNK_HEADER, 0, 0)
    modifies heap, heap.ring, heap.ring.slots, heap.space, heap.big`slide, heap.big`bigfree, heap.big.bigfree,
      heap.big.tmpchunk
    ensures heap.big.bigfree == old(heap.big.bigfree) || fresh(heap.big.bigfree)
    ensures heap.Valid() && Alone(heap.Now(), RingPut(NewRing(), Extent(c, CHUNK_SIZE)), d, 64056, 1000)
  {
    c := FillFirst(heap, world, 0);
    d := FillSecond(heap, c, world);
  }

  method FillSecond(heap: MempageHeap, c: int, world: int -> int -> int) returns (d: int)
    requires Running(heap, world, 2) && Alone(heap.Now(), NewRing(), c, 65056, 100)
    modifies heap, heap.ring, heap.ring.slots, heap.space, heap.big`slide, heap.big`bigfree, heap.big.bigfree,
      heap.big.tmpchunk
    ensures heap.big.bigfree == old(heap.big.bigfree) || fresh(heap.big.bigfree)
    ensures heap.Valid() && Alone(heap.Now(), RingPut(NewRing(), Extent(c, CHUNK_SIZE)), d, 64056, 1000)
  {
    d := ReplaceAndFree(heap, c, world, 2);
    GrowAlone(heap, d, RingPut(NewRing(), Extent(c, CHUNK_SIZE)), 1000, 64000, world, 4);
  }

  /** In any new heap: a block of 100 bytes grows in place to 65000; one of 1000 bytes gets the next chunk; the first is
      freed, and with it its chunk; the second grows in place to 64000; then a request for 2000 bytes never comes
      back. */
  method AllocCanHang(places: seq<Micro>, ghost own: nat, world: int -> int -> int) returns (heap: MempageHeap)
    requires FreshPlaces(places) && |places| > 0 && OwnChunkSuffices(own, |places|) && OsBeside(places, world)
    ensures heap.Valid() && heap.big.Listed() == []
    ensures AfterRequest(heap.Now(), Malloc(2000), heap.Processors()) == None
  {
    heap := NewHeap(places, own, world);
    var c, d := FillTwo(heap, world);
    RingHangs(heap.Now(), c, d, 64056, 1000, 2000, heap.Processors());
  }
}
