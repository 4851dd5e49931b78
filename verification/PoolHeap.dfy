/** The allocator of pool/ run by one thread at a time: micro heaps with their current chunks, chunks given up
    with live blocks in them, the store of 64K chunks and the sorted list of bigger ones
    (mirco_mempage_heap.cpp, mempage_heap.cpp).  The operating system hands out memory nobody has. */
module PoolHeap {
  import opened Wrappers
  import opened Extents
  import opened ChunkSpace
  import opened BigFree
  import opened Shelves
  import opened SmallFree

  type Store = multiset<Extent>

  // ---------------------------------------------------------------- where chunks are

  /** Free chunks are apart from each other and from every chunk in use. */
  ghost predicate StoreOk(chunks: map<int, Header>, store: Store) {
    && Proper(store) && Disjoint(store)
    && forall c, e | c in chunks && e in store :: Apart(Range(chunks, c), e)
  }

  lemma CommonPoint(a: Extent, b: Extent) returns (p: int)
    requires a.size > 0 && b.size > 0 && !Apart(a, b)
    ensures Within(a, p) && Within(b, p)
  {
    p := if a.addr < b.addr then b.addr else a.addr;
  }

  lemma ApartMeansUncovered(x: Extent, m: Store, p: int)
    requires Within(x, p) && forall f | f in m :: Apart(x, f)
    ensures !Covers(m, p)
  {
  }

  // What is apart from all of m is apart from whatever covers no more.
  lemma ApartFromCovered(x: Extent, m: Store, e: Extent, n: Store)
    requires x.size > 0 && e.size > 0 && e in n
    requires forall f | f in m :: Apart(x, f)
    requires forall p | Covers(n, p) :: Covers(m, p)
    ensures Apart(x, e)
  {
    if !Apart(x, e) {
      var p := CommonPoint(x, e);
      assert Covers(n, p);
      ApartMeansUncovered(x, m, p);
    }
  }

  // What is apart from a collection is apart from what covers no more.
  lemma AllApartFromCovered(x: Extent, m: Store, n: Store)
    requires IsChunk(x) && Proper(n) && forall f | f in m :: Apart(x, f)
    requires forall p | Covers(n, p) :: Covers(m, p)
    ensures x !in n && forall e | e in n :: Apart(x, e)
  {
    forall e | e in n
      ensures Apart(x, e)
    {
      ApartFromCovered(x, m, e, n);
    }
  }

  lemma FreeIsApart(free: Store, m: Store, a: Extent)
    requires Proper(free + m) && Disjoint(free + m) && a in free
    ensures free[a] == 1 && a !in m && IsChunk(a)
    ensures (forall f | f in m :: Apart(a, f)) && forall b | b in free && b != a :: Apart(a, b)
  {
    assert (free + m)[a] == 1;
    forall f | f in m
      ensures Apart(a, f)
    {
      assert f in free + m;
    }
    forall b | b in free && b != a
      ensures Apart(a, b)
    {
      assert b in free + m;
    }
  }

  lemma UnionDisjoint(free: Store, n: Store)
    requires Proper(free) && Proper(n) && Disjoint(n)
    requires forall a | a in free :: free[a] == 1 && a !in n
    requires forall a, b | a in free && b in free && a != b :: Apart(a, b)
    requires forall a, b | a in free && b in n :: Apart(a, b)
    ensures Proper(free + n) && Disjoint(free + n)
  {
  }

  /** Reworking the list without gaining memory keeps it clear of everything else. */
  lemma ReworkKeepsStore(chunks: map<int, Header>, free: Store, m: Store, n: Store)
    requires ChunksOk(chunks) && StoreOk(chunks, free + m) && Proper(n) && Disjoint(n)
    requires forall p | Covers(n, p) :: Covers(m, p)
    ensures StoreOk(chunks, free + n)
  {
    forall a | a in free
      ensures free[a] == 1 && IsChunk(a) && a !in n && forall b | b in n :: Apart(a, b)
      ensures forall b | b in free && b != a :: Apart(a, b)
    {
      FreeIsApart(free, m, a);
      AllApartFromCovered(a, m, n);
    }
    UnionDisjoint(free, n);
    forall c | c in chunks
      ensures forall e | e in free + n :: Apart(Range(chunks, c), e)
    {
      UseIsApart(chunks, free, m, n, c);
    }
  }

  lemma UseIsApart(chunks: map<int, Header>, free: Store, m: Store, n: Store, c: int)
    requires ChunksOk(chunks) && Proper(n) && c in chunks
    requires forall e | e in free + m :: Apart(Range(chunks, c), e)
    requires forall p | Covers(n, p) :: Covers(m, p)
    ensures forall e | e in free + n :: Apart(Range(chunks, c), e)
  {
    assert HeaderOk(chunks[c]);
    assert forall f | f in m :: f in free + m;
    AllApartFromCovered(Range(chunks, c), m, n);
    forall e | e in free
      ensures Apart(Range(chunks, c), e)
    {
      assert e in free + m;
    }
  }

  /** A chunk leaves the store and is used. */
  lemma TakeKeepsStore(chunks: map<int, Header>, store: Store, e: Extent)
    requires ChunksOk(chunks) && StoreOk(chunks, store) && e in store
    ensures e.addr !in chunks
    ensures var chunks' := chunks[e.addr := Header(e.size, CHUNK_HEADER, 0, 0)];
      ChunksOk(chunks') && StoreOk(chunks', store - multiset{e})
  {
    assert store[e] == 1;
    assert e.addr in chunks ==> Apart(Range(chunks, e.addr), e);
  }

  /** A chunk that is no longer used goes to the store. */
  lemma PutKeepsStore(chunks: map<int, Header>, store: Store, c: int)
    requires ChunksOk(chunks) && StoreOk(chunks, store) && c in chunks
    ensures ChunksOk(chunks - {c}) && StoreOk(chunks - {c}, store + multiset{Range(chunks, c)})
  {
    var e := Range(chunks, c);
    assert IsChunk(e);
    forall f | f in store
      ensures f != e && Apart(e, f)
    {
      assert Apart(Range(chunks, c), f);
    }
  }

  /** Memory the operating system hands out for a request of n bytes: mapped nowhere so far. */
  ghost predicate OsFresh(os: int -> int, chunks: map<int, Header>, store: Store) {
    forall n {:trigger os(n)} | ChunkSized(n) ::
      && os(n) > 0
      && (forall c | c in chunks :: Apart(Extent(os(n), n), Range(chunks, c)))
      && (forall e | e in store :: Apart(Extent(os(n), n), e))
  }

  lemma CreateKeepsStore(os: int -> int, chunks: map<int, Header>, store: Store, n: int)
    requires ChunksOk(chunks) && StoreOk(chunks, store) && OsFresh(os, chunks, store) && ChunkSized(n)
    ensures os(n) !in chunks
    ensures var chunks' := chunks[os(n) := Header(n, CHUNK_HEADER, 0, 0)];
      ChunksOk(chunks') && StoreOk(chunks', store)
  {
    assert os(n) in chunks ==> Apart(Extent(os(n), n), Range(chunks, os(n)));
  }

  lemma ReworkKeepsFresh(os: int -> int, chunks: map<int, Header>, free: Store, m: Store, n: Store)
    requires OsFresh(os, chunks, free + m) && Proper(n)
    requires forall p | Covers(n, p) :: Covers(m, p)
    ensures OsFresh(os, chunks, free + n)
  {
    forall k: int, e | ChunkSized(k) && e in free + n
      ensures Apart(Extent(os(k), k), e)
    {
      assert os(k) > 0;
      if e !in free { ApartFromCovered(Extent(os(k), k), m, e, n); }
    }
  }

  lemma PutKeepsFresh(os: int -> int, chunks: map<int, Header>, store: Store, c: int)
    requires OsFresh(os, chunks, store) && c in chunks
    ensures OsFresh(os, chunks - {c}, store + multiset{Range(chunks, c)})
  {
    forall k: int | ChunkSized(k)
      ensures os(k) > 0
      ensures forall e | e in store + multiset{Range(chunks, c)} :: Apart(Extent(os(k), k), e)
    {
      assert Apart(Extent(os(k), k), Range(chunks, c));
    }
  }

  // What a search of the list or a coalescing pass leaves is proper and covers nothing new.
  lemma ReworkedCoversNoMore(xs: seq<Extent>, n: Store, processors: nat)
    requires Proper(multiset(xs)) && Disjoint(multiset(xs)) && Reworked(xs, n, processors)
    ensures Proper(n) && Disjoint(n) && NoMoreMemory(multiset(xs), n)
    ensures |xs| <= ROOM ==> SameMemory(multiset(xs), n)
  {
    CoalescedMemory(xs, ROOM);
    GroupsAtMost(xs);
  }

  lemma GroupsAtMost(xs: seq<Extent>)
    ensures Groups(xs) <= |xs|
  {
    if xs != [] {
      PassTakesAll(xs);
      AbsorbAllGrows([xs[|xs| - 1]], TakeOrder(xs[..|xs| - 1]), |xs|);
    }
  }

  // ---------------------------------------------------------------- no memory is lost

  // The chunks in use and the free ones.
  datatype View = View(chunks: map<int, Header>, store: Store)

  ghost predicate InUse(chunks: map<int, Header>, p: int) {
    exists c :: c in chunks && Within(Range(chunks, c), p)
  }

  // The address belongs to a chunk, in use or free.
  ghost predicate IsMapped(v: View, p: int) {
    InUse(v.chunks, p) || Covers(v.store, p)
  }

  ghost predicate NoLoss(v: View, w: View) {
    forall p | IsMapped(v, p) :: IsMapped(w, p)
  }

  ghost predicate FromOs(os: int -> int, p: int) {
    exists n :: ChunkSized(n) && Within(Extent(os(n), n), p)
  }

  /** What is mapped stays mapped, provided `whole`, and what is new is from the operating system. */
  ghost predicate Balanced(os: int -> int, whole: bool, v: View, w: View) {
    && (whole ==> NoLoss(v, w))
    && (forall p | IsMapped(w, p) :: IsMapped(v, p) || FromOs(os, p))
  }

  lemma NoLossThen(v: View, m: View, w: View)
    requires NoLoss(v, m) && NoLoss(m, w)
    ensures NoLoss(v, w)
  {
  }

  lemma BalancedThen(os: int -> int, whole: bool, v: View, m: View, later: bool, w: View)
    requires NoLoss(m, v) && (whole ==> NoLoss(v, m)) && Balanced(os, later, m, w) && (whole ==> later)
    ensures Balanced(os, whole, v, w)
  {
  }

  lemma ThenBalanced(os: int -> int, whole: bool, v: View, m: View, later: bool, w: View)
    requires Balanced(os, whole, v, m) && NoLoss(w, m) && (later ==> NoLoss(m, w)) && (whole ==> later)
    ensures Balanced(os, whole, v, w)
  {
  }

  lemma SameExtentsMapSame(v: View, w: View)
    requires w.store == v.store && w.chunks.Keys == v.chunks.Keys
    requires forall c | c in v.chunks :: w.chunks[c].size == v.chunks[c].size
    ensures NoLoss(v, w) && NoLoss(w, v)
  {
    forall p, c | c in v.chunks
      ensures Within(Range(w.chunks, c), p) <==> Within(Range(v.chunks, c), p)
    {
    }
  }

  lemma AdoptMaps(v: View, c: int, h: Header, p: int)
    requires c !in v.chunks
    ensures IsMapped(View(v.chunks[c := h], v.store), p) <==> IsMapped(v, p) || Within(Extent(c, h.size), p)
  {
    var chunks' := v.chunks[c := h];
    assert Range(chunks', c) == Extent(c, h.size);
    forall d | d in v.chunks
      ensures Range(chunks', d) == Range(v.chunks, d)
    {
    }
  }

  /** A chunk that goes from use to the store, while the list is reworked. */
  lemma PutMaps(v: View, c: int, free: Store, m: Store, n: Store)
    requires c in v.chunks && v.store == free + m
    requires forall p | Covers(n, p) :: Covers(m, p)
    ensures var w := View(v.chunks - {c}, free + (multiset{Range(v.chunks, c)} + n));
      NoLoss(w, v) && ((forall p | Covers(m, p) :: Covers(n, p)) ==> NoLoss(v, w))
  {
    var e, w := Range(v.chunks, c), View(v.chunks - {c}, free + (multiset{Range(v.chunks, c)} + n));
    assert v.chunks == w.chunks[c := v.chunks[c]];
    forall p
      ensures IsMapped(w, p) ==> IsMapped(v, p)
      ensures IsMapped(v, p) && (Covers(m, p) ==> Covers(n, p)) ==> IsMapped(w, p)
    {
      AdoptMaps(View(w.chunks, v.store), c, v.chunks[c], p);
      CoversSplit(free, m, p);
      CoversSplit(free, multiset{e} + n, p);
      CoversSplit(multiset{e}, n, p);
      assert e in multiset{e} && (Covers(multiset{e}, p) <==> Within(e, p));
    }
  }

  // The extent `e` has been taken out on the way from `v` to `w`.
  ghost predicate Took(os: int -> int, whole: bool, v: View, w: View, e: Extent) {
    && (whole ==> forall p | IsMapped(v, p) :: IsMapped(w, p) || Within(e, p))
    && (forall p | IsMapped(w, p) || Within(e, p) :: IsMapped(v, p) || FromOs(os, p))
  }

  /** A chunk that leaves the store, while the list is reworked. */
  lemma TakeMaps(os: int -> int, whole: bool, v: View, e: Extent, free: Store, m: Store, n: Store)
    requires v.store == free + m
    requires forall p | Covers(n + multiset{e}, p) :: Covers(m, p)
    requires whole ==> forall p | Covers(m, p) :: Covers(n + multiset{e}, p)
    ensures Took(os, whole, v, View(v.chunks, free + n), e)
  {
    var w := View(v.chunks, free + n);
    forall p
      ensures IsMapped(w, p) || Within(e, p) ==> IsMapped(v, p)
      ensures whole && IsMapped(v, p) ==> IsMapped(w, p) || Within(e, p)
    {
      CoversSplit(free, m, p);
      CoversSplit(free, n, p);
      CoversSplit(n, multiset{e}, p);
      assert e in multiset{e} && (Covers(multiset{e}, p) <==> Within(e, p));
    }
  }

  // A chunk that leaves the ring.
  lemma SmallTaken(os: int -> int, v: View, inside: Store, inside': Store, listed: Store, e: Extent)
    requires ChunksOk(v.chunks) && StoreOk(v.chunks, v.store) && v.store == inside + listed
    requires inside == inside' + multiset{e}
    ensures e in inside && inside' == inside - multiset{e} && UsedFrom(v.chunks, e, inside' + listed)
    ensures Took(os, true, v, View(v.chunks, inside' + listed), e)
  {
    assert e in v.store && v.store - multiset{e} == inside' + listed;
    TakeKeepsStore(v.chunks, v.store, e);
    assert v.store == listed + inside && inside' + listed == listed + inside';
    TakeMaps(os, true, v, e, listed, inside, inside');
  }

  lemma ReworkMaps(os: int -> int, whole: bool, v: View, free: Store, m: Store, n: Store)
    requires v.store == free + m
    requires forall p | Covers(n, p) :: Covers(m, p)
    requires whole ==> forall p | Covers(m, p) :: Covers(n, p)
    ensures Balanced(os, whole, v, View(v.chunks, free + n))
  {
    forall p
      ensures Covers(free + m, p) <==> Covers(free, p) || Covers(m, p)
      ensures Covers(free + n, p) <==> Covers(free, p) || Covers(n, p)
    {
      CoversSplit(free, m, p);
      CoversSplit(free, n, p);
    }
  }

  /** What has been taken out is put to use. */
  lemma AdoptBalances(os: int -> int, whole: bool, v: View, w: View, e: Extent, h: Header)
    requires Took(os, whole, v, w, e) && e.addr !in w.chunks && h.size == e.size
    ensures Balanced(os, whole, v, View(w.chunks[e.addr := h], w.store))
  {
    forall p
      ensures IsMapped(View(w.chunks[e.addr := h], w.store), p) <==> IsMapped(w, p) || Within(e, p)
    {
      AdoptMaps(w, e.addr, h, p);
    }
  }

  // ---------------------------------------------------------------- who holds which chunk

  ghost predicate Held(micro: seq<Micro>, c: int) {
    exists k :: 0 <= k < |micro| && (micro[k].chunk == c || micro[k].small == c)
  }

  predicate HoldersDistinct(micro: seq<Micro>) {
    && (forall j, k | 0 <= j < |micro| && 0 <= k < |micro| :: micro[j].chunk != micro[k].small)
    && (forall j, k | 0 <= j < k < |micro| :: micro[j].chunk != micro[k].chunk && micro[j].small != micro[k].small)
  }

  predicate HasBoth(chunks: map<int, Header>, m: Micro) {
    m.chunk in chunks && m.small in chunks
  }

  /** Every chunk in use is either held by exactly one micro heap, in one of its two places, or has been
      given up and has live blocks. */
  ghost predicate PlacesOk(chunks: map<int, Header>, micro: seq<Micro>) {
    && HoldersDistinct(micro)
    && (forall k {:trigger HasBoth(chunks, micro[k])} | 0 <= k < |micro| :: HasBoth(chunks, micro[k]))
    && (forall c | c in chunks ::
          if Held(micro, c) then chunks[c].rec == 0 else chunks[c].rec == 1 && chunks[c].count > 0)
  }

  // Headers may change as long as extents do not.
  lemma SameExtentsKeepStore(chunks: map<int, Header>, chunks': map<int, Header>, store: Store)
    requires StoreOk(chunks, store) && chunks'.Keys == chunks.Keys
    requires forall c | c in chunks :: chunks'[c].size == chunks[c].size
    ensures StoreOk(chunks', store)
  {
    forall c, e | c in chunks' && e in store
      ensures Apart(Range(chunks', c), e)
    {
      assert Apart(Range(chunks, c), e);
    }
  }

  lemma SameExtentsKeepFresh(os: int -> int, chunks: map<int, Header>, chunks': map<int, Header>, store: Store)
    requires OsFresh(os, chunks, store) && chunks'.Keys == chunks.Keys
    requires forall c | c in chunks :: chunks'[c].size == chunks[c].size
    ensures OsFresh(os, chunks', store)
  {
    forall n: int, c | ChunkSized(n) && c in chunks'
      ensures os(n) > 0 && Apart(Extent(os(n), n), Range(chunks', c))
    {
      assert Apart(Extent(os(n), n), Range(chunks, c));
    }
  }

  // One header has changed, but for the size it records.
  lemma OneHeaderKeepsAll(os: int -> int, chunks: map<int, Header>, c: int, h: Header, store: Store)
    requires StoreOk(chunks, store) && OsFresh(os, chunks, store) && c in chunks && h.size == chunks[c].size
    ensures var chunks' := chunks[c := h];
      && StoreOk(chunks', store) && OsFresh(os, chunks', store)
      && NoLoss(View(chunks, store), View(chunks', store)) && NoLoss(View(chunks', store), View(chunks, store))
  {
    SameExtentsKeepAll(os, chunks, chunks[c := h], store);
  }

  lemma OneHeaderKeepsStore(chunks: map<int, Header>, c: int, h: Header, store: Store)
    requires StoreOk(chunks, store) && c in chunks && h.size == chunks[c].size
    ensures var chunks' := chunks[c := h];
      && StoreOk(chunks', store)
      && NoLoss(View(chunks, store), View(chunks', store)) && NoLoss(View(chunks', store), View(chunks, store))
  {
    SameExtentsKeepStore(chunks, chunks[c := h], store);
    SameExtentsMapSame(View(chunks, store), View(chunks[c := h], store));
  }

  // A chunk that is held, or has as many blocks as before.
  lemma OneHeaderKeepsPlaces(chunks: map<int, Header>, c: int, h: Header, micro: seq<Micro>)
    requires PlacesOk(chunks, micro) && c in chunks && h.rec == chunks[c].rec
    requires Held(micro, c) || h.count == chunks[c].count
    ensures PlacesOk(chunks[c := h], micro)
  {
    forall k | 0 <= k < |micro|
      ensures HasBoth(chunks[c := h], micro[k])
    {
      assert HasBoth(chunks, micro[k]);
    }
  }

  lemma SameExtentsKeepAll(os: int -> int, chunks: map<int, Header>, chunks': map<int, Header>, store: Store)
    requires StoreOk(chunks, store) && OsFresh(os, chunks, store) && chunks'.Keys == chunks.Keys
    requires forall c | c in chunks :: chunks'[c].size == chunks[c].size
    ensures StoreOk(chunks', store) && OsFresh(os, chunks', store)
    ensures NoLoss(View(chunks, store), View(chunks', store)) && NoLoss(View(chunks', store), View(chunks, store))
  {
    SameExtentsMapSame(View(chunks, store), View(chunks', store));
    SameExtentsKeepStore(chunks, chunks', store);
    SameExtentsKeepFresh(os, chunks, chunks', store);
  }

  /** Exactly one block has been added. */
  predicate GrantedOne(blocks: map<int, Block>, granted: map<int, int>, p: int, size: int,
                       blocks': map<int, Block>, granted': map<int, int>) {
    && p in blocks' && blocks'[p].size == size
    && blocks' == blocks[p := blocks'[p]] && granted' == granted[p := size]
  }

  // Lines 114-115 of chunk.cpp: given up, and no block is left.
  predicate IsClaimed(h: Header) { h.count == 0 && h.rec == 1 }

  // A block has gone, and its chunk with it if that was claimed.
  lemma FreedIs(s: Snapshot, t: Snapshot, p: int, done: bool, processors: nat)
    requires p in s.blocks && s.blocks[p].chunk in s.chunks
    requires done ==> t.busy == s.busy && t.micro == s.micro && t.blocks == s.blocks - {p}
    requires var c := s.blocks[p].chunk;
      var h := s.chunks[c].(count := s.chunks[c].count - 1);
      if IsClaimed(h) then
        && PutBack(s.shelf, Extent(c, h.size), processors) == (if done then Some(t.shelf) else None)
        && (done ==> t.chunks == s.chunks - {c})
      else done && t.chunks == s.chunks[c := h] && t.shelf == s.shelf
    ensures AfterFree(s, p, processors) == if done then Some(t.shelf) else None
    ensures done ==> Freed(s, t, p, processors)
  {
  }

  lemma WithoutUpdated(chunks: map<int, Header>, c: int, h: Header)
    ensures chunks[c := h] - {c} == chunks - {c}
  {
  }

  // A chunk nobody holds may lose blocks, down to its last, when it leaves.
  lemma FreeKeepsPlaces(chunks: map<int, Header>, micro: seq<Micro>, c: int, chunks': map<int, Header>)
    requires PlacesOk(chunks, micro) && c in chunks
    requires var h := chunks[c].(count := chunks[c].count - 1);
      if h.rec == 1 && h.count == 0 then chunks' == chunks - {c} else h.count >= 0 && chunks' == chunks[c := h]
    ensures PlacesOk(chunks', micro)
  {
    forall k | 0 <= k < |micro|
      ensures HasBoth(chunks', micro[k])
    {
      assert HasBoth(chunks, micro[k]);
      assert Held(micro, micro[k].chunk) && Held(micro, micro[k].small);
    }
  }

  /** Every live block but `p` is where it was, as big as it was, with the bytes it had. */
  ghost predicate OthersKept(blocks: map<int, Block>, granted: map<int, int>, mem: Memory, p: int,
                             blocks': map<int, Block>, granted': map<int, int>, mem': Memory)
    requires granted.Keys == blocks.Keys && granted'.Keys == blocks'.Keys
  {
    forall q | q in blocks && q != p ::
      && q in blocks' && blocks'[q] == blocks[q] && granted'[q] == granted[q]
      && SameBytes(mem, q, mem', q, granted[q])
  }

  function Min(a: int, b: int): int { if a < b then a else b }

  // A block is granted, then another is freed.
  lemma GrantThenFree(blocks: map<int, Block>, granted: map<int, int>, p: int, r: int, size: int,
                      blocks1: map<int, Block>, granted1: map<int, int>)
    requires p in blocks && r !in blocks && granted.Keys == blocks.Keys &&
      GrantedOne(blocks, granted, r, size, blocks1, granted1)
    ensures blocks1 - {p} == (blocks - {p})[r := blocks1[r]]
    ensures granted1 - {p} == (granted - {p})[r := size]
    ensures (blocks1 - {p}).Keys == blocks.Keys - {p} + {r}
  {
  }

  /** After a move the recorded bytes are at the new place and nobody else's bytes have changed. */
  lemma MoveKeepsBytes(chunks: map<int, Header>, blocks: map<int, Block>, granted: map<int, int>, mem: Memory,
                       p: int, r: int, b: Block, n: int)
    requires granted.Keys == blocks.Keys && p in blocks && r !in blocks && 0 <= n <= b.size
    requires BlocksOk(chunks, (blocks - {p})[r := b], (granted - {p})[r := b.size])
    ensures var mem' := Copied(mem, r, p, n);
      && SameBytes(mem, p, mem', r, n)
      && OthersKept(blocks, granted, mem, p, (blocks - {p})[r := b], (granted - {p})[r := b.size], mem')
  {
    var blocks', granted', mem' := (blocks - {p})[r := b], (granted - {p})[r := b.size], Copied(mem, r, p, n);
    forall q | q in blocks && q != p
      ensures q in blocks' && blocks'[q] == blocks[q] && granted'[q] == granted[q]
      ensures SameBytes(mem, q, mem', q, granted[q])
    {
      assert BlocksApart(granted', q, r);
      CopyElsewhere(mem, r, p, n, q, granted[q]);
    }
    CopyArrives(mem, r, p, n);
  }

  lemma CopyElsewhere(mem: Memory, dst: int, src: int, n: int, q: int, size: int)
    requires q + size <= dst || dst + n <= q
    ensures SameBytes(mem, q, Copied(mem, dst, src, n), q, size)
  {
  }

  lemma CopyArrives(mem: Memory, dst: int, src: int, n: int)
    ensures SameBytes(mem, src, Copied(mem, dst, src, n), dst, n)
  {
  }

  /** The bytes a caller may expect to keep are those granted before, up to the new size.  A move copies only
      what the header records: it keeps them all, whatever they are, if and only if the header still records
      the whole grant, that is, if the block has never grown in place. */
  lemma MoveKeepsGrantIff(p: int, r: int, recorded: int, granted: int, size: int)
    requires 0 <= recorded <= granted && recorded < size
    requires p + granted <= r - BLOCK_HEADER || r + size <= p - BLOCK_HEADER
    ensures (forall mem: Memory :: SameBytes(mem, p, Copied(mem, r, p, recorded), r, Min(granted, size)))
      <==> recorded == granted
  {
    if recorded < granted {
      var lost := r + recorded;
      var mem: Memory := map[p + recorded := 1];
      var mem' := Copied(mem, r, p, recorded);
      assert Peek(mem', lost) == 0 && Peek(mem, lost - r + p) == 1;
      assert !SameBytes(mem, p, mem', r, Min(granted, size));
    }
  }

  // The chunk `c0` has been given up with live blocks in it, or is gone.
  predicate GivenUp(chunks: map<int, Header>, chunks': map<int, Header>, c0: int) {
    || (c0 in chunks && chunks' == chunks - {c0} && chunks[c0].count == 0)
    || (c0 in chunks && chunks' == chunks[c0 := chunks[c0].(rec := 1)] && chunks[c0].count > 0)
  }

  // That an empty chunk has started over changes nothing of this.
  lemma RestartKeepsReplaced(chunks: map<int, Header>, micro: seq<Micro>, k: nat, big: bool, r: Taken, wanted: int,
                             h: Header, chunks': map<int, Header>, micro': seq<Micro>)
    requires k < |micro| && Current(micro[k], big) in chunks
    requires var c := Current(micro[k], big);
      Replaced(chunks[c := chunks[c].(slide := Start(chunks[c]))], micro, k, big, r, wanted, h, chunks', micro')
    ensures Replaced(chunks, micro, k, big, r, wanted, h, chunks', micro')
  {
  }

  // Granting a block in the new chunk changes nothing of this but its header.
  lemma BumpKeepsReplaced(chunks: map<int, Header>, micro: seq<Micro>, k: nat, big: bool, r: Taken, wanted: int,
                          h: Header, chunks': map<int, Header>, micro': seq<Micro>, size: int)
    requires k < |micro| && Replaced(chunks, micro, k, big, r, wanted, h, chunks', micro')
    ensures var c := Current(micro'[k], big);
      Replaced(chunks, micro, k, big, r, wanted, Bumped(h, size), chunks'[c := Bumped(chunks'[c], size)], micro')
  {
  }

  /** A micro heap replaces one of its chunks; the old one has been given up or is gone. */
  lemma ReplaceKeepsPlaces(chunks: map<int, Header>, micro: seq<Micro>, k: nat, big: bool, chunks': map<int, Header>,
                           c: int)
    requires PlacesOk(chunks, micro) && k < |micro|
    requires c in chunks' && chunks'[c].rec == 0 && (c !in chunks || c == Current(micro[k], big))
    requires forall d | d in chunks && d != Current(micro[k], big) :: d in chunks' && chunks'[d] == chunks[d]
    requires forall d | d in chunks' && d != c ::
      d in chunks && (d == Current(micro[k], big) ==> chunks'[d].rec == 1 && chunks'[d].count > 0)
    ensures PlacesOk(chunks', micro[k := WithCurrent(micro[k], big, c)])
  {
    var c0, m' := Current(micro[k], big), micro[k := WithCurrent(micro[k], big, c)];
    assert Held(micro, c0);
    assert m'[k].chunk == c || m'[k].small == c;
    forall j | 0 <= j < |micro|
      ensures HasBoth(chunks, micro[j]) && HasBoth(chunks', m'[j])
    {
      assert HasBoth(chunks, micro[j]);
    }
    ReplaceKeepsDistinct(chunks, micro, k, big, c);
    forall d | d in chunks' && d != c
      ensures Held(m', d) <==> (Held(micro, d) && d != c0)
    {
      ReplaceKeepsHeld(micro, k, big, c, d);
    }
  }

  lemma ReplaceKeepsDistinct(chunks: map<int, Header>, micro: seq<Micro>, k: nat, big: bool, c: int)
    requires PlacesOk(chunks, micro) && k < |micro| && (c !in chunks || c == Current(micro[k], big))
    ensures HoldersDistinct(micro[k := WithCurrent(micro[k], big, c)])
  {
    forall j | 0 <= j < |micro|
      ensures micro[j].chunk in chunks && micro[j].small in chunks
    {
      assert HasBoth(chunks, micro[j]);
    }
  }

  lemma ReplaceKeepsHeld(micro: seq<Micro>, k: nat, big: bool, c: int, d: int)
    requires k < |micro| && HoldersDistinct(micro) && d != c
    ensures Held(micro[k := WithCurrent(micro[k], big, c)], d) <==> (Held(micro, d) && d != Current(micro[k], big))
  {
    var m' := micro[k := WithCurrent(micro[k], big, c)];
    if j :| 0 <= j < |micro| && d != Current(micro[k], big) && (micro[j].chunk == d || micro[j].small == d) {
      assert m'[j].chunk == d || m'[j].small == d;
    }
    if j :| 0 <= j < |m'| && (m'[j].chunk == d || m'[j].small == d) {
      assert micro[j].chunk == d || micro[j].small == d;
    }
  }

  // The same when the old chunk leaves first and the new one comes then.
  lemma RenewKeepsPlaces(chunks: map<int, Header>, given: map<int, Header>, micro: seq<Micro>, k: nat, big: bool,
                         r: Taken, wanted: int, c: int, h: Header, chunks': map<int, Header>)
    requires PlacesOk(chunks, micro) && k < |micro| && GivenUp(chunks, given, Current(micro[k], big))
    requires c !in given && chunks' == given[c := h] && h.rec == 0 && wanted <= h.size
    requires r.Chunk? ==> c == r.chunk.addr
    ensures var micro' := micro[k := WithCurrent(micro[k], big, c)];
      PlacesOk(chunks', micro') && Replaced(chunks, micro, k, big, r, wanted, h, chunks', micro')
  {
    assert HasBoth(chunks, micro[k]);
    ReplaceKeepsPlaces(chunks, micro, k, big, chunks', c);
  }

  /** No free chunk contains any part of a live block. */
  lemma LiveBlocksAreNotFree(chunks: map<int, Header>, blocks: map<int, Block>, granted: map<int, int>, store: Store,
                             p: int, e: Extent)
    requires SpaceOk(chunks, blocks, granted) && StoreOk(chunks, store) && p in blocks && e in store
    ensures p + granted[p] <= e.addr || e.addr + e.size <= p - BLOCK_HEADER
  {
    assert BlockOk(chunks, blocks, granted, p);
    assert Apart(Range(chunks, blocks[p].chunk), e);
  }

  /** The memory the operating system hands out for the first chunks. */
  ghost predicate FreshPlaces(places: seq<Micro>) {
    && (forall k | 0 <= k < |places| :: places[k].chunk > 0 && places[k].small > 0)
    && (forall j, k | 0 <= j < |places| && 0 <= k < |places| ::
          Apart(Extent(places[j].chunk, 4 * CHUNK_SIZE), Extent(places[k].small, CHUNK_SIZE)))
    && (forall j, k | 0 <= j < |places| && 0 <= k < |places| && j != k ::
          && Apart(Extent(places[j].chunk, 4 * CHUNK_SIZE), Extent(places[k].chunk, 4 * CHUNK_SIZE))
          && Apart(Extent(places[j].small, CHUNK_SIZE), Extent(places[k].small, CHUNK_SIZE)))
  }

  // One of the two chunks a micro heap starts with.
  predicate IsInitial(m: Micro, c: int, h: Header) {
    || (c == m.chunk && h == Header(4 * CHUNK_SIZE, CHUNK_HEADER, 0, 0))
    || (c == m.small && h == Header(CHUNK_SIZE, CHUNK_HEADER, 0, 0))
  }

  ghost predicate InitialChunks(chunks: map<int, Header>, places: seq<Micro>, n: nat)
    requires n <= |places|
  {
    && (forall k {:trigger HasBoth(chunks, places[k])} | 0 <= k < n :: HasBoth(chunks, places[k]))
    && (forall c | c in chunks :: SomeInitial(places, n, c, chunks[c]))
  }

  function WithInitial(chunks: map<int, Header>, m: Micro): map<int, Header> {
    chunks[m.chunk := Header(4 * CHUNK_SIZE, CHUNK_HEADER, 0, 0)][m.small := Header(CHUNK_SIZE, CHUNK_HEADER, 0, 0)]
  }

  lemma InitialIsApart(chunks: map<int, Header>, places: seq<Micro>, k: nat, e: int)
    requires k < |places| && FreshPlaces(places) && InitialChunks(chunks, places, k) && e in chunks
    ensures Apart(Range(chunks, e), Extent(places[k].chunk, 4 * CHUNK_SIZE))
    ensures Apart(Range(chunks, e), Extent(places[k].small, CHUNK_SIZE))
  {
    assert SomeInitial(places, k, e, chunks[e]);
    var j :| 0 <= j < k && IsInitial(places[j], e, chunks[e]);
  }

  lemma AdoptInitial(chunks: map<int, Header>, places: seq<Micro>, k: nat)
    requires k < |places| && FreshPlaces(places) && ChunksOk(chunks) && InitialChunks(chunks, places, k)
    ensures var c, d := places[k].chunk, places[k].small;
      var chunks1 := chunks[c := Header(4 * CHUNK_SIZE, CHUNK_HEADER, 0, 0)];
      c !in chunks && d !in chunks1 && ChunksOk(chunks1) && ChunksOk(WithInitial(chunks, places[k]))
  {
    var c, d := places[k].chunk, places[k].small;
    forall e | e in chunks
      ensures e != c && e != d
      ensures Apart(Range(chunks, e), Extent(c, 4 * CHUNK_SIZE)) && Apart(Range(chunks, e), Extent(d, CHUNK_SIZE))
    {
      InitialIsApart(chunks, places, k, e);
    }
    assert Apart(Extent(c, 4 * CHUNK_SIZE), Extent(d, CHUNK_SIZE));
    AdoptOne(chunks, c, 4 * CHUNK_SIZE);
    AdoptOne(chunks[c := Header(4 * CHUNK_SIZE, CHUNK_HEADER, 0, 0)], d, CHUNK_SIZE);
  }

  lemma AdoptOne(chunks: map<int, Header>, c: int, size: int)
    requires ChunksOk(chunks) && c > 0 && ChunkSized(size)
    requires forall e | e in chunks :: Apart(Range(chunks, e), Extent(c, size))
    ensures c !in chunks && ChunksOk(chunks[c := Header(size, CHUNK_HEADER, 0, 0)])
  {
    forall e | e in chunks
      ensures e != c
    {
      assert HeaderOk(chunks[e]);
    }
  }

  ghost predicate SomeInitial(places: seq<Micro>, n: nat, c: int, h: Header)
    requires n <= |places|
  {
    exists k :: 0 <= k < n && IsInitial(places[k], c, h)
  }

  lemma InitialStays(chunks: map<int, Header>, places: seq<Micro>, k: nat, e: int)
    requires k < |places| && InitialChunks(chunks, places, k) && e in WithInitial(chunks, places[k])
    requires places[k].chunk !in chunks && places[k].small !in chunks && places[k].chunk != places[k].small
    ensures SomeInitial(places, k + 1, e, WithInitial(chunks, places[k])[e])
  {
    var chunks2 := WithInitial(chunks, places[k]);
    if e == places[k].chunk || e == places[k].small {
      assert IsInitial(places[k], e, chunks2[e]);
    } else {
      assert SomeInitial(places, k, e, chunks[e]);
      var j :| 0 <= j < k && IsInitial(places[j], e, chunks[e]);
      assert IsInitial(places[j], e, chunks2[e]);
    }
  }

  lemma InitialHeld(chunks: map<int, Header>, places: seq<Micro>, k: nat, j: nat)
    requires k < |places| && InitialChunks(chunks, places, k) && j <= k
    ensures HasBoth(WithInitial(chunks, places[k]), places[j])
  {
    if j < k { assert HasBoth(chunks, places[j]); }
  }

  lemma InitialGrows(chunks: map<int, Header>, places: seq<Micro>, k: nat)
    requires k < |places| && InitialChunks(chunks, places, k)
    requires places[k].chunk !in chunks && places[k].small !in chunks && places[k].chunk != places[k].small
    ensures InitialChunks(WithInitial(chunks, places[k]), places, k + 1)
  {
    var chunks2 := WithInitial(chunks, places[k]);
    forall j {:trigger HasBoth(chunks2, places[j])} | 0 <= j < k + 1
      ensures HasBoth(chunks2, places[j])
    {
      InitialHeld(chunks, places, k, j);
    }
    forall e | e in chunks2
      ensures SomeInitial(places, k + 1, e, chunks2[e])
    {
      InitialStays(chunks, places, k, e);
    }
  }

  lemma InitialPlaces(chunks: map<int, Header>, places: seq<Micro>)
    requires FreshPlaces(places) && InitialChunks(chunks, places, |places|)
    ensures PlacesOk(chunks, places)
  {
    forall j, k | 0 <= j < |places| && 0 <= k < |places|
      ensures places[j].chunk != places[k].small
    {
      assert Apart(Extent(places[j].chunk, 4 * CHUNK_SIZE), Extent(places[k].small, CHUNK_SIZE));
    }
    forall j, k | 0 <= j < k < |places|
      ensures places[j].chunk != places[k].chunk && places[j].small != places[k].small
    {
      assert Apart(Extent(places[j].chunk, 4 * CHUNK_SIZE), Extent(places[k].chunk, 4 * CHUNK_SIZE));
      assert Apart(Extent(places[j].small, CHUNK_SIZE), Extent(places[k].small, CHUNK_SIZE));
    }
  }

  // What `_chunk_from_bigfree` did to the list, seen from the store.
  lemma StoreAfterTake(os: int -> int, chunks: map<int, Header>, free: Store, xs: seq<Extent>, ys: seq<Extent>,
                       r: Taken, processors: nat)
    requires ChunksOk(chunks) && StoreOk(chunks, free + multiset(xs)) && OsFresh(os, chunks, free + multiset(xs))
    requires r != NeverReturns && Reworked(xs, multiset(ys) + TakenChunks(r), processors)
    ensures r.Chunk? ==> ChunkSized(r.chunk.size) && UsedFrom(chunks, r.chunk, free + multiset(ys))
    ensures r.Nothing? ==> StoreOk(chunks, free + multiset(ys)) && OsFresh(os, chunks, free + multiset(ys))
  {
    var after := multiset(ys) + TakenChunks(r);
    ReworkedStore(os, chunks, free, xs, after, processors);
    if r.Chunk? {
      assert r.chunk in after;
      UseFromStore(chunks, free + after, r.chunk, free + multiset(ys));
    } else {
      assert after == multiset(ys);
    }
  }

  lemma ReworkedStore(os: int -> int, chunks: map<int, Header>, free: Store, xs: seq<Extent>, after: Store,
                      processors: nat)
    requires ChunksOk(chunks) && StoreOk(chunks, free + multiset(xs)) && OsFresh(os, chunks, free + multiset(xs))
    requires Reworked(xs, after, processors)
    ensures StoreOk(chunks, free + after) && OsFresh(os, chunks, free + after)
  {
    PartsOfStore(chunks, free, multiset(xs));
    ReworkedCoversNoMore(xs, after, processors);
    ReworkKeepsStore(chunks, free, multiset(xs), after);
    ReworkKeepsFresh(os, chunks, free, multiset(xs), after);
  }

  lemma ViewAfterTake(os: int -> int, v: View, free: Store, xs: seq<Extent>, ys: seq<Extent>, r: Taken, processors: nat)
    requires ChunksOk(v.chunks) && StoreOk(v.chunks, v.store) && v.store == free + multiset(xs)
    requires r != NeverReturns && Reworked(xs, multiset(ys) + TakenChunks(r), processors)
    ensures var w := View(v.chunks, free + multiset(ys));
      && (r.Chunk? ==> Took(os, |xs| <= ROOM, v, w, r.chunk))
      && (r.Nothing? ==> Balanced(os, |xs| <= ROOM, v, w))
    ensures |ys| <= |xs|
  {
    var m, after := multiset(xs), multiset(ys) + TakenChunks(r);
    PartsOfStore(v.chunks, free, m);
    ReworkedCoversNoMore(xs, after, processors);
    assert |multiset(ys)| == |ys| && |m| == |xs| && |multiset(ys)| <= |after|;
    if r.Chunk? {
      TakeMaps(os, |xs| <= ROOM, v, r.chunk, free, m, multiset(ys));
    } else {
      assert after == multiset(ys);
      ReworkMaps(os, |xs| <= ROOM, v, free, m, multiset(ys));
    }
  }

  lemma UseFromStore(chunks: map<int, Header>, store: Store, e: Extent, rest: Store)
    requires ChunksOk(chunks) && StoreOk(chunks, store) && e in store && rest == store - multiset{e}
    ensures ChunkSized(e.size) && UsedFrom(chunks, e, rest)
  {
    assert IsChunk(e);
    TakeKeepsStore(chunks, store, e);
  }

  // What `_recover_to_bigfree` did to the list, seen from the store.
  lemma StoreAfterRecover(chunks: map<int, Header>, free: Store, xs: seq<Extent>, c: int, cleared: Store,
                          processors: nat)
    requires ChunksOk(chunks) && StoreOk(chunks, free + multiset(xs)) && c in chunks
    requires Reworked(xs, cleared, processors)
    ensures ChunksOk(chunks - {c}) && StoreOk(chunks - {c}, free + (multiset{Range(chunks, c)} + cleared))
    ensures forall p | Covers(free + (multiset{Range(chunks, c)} + cleared), p) ::
      Covers(free + multiset(xs) + multiset{Range(chunks, c)}, p)
  {
    var e, m := Range(chunks, c), multiset(xs);
    PutKeepsStore(chunks, free + m, c);
    assert free + m + multiset{e} == (free + multiset{e}) + m;
    PartsOfStore(chunks - {c}, free + multiset{e}, m);
    ReworkedCoversNoMore(xs, cleared, processors);
    ReworkKeepsStore(chunks - {c}, free + multiset{e}, m, cleared);
    assert (free + multiset{e}) + cleared == free + (multiset{e} + cleared);
    forall p | Covers(free + (multiset{e} + cleared), p)
      ensures Covers(free + m + multiset{e}, p)
    {
      CoversSplit(free + multiset{e}, cleared, p);
      CoversSplit(free + multiset{e}, m, p);
    }
  }

  lemma ViewAfterRecover(v: View, free: Store, xs: seq<Extent>, c: int, cleared: Store, processors: nat)
    requires ChunksOk(v.chunks) && StoreOk(v.chunks, v.store) && c in v.chunks && v.store == free + multiset(xs)
    requires Reworked(xs, cleared, processors)
    ensures var w := View(v.chunks - {c}, free + (multiset{Range(v.chunks, c)} + cleared));
      NoLoss(w, v) && (|xs| <= ROOM ==> NoLoss(v, w))
    ensures |cleared| <= |xs|
  {
    PartsOfStore(v.chunks, free, multiset(xs));
    ReworkedCoversNoMore(xs, cleared, processors);
    assert |multiset(xs)| == |xs|;
    PutMaps(v, c, free, multiset(xs), cleared);
  }

  // Fewer chunks cover no more.
  lemma FewerCover(m: Store, n: Store)
    requires n <= m
    ensures (Proper(m) ==> Proper(n)) && (Disjoint(m) ==> Disjoint(n))
    ensures forall p | Covers(n, p) :: Covers(m, p)
    ensures forall e | e in n :: e in m
  {
    forall e | e in n
      ensures e in m && n[e] <= m[e]
    {
    }
  }

  /** What `_recover_to_free` did to the ring, seen from the store. */
  lemma StoreAfterPut(chunks: map<int, Header>, r: Ring, m: Store, c: int)
    requires ChunksOk(chunks) && StoreOk(chunks, Inside(r) + m) && c in chunks
    ensures var e := Range(chunks, c);
      var store := Inside(RingPut(r, e)) + m;
      && store <= Inside(r) + m + multiset{e}
      && ChunksOk(chunks - {c}) && StoreOk(chunks - {c}, store)
      && forall p | Covers(store, p) :: Covers(Inside(r) + m + multiset{e}, p)
  {
    var e := Range(chunks, c);
    var store, all := Inside(RingPut(r, e)) + m, Inside(r) + m + multiset{e};
    PutKeepsStore(chunks, Inside(r) + m, c);
    PutLosesIff(r, e);
    AddBoth(Inside(RingPut(r, e)), Content(r.slots[r.freeSlide]), Inside(r), multiset{e}, m);
    FewerCover(all, store);
  }

  /** Nothing is lost exactly if the slot was empty. */
  lemma ViewAfterPut(v: View, r: Ring, m: Store, c: int)
    requires ChunksOk(v.chunks) && StoreOk(v.chunks, v.store) && c in v.chunks && v.store == Inside(r) + m
    ensures var w := View(v.chunks - {c}, Inside(RingPut(r, Range(v.chunks, c))) + m);
      NoLoss(w, v) && (NoLoss(v, w) <==> HasRoom(r))
  {
    var e, lost := Range(v.chunks, c), r.slots[r.freeSlide];
    PutLosesIff(r, e);
    SlotIsInside(r.slots, r.freeSlide);
    AddBoth(Inside(RingPut(r, e)), Content(lost), Inside(r), multiset{e}, m);
    PutLosesOnly(v, View(v.chunks - {c}, Inside(RingPut(r, e)) + m), c, lost);
  }

  lemma AllStaySmall(after: Store, lost: Store, before: Store, e: Extent)
    requires after + lost == before + multiset{e} && e.size == CHUNK_SIZE
    requires forall f | f in before :: f.size == CHUNK_SIZE
    ensures forall f | f in after :: f.size == CHUNK_SIZE
  {
    forall f | f in after
      ensures f in before || f == e
    {
      assert f in after + lost;
    }
  }

  // A 64K chunk that goes to the ring.
  lemma SmallPut(v: View, r: Ring, m: Store, c: int)
    requires ChunksOk(v.chunks) && StoreOk(v.chunks, v.store) && c in v.chunks && v.store == Inside(r) + m
    requires v.chunks[c].size <= CHUNK_SIZE && forall e | e in Inside(r) :: e.size == CHUNK_SIZE
    ensures var e := Range(v.chunks, c);
      var r' := RingPut(r, e);
      var w := View(v.chunks - {c}, Inside(r') + m);
      && StoreOk(w.chunks, w.store) && (forall p | Covers(w.store, p) :: Covers(v.store + multiset{e}, p))
      && NoLoss(w, v) && (NoLoss(v, w) <==> HasRoom(r)) && (forall f | f in Inside(r') :: f.size == CHUNK_SIZE)
  {
    var e := Range(v.chunks, c);
    assert HeaderOk(v.chunks[c]);
    StoreAfterPut(v.chunks, r, m, c);
    ViewAfterPut(v, r, m, c);
    PutLosesIff(r, e);
    AllStaySmall(Inside(RingPut(r, e)), Content(r.slots[r.freeSlide]), Inside(r), e);
  }

  lemma PutLosesOnly(v: View, w: View, c: int, lost: Option<Extent>)
    requires ChunksOk(v.chunks) && StoreOk(v.chunks, v.store) && c in v.chunks && w.chunks == v.chunks - {c}
    requires w.store + Content(lost) == v.store + multiset{Range(v.chunks, c)}
    requires lost.Some? ==> lost.value in v.store
    ensures NoLoss(w, v) && (NoLoss(v, w) <==> lost.None?)
  {
    var e := Range(v.chunks, c);
    var all := View(v.chunks - {c}, v.store + multiset{e});
    PutMaps(v, c, v.store, multiset{}, multiset{});
    assert v.store + multiset{} == v.store && multiset{e} + multiset{} == multiset{e};
    PutKeepsStore(v.chunks, v.store, c);
    FewerMapped(w, all);
    if lost.Some? { OverwrittenIsLost(v, w, lost.value, all.store); }
  }

  lemma FewerMapped(w: View, all: View)
    requires w.chunks == all.chunks && w.store <= all.store
    ensures NoLoss(w, all)
  {
    FewerCover(all.store, w.store);
  }

  // A chunk that was in the store and is nowhere now.
  lemma OverwrittenIsLost(v: View, w: View, lost: Extent, all: Store)
    requires StoreOk(v.chunks, v.store) && lost in v.store && w.chunks.Keys <= v.chunks.Keys
    requires forall c | c in w.chunks :: w.chunks[c] == v.chunks[c]
    requires Disjoint(all) && w.store + multiset{lost} <= all
    ensures !NoLoss(v, w)
  {
    var p := lost.addr;
    assert IsChunk(lost) && IsMapped(v, p);
    forall e | e in w.store
      ensures Apart(e, lost)
    {
      NotTheLost(w.store, lost, all, e);
    }
    forall c | c in w.chunks
      ensures Apart(Range(w.chunks, c), lost)
    {
      assert Apart(Range(v.chunks, c), lost);
    }
    assert !IsMapped(w, p);
  }

  lemma NotTheLost(store: Store, lost: Extent, all: Store, e: Extent)
    requires Disjoint(all) && store + multiset{lost} <= all && e in store
    ensures Apart(e, lost)
  {
    var both := store + multiset{lost};
    assert both[lost] <= all[lost] && both[e] <= all[e];
    assert lost in all && e in all;
  }

  lemma CoversSplit(m: Store, n: Store, p: int)
    ensures Covers(m + n, p) <==> Covers(m, p) || Covers(n, p)
  {
    if e :| e in m && Within(e, p) { assert e in m + n; }
    if e :| e in n && Within(e, p) { assert e in m + n; }
  }

  // Memory that was fresh stays fresh while chunks in use go to the store.
  lemma RecoverKeepsFresh(os: int -> int, chunks: map<int, Header>, store: Store, c: int, store': Store)
    requires OsFresh(os, chunks, store) && c in chunks && Proper(store')
    requires forall p | Covers(store', p) :: Covers(store + multiset{Range(chunks, c)}, p)
    ensures OsFresh(os, chunks - {c}, store')
  {
    PutKeepsFresh(os, chunks, store, c);
    var m := store + multiset{Range(chunks, c)};
    assert multiset{} + m == m && multiset{} + store' == store';
    ReworkKeepsFresh(os, chunks - {c}, multiset{}, m, store');
  }

  // The chunk can be put to use beside those in use already and those in the store.
  ghost predicate UsedFrom(chunks: map<int, Header>, e: Extent, store: Store) {
    && e.addr !in chunks
    && var chunks' := chunks[e.addr := Header(e.size, CHUNK_HEADER, 0, 0)];
       ChunksOk(chunks') && StoreOk(chunks', store)
  }

  lemma PartsOfStore(chunks: map<int, Header>, free: Store, m: Store)
    requires StoreOk(chunks, free + m)
    ensures Proper(m) && Disjoint(m)
  {
    forall e | e in m
      ensures IsChunk(e) && m[e] == 1
    {
      assert e in free + m && (free + m)[e] == 1;
    }
    forall a, b | a in m && b in m && a != b
      ensures Apart(a, b)
    {
      assert a in free + m && b in free + m;
    }
  }

  lemma SizesAreChunkSized(chunks: map<int, Header>, c: int)
    requires ChunksOk(chunks) && c in chunks
    ensures ChunkSized(chunks[c].size) && chunks[c].size >= CHUNK_SIZE
  {
    assert HeaderOk(chunks[c]);
  }

  lemma PagesOfChunk(size: int)
    requires ChunkSized(size)
    ensures (size + 4095) / 4096 * 4096 == size
  {
    var k := size / CHUNK_SIZE;
    assert size == 65536 * k;
    assert (4096 * (16 * k) + 4095) / 4096 == 16 * k;
  }

  /** The rounding always leaves room for the chunk header, the block header and the payload. */
  lemma ChunkForHasRoom(size: int)
    requires size >= 0
    ensures ChunkSized(ChunkFor(size)) && CHUNK_HEADER + BLOCK_HEADER + size <= ChunkFor(size)
    ensures 0 <= ChunkFor(size) - 2 * (CHUNK_HEADER + BLOCK_HEADER + size) < CHUNK_SIZE
  {
    var n := (size + CHUNK_HEADER + BLOCK_HEADER) * 2;
    assert n <= ChunkFor(size) < n + CHUNK_SIZE;
  }

  lemma FirstClearIs(busy: seq<bool>)
    ensures forall k | 0 <= k <= |busy| && (forall j | 0 <= j < k :: busy[j]) && (k < |busy| ==> !busy[k]) ::
      k == FirstClear(busy)
  {
  }

  lemma FlagBack(busy: seq<bool>, k: nat)
    requires k < |busy| && !busy[k]
    ensures busy[k := true][k := false] == busy
  {
  }

  // The allocation of a move decides whether the old block will be the last out of its chunk.
  lemma MoveLastOut(s: Snapshot, t: Snapshot, p: int, r: int, size: int, processors: nat)
    requires PlacesOk(s.chunks, s.micro) && |s.busy| == |s.micro| == |t.micro| && p in s.blocks && r !in s.blocks
    requires s.blocks[p].chunk in s.chunks && s.chunks[s.blocks[p].chunk].count > 0
    requires r in t.blocks && t.blocks == s.blocks[r := t.blocks[r]]
    requires var k := FirstClear(s.busy);
      && k < |s.micro|
      && CurrentAfter(s.chunks, s.micro, k, size >= BIG_REQUEST, size, TakenFor(s, size, processors),
                      t.chunks, t.micro, r, t.blocks[r])
    ensures IsLastOut(t, p) <==> IsLastOutAfter(s, p, size)
    ensures HomeOf(t, p) == HomeOf(s, p)
  {
    var c, d := s.blocks[p].chunk, Granter(s, size);
    assert Held(s.micro, d);
    if c != d { assert c in t.chunks && t.chunks[c] == s.chunks[c]; }
  }

  // Headers and grants when the block has stayed.
  predicate Stayed(s: Snapshot, granted: map<int, int>, p: int, size: int, chunks: map<int, Header>,
                   granted': map<int, int>)
    requires p in s.blocks
  {
    chunks == StayedChunks(s, p, size) && granted' == if s.blocks[p].size >= size then granted else granted[p := size]
  }

  // What `_realloc` writes then.
  lemma StaysSame(s: Snapshot, granted: map<int, int>, p: int, size: int)
    requires SpaceOk(s.chunks, s.blocks, granted) && p in s.blocks && s.blocks[p].size <= size
    requires s.blocks[p].chunk in s.chunks
    ensures var b, h := s.blocks[p], s.chunks[s.blocks[p].chunk];
      && (b.size == size ==> Stayed(s, granted, p, size, s.chunks, granted))
      && var chunks := s.chunks[b.chunk := h.(slide := h.slide + (size - b.size))];
         p + b.size == b.chunk + h.slide ==> Stayed(s, granted, p, size, chunks, granted[p := size])
  {
    var b, h := s.blocks[p], s.chunks[s.blocks[p].chunk];
    if p + b.size == b.chunk + h.slide && b.size == size {
      assert BlockOk(s.chunks, s.blocks, granted, p) && HeaderOk(h);
      GrowKeepsSpace(s.chunks, s.blocks, granted, p, 0);
      assert h.(slide := h.slide + 0) == h;
    }
  }

  // ---------------------------------------------------------------- runs

  // What two requests to the operating system are given has nothing in common.
  ghost predicate OsApart(os: int -> int, os': int -> int) {
    forall n: int, m: int {:trigger os(n), os'(m)} | ChunkSized(n) && ChunkSized(m) ::
      Apart(Extent(os(n), n), Extent(os'(m), m))
  }

  // The k-th request is given `world(k)`, and no memory is given twice.
  ghost predicate NeverTwice(world: int -> int -> int) {
    forall j, k {:trigger world(j), world(k)} :: 0 <= j < k ==> OsApart(world(j), world(k))
  }

  lemma NotMappedLater(os: int -> int, later: int -> int, v: View, w: View, m: int, p: int)
    requires OsFresh(later, v.chunks, v.store) && Balanced(os, false, v, w) && OsApart(os, later)
    requires ChunkSized(m) && IsMapped(w, p)
    ensures !Within(Extent(later(m), m), p)
  {
    assert later(m) > 0;
    if FromOs(os, p) {
      var n :| ChunkSized(n) && Within(Extent(os(n), n), p);
      assert Apart(Extent(os(n), n), Extent(later(m), m));
    } else {
      assert IsMapped(v, p);
    }
  }

  /** The memory that will be handed out later is as fresh after a step as it was before. */
  lemma FreshLater(os: int -> int, later: int -> int, v: View, w: View)
    requires OsFresh(later, v.chunks, v.store) && Balanced(os, false, v, w) && OsApart(os, later)
    requires ChunksOk(w.chunks) && Proper(w.store)
    ensures OsFresh(later, w.chunks, w.store)
  {
    forall m: int | ChunkSized(m)
      ensures later(m) > 0
      ensures forall c | c in w.chunks :: Apart(Extent(later(m), m), Range(w.chunks, c))
      ensures forall e | e in w.store :: Apart(Extent(later(m), m), e)
    {
      var x := Extent(later(m), m);
      assert x.addr > 0;
      forall c | c in w.chunks
        ensures Apart(x, Range(w.chunks, c))
      {
        assert HeaderOk(w.chunks[c]);
        if !Apart(x, Range(w.chunks, c)) {
          var p := CommonPoint(x, Range(w.chunks, c));
          NotMappedLater(os, later, v, w, m, p);
        }
      }
      forall e | e in w.store
        ensures Apart(x, e)
      {
        if !Apart(x, e) {
          var p := CommonPoint(x, e);
          NotMappedLater(os, later, v, w, m, p);
        }
      }
    }
  }

  datatype Answer = Granted(mem: int) | Refused | Stuck

  class MempageHeap {
    const space: Space
    const big: BigFreeList
    const ring: FreeRing         // _free, the store of 64K chunks
    var micro: seq<Micro>        // _heap
    var busy: seq<bool>          // the `_flag`s of the micro heaps

    ghost function Stored(): Store
      requires big.slide <= big.bigfree.Length
      reads ring, big, big.bigfree
    {
      Inside(ring.now) + multiset(big.Listed())
    }

    ghost function Seen(): View
      requires big.slide <= big.bigfree.Length
      reads this, ring, ring.slots, space, big, big.bigfree
    {
      View(space.chunks, Stored())
    }

    ghost function OnShelf(): Shelf
      requires big.slide <= big.bigfree.Length
      reads ring, big, big.bigfree
    {
      Shelf(ring.now, big.Listed(), big.bigfree.Length)
    }

    ghost function Now(): Snapshot
      requires big.slide <= big.bigfree.Length
      reads this, ring, ring.slots, space, big, big.bigfree
    {
      Snapshot(OnShelf(), space.chunks, micro, busy, space.blocks)
    }

    // What the searches may depend on, as the operating system tells it.
    function Processors(): nat { big.concurrentCount }

    /** All that does not speak of who holds a chunk. */
    ghost predicate Sound()
      reads this, ring, ring.slots, space, big, big.bigfree
    {
      && space.Valid() && big.Valid() && RingOk()
      && StoreOk(space.chunks, Stored())
    }

    // In the ring there are 64K chunks only.
    ghost predicate RingOk()
      reads ring, ring.slots
    {
      ring.Valid() && forall e | e in Inside(ring.now) :: e.size == CHUNK_SIZE
    }

    ghost predicate Valid()
      reads this, ring, ring.slots, space, big, big.bigfree
    {
      Sound() && PlacesOk(space.chunks, micro) && |busy| == |micro|
    }

    ghost predicate Fresh(os: int -> int)
      requires big.slide <= big.bigfree.Length
      reads this, ring, ring.slots, space, big, big.bigfree
    {
      OsFresh(os, space.chunks, Stored())
    }

    /** `_create_mempage_heap`: each micro heap starts with a chunk of 256K and one of 64K. */
    constructor (places: seq<Micro>, ghost own: nat)
      requires FreshPlaces(places) && OwnChunkSuffices(own, |places|)
      ensures Valid() && micro == places && busy == seq(|places|, _ => false) && Stored() == multiset{}
      ensures OnShelf() == Shelf(NewRing(), [], ROOM) && fresh(ring) && fresh(ring.slots) && Processors() == |places|
      ensures space.blocks == map[] && space.mem == map[] && fresh(space) && fresh(big)
      ensures fresh(big.bigfree) && fresh(big.tmpchunk) && InitialChunks(space.chunks, places, |places|)
    {
      OwnChunkIsEnough(own, |places|);
      space := new Space();
      ring := new FreeRing();
      big := new BigFreeList(|places|);
      micro, busy := places, seq(|places|, _ => false);
      new;
      NewRingIsEmpty();
      var k := 0;
      while k < |places|
        invariant k <= |places| && space.Valid() && space.blocks == map[] && space.mem == map[] && fresh(space)
        invariant InitialChunks(space.chunks, places, k)
        invariant big.Valid() && big.Listed() == [] && fresh(big) && fresh(big.bigfree)
        invariant ring.Valid() && ring.now == NewRing() && fresh(ring) && fresh(ring.slots)
        invariant big.bigfree.Length == ROOM
        invariant big.concurrentCount == |places| && micro == places && busy == seq(|places|, _ => false)
      {
        AddMicro(places, k);
        k := k + 1;
      }
      InitialPlaces(space.chunks, places);
      assert Stored() == multiset{};
    }

    // Lines 43-46.
    method AddMicro(places: seq<Micro>, k: nat)
      requires k < |places| && FreshPlaces(places)
      requires space.Valid() && InitialChunks(space.chunks, places, k)
      modifies space`chunks
      ensures space.Valid() && InitialChunks(space.chunks, places, k + 1)
    {
      AdoptInitial(space.chunks, places, k);
      InitialGrows(space.chunks, places, k);
      space.Adopt(places[k].chunk, 4 * CHUNK_SIZE);
      space.Adopt(places[k].small, CHUNK_SIZE);
    }

    /** `_chunk`: a chunk of at least `size` bytes with a fresh header, from the ring, the list or the operating
        system.  Its callers ask for multiples of 64K. */
    method GetChunk(size: int, os: int -> int) returns (c: int, done: bool, ghost r: Taken)
      requires Sound() && ChunkSized(size) && Fresh(os)
      modifies ring, ring.slots, space`chunks, big`slide, big.bigfree, big.tmpchunk
      ensures (done <==> r != NeverReturns) && r == Got(old(OnShelf()), size, Processors()).0
      ensures done ==> Sound() && c !in old(space.chunks) && OnShelf() == Got(old(OnShelf()), size, Processors()).1
      ensures Chosen(old(OnShelf()), size, Processors(), r, if done then OnShelf() else old(OnShelf()))
      ensures done ==> space.chunks == old(space.chunks)[c := FreshHeader(r, size)] && size <= FreshHeader(r, size).size
      ensures done ==> c == if r.Chunk? then r.chunk.addr else os(size)
      ensures done ==> Balanced(os, |old(big.Listed())| <= ROOM, old(Seen()), Seen())
    {
      ghost var before, whole := Seen(), big.slide <= ROOM;
      SeenIsSized();
      GotIsChosen(OnShelf(), size, Processors());
      var taken := TakeChunk(size, os);
      r := taken;
      done := taken != NeverReturns;
      if taken.Chunk? {
        c := taken.chunk.addr;
        Use(taken.chunk, os, whole, before);
      } else if done {
        PagesOfChunk(size);
        c := Create((size + 4095) / 4096 * 4096, os, whole, before);
      } else {
        c := NULL;
      }
    }

    // The ring first, then the list.
    method TakeChunk(size: int, os: int -> int) returns (r: Taken)
      requires Sound() && ChunkSized(size) && Fresh(os)
      modifies ring, ring.slots, big`slide, big.bigfree, big.tmpchunk
      ensures big.Valid() && RingOk() && r == Got(old(OnShelf()), size, Processors()).0
      ensures r != NeverReturns ==> OnShelf() == Got(old(OnShelf()), size, Processors()).1
      ensures r.Chunk? ==> size <= r.chunk.size && ChunkSized(r.chunk.size) && UsedFrom(space.chunks, r.chunk, Stored())
      ensures r.Chunk? ==> Took(os, |old(big.Listed())| <= ROOM, old(Seen()), Seen(), r.chunk)
      ensures r.Nothing? ==> Sound() && Fresh(os) && Balanced(os, |old(big.Listed())| <= ROOM, old(Seen()), Seen())
    {
      if size <= CHUNK_SIZE {
        r := TakeSmall(os);
        if r != Nothing { return; }
      }
      r := TakeBig(if size > CHUNK_SIZE then size else CHUNK_SIZE, os);
    }

    // `_create_chunk` on memory the operating system hands out.
    method Create(n: int, os: int -> int, ghost whole: bool, ghost before: View) returns (c: int)
      requires Sound() && ChunkSized(n) && Fresh(os) && Balanced(os, whole, before, Seen())
      modifies space`chunks
      ensures Sound() && c == os(n) && c !in old(space.chunks)
      ensures space.chunks == old(space.chunks)[c := Header(n, CHUNK_HEADER, 0, 0)]
      ensures Balanced(os, whole, before, Seen())
    {
      CreateKeepsStore(os, space.chunks, Stored(), n);
      c := os(n);
      Use(Extent(c, n), os, whole, before);
    }

    // A chunk out of the store, or from the operating system, gets a fresh header.
    method Use(e: Extent, ghost os: int -> int, ghost whole: bool, ghost before: View)
      requires space.Valid() && big.Valid() && RingOk()
      requires ChunkSized(e.size) && UsedFrom(space.chunks, e, Stored()) && Took(os, whole, before, Seen(), e)
      modifies space`chunks
      ensures Sound() && space.chunks == old(space.chunks)[e.addr := Header(e.size, CHUNK_HEADER, 0, 0)]
      ensures Balanced(os, whole, before, Seen())
    {
      AdoptBalances(os, whole, before, Seen(), e, Header(e.size, CHUNK_HEADER, 0, 0));
      space.Adopt(e.addr, e.size);
    }

    /** `_recover_chunk`: an empty chunk goes to the store its size belongs to.  (With one thread the merge of
        lines 197-202 has nothing to look at.)  No memory is lost if there is room; a 64K chunk put where there is
        none always loses the one that was there. */
    method RecoverChunk(c: int) returns (done: bool)
      requires Sound() && c in space.chunks && space.chunks[c].count == 0
      modifies ring, ring.slots, space`chunks, big`slide, big`bigfree, big.bigfree, big.tmpchunk
      ensures big.bigfree == old(big.bigfree) || fresh(big.bigfree)
      ensures done ==> Sound() && space.chunks == old(space.chunks) - {c}
      ensures PutBack(old(OnShelf()), old(Range(space.chunks, c)), Processors())
        == if done then Some(OnShelf()) else None
      ensures done ==> var e := old(Range(space.chunks, c));
        if e.size > CHUNK_SIZE then
          multiset(big.Listed()) == multiset{e} + Cleared(old(big.Listed()), old(big.bigfree.Length), Processors())
        else
          Inside(ring.now) + Content(old(ring.now.slots[ring.now.freeSlide])) == Inside(old(ring.now)) + multiset{e}
      ensures done ==> forall p | Covers(Stored(), p) ::
        Covers(old(Stored()) + multiset{old(Range(space.chunks, c))}, p)
      ensures done ==> NoLoss(Seen(), old(Seen())) && (Spacious(old(OnShelf())) ==> NoLoss(old(Seen()), Seen()))
      ensures done && old(Range(space.chunks, c)).size <= CHUNK_SIZE ==>
        (NoLoss(old(Seen()), Seen()) <==> HasRoom(old(ring.now)))
    {
      if space.chunks[c].size > CHUNK_SIZE {
        done := RecoverToBig(c);
      } else {
        RecoverToFree(c);
        done := true;
      }
    }

    // `_recover_to_bigfree`, and what it means for the store.
    method RecoverToBig(c: int) returns (done: bool)
      requires Sound() && c in space.chunks && space.chunks[c].count == 0 && space.chunks[c].size > CHUNK_SIZE
      modifies space`chunks, big`slide, big`bigfree, big.bigfree, big.tmpchunk
      ensures big.bigfree == old(big.bigfree) || fresh(big.bigfree)
      ensures done ==> Sound() && space.chunks == old(space.chunks) - {c}
      ensures done ==> multiset(big.Listed()) == multiset{old(Range(space.chunks, c))} +
                         Cleared(old(big.Listed()), old(big.bigfree.Length), big.concurrentCount)
      ensures done ==> forall p | Covers(Stored(), p) ::
        Covers(old(Stored()) + multiset{old(Range(space.chunks, c))}, p)
      ensures done ==> NoLoss(Seen(), old(Seen())) && (|old(big.Listed())| <= ROOM ==> NoLoss(old(Seen()), Seen()))
      ensures PutBack(old(OnShelf()), old(Range(space.chunks, c)), Processors())
        == if done then Some(OnShelf()) else None
    {
      ghost var chunks, free, xs, before := space.chunks, Inside(ring.now), big.Listed(), Seen();
      var e := Range(space.chunks, c);
      ghost var cleared := Cleared(xs, big.bigfree.Length, big.concurrentCount);
      StoreAfterRecover(chunks, free, xs, c, cleared, big.concurrentCount);
      ViewAfterRecover(before, free, xs, c, cleared, big.concurrentCount);
      space.Discard(c);
      done := big.Recover(e);
    }

    // `_recover_to_free`, and what it means for the store.
    method RecoverToFree(c: int)
      requires Sound() && c in space.chunks && space.chunks[c].count == 0 && space.chunks[c].size <= CHUNK_SIZE
      modifies ring, ring.slots, space`chunks
      ensures Sound() && space.chunks == old(space.chunks) - {c}
      ensures ring.now == RingPut(old(ring.now), old(Range(space.chunks, c)))
      ensures Inside(ring.now) + Content(old(ring.now.slots[ring.now.freeSlide]))
        == Inside(old(ring.now)) + multiset{old(Range(space.chunks, c))}
      ensures forall p | Covers(Stored(), p) :: Covers(old(Stored()) + multiset{old(Range(space.chunks, c))}, p)
      ensures NoLoss(Seen(), old(Seen())) && (NoLoss(old(Seen()), Seen()) <==> HasRoom(old(ring.now)))
    {
      SmallPut(Seen(), ring.now, multiset(big.Listed()), c);
      var e := Range(space.chunks, c);
      space.Discard(c);
      ring.Put(e);
    }

    // Lines 42, 56 and 73 of mirco_mempage_heap.cpp: another chunk takes the place of one given up.
    method Renew(k: nat, which: bool, wanted: int, os: int -> int, ghost before: map<int, Header>) returns (done: bool)
      requires Sound() && Fresh(os) && ChunkSized(wanted) && k < |micro| == |busy|
      requires PlacesOk(before, micro) && GivenUp(before, space.chunks, Current(micro[k], which))
      modifies this`micro, ring, ring.slots, space`chunks, big`slide, big.bigfree, big.tmpchunk
      ensures done <==> Got(old(OnShelf()), wanted, Processors()).0 != NeverReturns
      ensures done ==> Valid() && OnShelf() == Got(old(OnShelf()), wanted, Processors()).1
      ensures done ==> var r := Got(old(OnShelf()), wanted, Processors()).0;
        Replaced(before, old(micro), k, which, r, wanted, FreshHeader(r, wanted), space.chunks, micro)
      ensures done ==> Balanced(os, |old(big.Listed())| <= ROOM, old(Seen()), Seen())
    {
      var c;
      ghost var given, r := space.chunks, NeverReturns;
      c, done, r := GetChunk(wanted, os);
      if done {
        RenewKeepsPlaces(before, given, micro, k, which, r, wanted, c, space.chunks[c], space.chunks);
        Hold(k, which, c);
      }
    }

    // The micro heap's new current chunk.
    method Hold(k: nat, which: bool, c: int)
      requires Sound() && k < |micro| == |busy|
      requires PlacesOk(space.chunks, micro[k := WithCurrent(micro[k], which, c)])
      modifies this`micro
      ensures Valid() && micro == old(micro)[k := WithCurrent(old(micro[k]), which, c)]
      ensures Seen() == old(Seen()) && OnShelf() == old(OnShelf())
    {
      micro := micro[k := WithCurrent(micro[k], which, c)];
    }

    // A failed `_malloc` in a held chunk leaves the heap as it was, up to that chunk's slide.
    method TryCurrent(k: nat, which: bool, size: int, os: int -> int) returns (p: int)
      requires Valid() && Fresh(os) && k < |micro| && size >= 0
      modifies space
      ensures Valid() && Fresh(os) && space.mem == old(space.mem)
      ensures NoLoss(old(Seen()), Seen()) && NoLoss(Seen(), old(Seen()))
      ensures var c := Current(micro[k], which);
        && c in old(space.chunks) && c in space.chunks
        && var h := old(space.chunks[c]);
           if Fits(h, size) then
             && p == c + Start(h) + BLOCK_HEADER && p != NULL && p !in old(space.blocks)
             && space.chunks == old(space.chunks)[c := Bumped(h, size)]
             && space.blocks == old(space.blocks)[p := Block(c, size)] && space.granted == old(space.granted)[p := size]
           else
             && p == NULL && space.blocks == old(space.blocks) && space.granted == old(space.granted)
             && space.chunks == old(space.chunks)[c := h.(slide := Start(h))]
    {
      var c := Current(micro[k], which);
      assert HasBoth(space.chunks, micro[k]) && Held(micro, c);
      ghost var before := space.chunks;
      p := space.Malloc(c, size);
      OneHeaderKeepsAll(os, before, c, space.chunks[c], Stored());
      OneHeaderKeepsPlaces(before, c, space.chunks[c], micro);
    }

    // rec_flag.store(1) on a chunk with live blocks.
    method Retire(c: int, os: int -> int)
      requires Sound() && Fresh(os) && c in space.chunks && space.chunks[c].count != 0
      modifies space`chunks
      ensures Sound() && Fresh(os) && GivenUp(old(space.chunks), space.chunks, c)
      ensures NoLoss(old(Seen()), Seen()) && NoLoss(Seen(), old(Seen()))
    {
      ghost var before := space.chunks;
      assert space.chunks[c].count == |BlocksOf(space.blocks, c)|;
      space.SetRec(c, 1);
      OneHeaderKeepsAll(os, before, c, space.chunks[c], Stored());
    }

    // `_recover_chunk` on an empty current chunk.
    method Recycle(c: int, os: int -> int) returns (done: bool)
      requires Sound() && Fresh(os) && c in space.chunks && space.chunks[c].count == 0
      modifies ring, ring.slots, space`chunks, big`slide, big`bigfree, big.bigfree, big.tmpchunk
      ensures big.bigfree == old(big.bigfree) || fresh(big.bigfree)
      ensures done ==> Sound() && Fresh(os) && GivenUp(old(space.chunks), space.chunks, c)
      ensures done ==> NoLoss(Seen(), old(Seen())) && (Spacious(old(OnShelf())) ==> NoLoss(old(Seen()), Seen()))
      ensures PutBack(old(OnShelf()), old(Range(space.chunks, c)), Processors())
        == if done then Some(OnShelf()) else None
    {
      ghost var before, store := space.chunks, Stored();
      done := RecoverChunk(c);
      if done { RecoverKeepsFresh(os, before, store, c, Stored()); }
    }

    // A fresh chunk with room for the request grants it.
    method GrantFresh(k: nat, which: bool, size: int) returns (p: int)
      requires Valid() && k < |micro| && size >= 0
      requires var c := Current(micro[k], which);
        c in space.chunks && space.chunks[c].count == 0 && CHUNK_HEADER + BLOCK_HEADER + size <= space.chunks[c].size
      modifies space
      ensures Valid() && p != NULL && p !in old(space.blocks) && space.mem == old(space.mem)
      ensures GrantedOne(old(space.blocks), old(space.granted), p, size, space.blocks, space.granted)
      ensures space.blocks[p] == Block(Current(micro[k], which), size)
      ensures p == Current(micro[k], which) + CHUNK_HEADER + BLOCK_HEADER
      ensures var c := Current(micro[k], which);
        space.chunks == old(space.chunks)[c := Bumped(old(space.chunks[c]), size)]
      ensures NoLoss(old(Seen()), Seen()) && NoLoss(Seen(), old(Seen()))
    {
      var c := Current(micro[k], which);
      assert Held(micro, c);
      ghost var before := space.chunks;
      p := space.Malloc(c, size);
      OneHeaderKeepsStore(before, c, space.chunks[c], Stored());
      OneHeaderKeepsPlaces(before, c, space.chunks[c], micro);
    }

    // What replaces the current chunk of a micro heap grants the request.
    ghost predicate ReplacedAndGranted(chunks: map<int, Header>, held: seq<Micro>, k: nat, which: bool, r: Taken,
                                       wanted: int, size: int, p: int)
      requires k < |held|
      reads this, space
    {
      && Replaced(chunks, held, k, which, r, wanted, Bumped(FreshHeader(r, wanted), size), space.chunks, micro)
      && p == Current(micro[k], which) + CHUNK_HEADER + BLOCK_HEADER
      && p in space.blocks && space.blocks[p] == Block(Current(micro[k], which), size)
    }

    // A current chunk with live blocks is given up for one of `wanted` bytes.
    method RetireAndRenew(k: nat, which: bool, wanted: int, os: int -> int) returns (done: bool)
      requires Valid() && Fresh(os) && k < |micro| && ChunkSized(wanted)
      requires var c := Current(micro[k], which); c in space.chunks && space.chunks[c].count != 0
      modifies this`micro, ring, ring.slots, space`chunks, big`slide, big.bigfree, big.tmpchunk
      ensures done <==> Got(old(OnShelf()), wanted, Processors()).0 != NeverReturns
      ensures done ==> Valid() && OnShelf() == Got(old(OnShelf()), wanted, Processors()).1
      ensures done ==> var r := Got(old(OnShelf()), wanted, Processors()).0;
        Replaced(old(space.chunks), old(micro), k, which, r, wanted, FreshHeader(r, wanted), space.chunks, micro)
      ensures done ==> Balanced(os, |old(big.Listed())| <= ROOM, old(Seen()), Seen())
    {
      ghost var before := space.chunks;
      Retire(Current(micro[k], which), os);
      done := Renew(k, which, wanted, os, before);
    }

    // The chunk that replaces it grants the request.
    method RetireAndGrant(k: nat, which: bool, wanted: int, size: int, os: int -> int) returns (p: int, done: bool)
      requires Valid() && Fresh(os) && k < |micro| && size >= 0
      requires ChunkSized(wanted) && CHUNK_HEADER + BLOCK_HEADER + size <= wanted
      requires var c := Current(micro[k], which); c in space.chunks && space.chunks[c].count != 0
      modifies this`micro, ring, ring.slots, space, big`slide, big.bigfree, big.tmpchunk
      ensures done <==> Got(old(OnShelf()), wanted, Processors()).0 != NeverReturns
      ensures done ==> Valid() && OnShelf() == Got(old(OnShelf()), wanted, Processors()).1
      ensures done ==> var r := Got(old(OnShelf()), wanted, Processors()).0;
        ReplacedAndGranted(old(space.chunks), old(micro), k, which, r, wanted, size, p)
      ensures done ==> p != NULL && p !in old(space.blocks)
      ensures done ==> GrantedOne(old(space.blocks), old(space.granted), p, size, space.blocks, space.granted)
      ensures done ==> space.mem == old(space.mem)
      ensures done ==> Balanced(os, |old(big.Listed())| <= ROOM, old(Seen()), Seen())
    {
      p := NULL;
      ghost var chunks, held, r := space.chunks, micro, Got(OnShelf(), wanted, Processors()).0;
      done := RetireAndRenew(k, which, wanted, os);
      if done {
        BumpKeepsReplaced(chunks, held, k, which, r, wanted, FreshHeader(r, wanted), space.chunks, micro, size);
        p := GrantFresh(k, which, size);
      }
    }

    // Lines 45-46 and 56: an empty current chunk is recovered and replaced by one of `wanted` bytes.
    method RecycleAndRenew(k: nat, wanted: int, os: int -> int) returns (done: bool)
      requires Valid() && Fresh(os) && k < |micro| && ChunkSized(wanted)
      requires micro[k].chunk in space.chunks && space.chunks[micro[k].chunk].count == 0
      modifies this`micro, ring, ring.slots, space`chunks, big`slide, big`bigfree, big.bigfree, big.tmpchunk
      ensures big.bigfree == old(big.bigfree) || fresh(big.bigfree)
      ensures done ==> Valid()
      ensures var got := PutThenGot(old(OnShelf()), old(Range(space.chunks, micro[k].chunk)), wanted, Processors());
        && (done <==> got.0 != NeverReturns)
        && (done ==> OnShelf() == got.1)
        && (done ==> Replaced(old(space.chunks), old(micro), k, true, got.0, wanted, FreshHeader(got.0, wanted),
                              space.chunks, micro))
      ensures done ==> Balanced(os, Roomy(old(OnShelf())), old(Seen()), Seen())
    {
      ghost var before, shelf, e := space.chunks, OnShelf(), Range(space.chunks, micro[k].chunk);
      ghost var v := Seen();
      done := Recycle(micro[k].chunk, os);
      if done {
        ghost var m, whole, table := Seen(), |big.Listed()| <= ROOM, big.bigfree;
        assert PutThenGot(shelf, e, wanted, Processors()) == Got(OnShelf(), wanted, Processors());
        assert Roomy(shelf) ==> whole by { PutBackKeepsShelf(shelf, e, Processors()); }
        done := Renew(k, true, wanted, os, before);
        assert big.bigfree == table;
        if done { BalancedThen(os, Roomy(shelf), v, m, whole, Seen()); }
      }
    }

    method RecycleAndGrant(k: nat, wanted: int, size: int, os: int -> int) returns (p: int, done: bool)
      requires Valid() && Fresh(os) && k < |micro| && size >= 0
      requires ChunkSized(wanted) && CHUNK_HEADER + BLOCK_HEADER + size <= wanted
      requires micro[k].chunk in space.chunks && space.chunks[micro[k].chunk].count == 0
      modifies this`micro, ring, ring.slots, space, big`slide, big`bigfree, big.bigfree, big.tmpchunk
      ensures big.bigfree == old(big.bigfree) || fresh(big.bigfree)
      ensures done ==> Valid()
      ensures var got := PutThenGot(old(OnShelf()), old(Range(space.chunks, micro[k].chunk)), wanted, Processors());
        && (done <==> got.0 != NeverReturns)
        && (done ==> OnShelf() == got.1)
        && (done ==> ReplacedAndGranted(old(space.chunks), old(micro), k, true, got.0, wanted, size, p))
      ensures done ==> p != NULL && p !in old(space.blocks)
      ensures done ==> GrantedOne(old(space.blocks), old(space.granted), p, size, space.blocks, space.granted)
      ensures done ==> space.mem == old(space.mem)
      ensures done ==> Balanced(os, Roomy(old(OnShelf())), old(Seen()), Seen())
    {
      p := NULL;
      ghost var chunks, held := space.chunks, micro;
      ghost var r := PutThenGot(OnShelf(), Range(space.chunks, micro[k].chunk), wanted, Processors()).0;
      done := RecycleAndRenew(k, wanted, os);
      if done {
        BumpKeepsReplaced(chunks, held, k, true, r, wanted, FreshHeader(r, wanted), space.chunks, micro, size);
        p := GrantFresh(k, true, size);
      }
    }

    /** `_mirco_mempage_heap_alloc_big`.  With one thread a full chunk that fits the request cannot be empty
        (line 29), and a count that was not zero is not zero when loaded again (lines 35, 50). */
    method AllocBig(k: nat, size: int, os: int -> int) returns (p: int, done: bool)
      requires Valid() && Fresh(os) && k < |micro| && size >= 0
      modifies this`micro, ring, ring.slots, space, big`slide, big`bigfree, big.bigfree, big.tmpchunk
      ensures big.bigfree == old(big.bigfree) || fresh(big.bigfree)
      ensures done ==> Valid() && |micro| == old(|micro|) && p != NULL && p !in old(space.blocks)
      ensures done ==> GrantedOne(old(space.blocks), old(space.granted), p, size, space.blocks, space.granted)
      ensures done ==> space.mem == old(space.mem)
      ensures HasBoth(old(space.chunks), old(micro[k]))
      ensures var c := old(Current(micro[k], true));
        AfterMicro(old(OnShelf()), c, old(space.chunks)[c], true, size, Processors())
          == if done then Some(OnShelf()) else None
      ensures done ==> var c := old(Current(micro[k], true));
        CurrentAfter(old(space.chunks), old(micro), k, true, size,
                     Renewed(old(OnShelf()), c, old(space.chunks)[c], true, size, Processors()).0,
                     space.chunks, micro, p, space.blocks[p])
      ensures done ==> Balanced(os, Roomy(old(OnShelf())), old(Seen()), Seen())
    {
      done := true;
      ghost var chunks, held, shelf := space.chunks, micro, OnShelf();
      p := TryCurrent(k, true, size, os);
      if p == NULL {
        p, done := ReplaceBig(k, size, os);
        if done {
          ghost var c := held[k].chunk;
          ghost var h := chunks[c];
          ghost var r := Renewed(shelf, c, h, true, size, Processors()).0;
          RestartKeepsReplaced(chunks, held, k, true, r, Wanted(h, true, size),
                               Bumped(FreshHeader(r, Wanted(h, true, size)), size), space.chunks, micro);
        }
      }
    }

    // Lines 24-58: the current chunk is full.
    method ReplaceBig(k: nat, size: int, os: int -> int) returns (p: int, done: bool)
      requires Valid() && Fresh(os) && k < |micro| && size >= 0
      requires micro[k].chunk in space.chunks && !Fits(space.chunks[micro[k].chunk], size)
      modifies this`micro, ring, ring.slots, space, big`slide, big`bigfree, big.bigfree, big.tmpchunk
      ensures big.bigfree == old(big.bigfree) || fresh(big.bigfree)
      ensures done ==> Valid()
      ensures var c, h := old(micro[k].chunk), old(space.chunks[micro[k].chunk]);
        var got := Renewed(old(OnShelf()), c, h, true, size, Processors());
        && (done <==> got.0 != NeverReturns)
        && (done ==> OnShelf() == got.1)
        && (done ==> ReplacedAndGranted(old(space.chunks), old(micro), k, true, got.0, Wanted(h, true, size), size, p))
      ensures done ==> p != NULL && p !in old(space.blocks)
      ensures done ==> GrantedOne(old(space.blocks), old(space.granted), p, size, space.blocks, space.granted)
      ensures done ==> space.mem == old(space.mem)
      ensures done ==> Balanced(os, Roomy(old(OnShelf())), old(Seen()), Seen())
    {
      ChunkForHasRoom(size);
      var h := space.chunks[micro[k].chunk];
      var chunksize, oldChunksize := ChunkFor(size), h.size;
      if chunksize <= oldChunksize {
        SizesAreChunkSized(space.chunks, micro[k].chunk);
        p, done := RetireAndGrant(k, true, oldChunksize, size, os);
      } else if h.count == 0 {
        p, done := RecycleAndGrant(k, chunksize, size, os);
      } else {
        p, done := RetireAndGrant(k, true, chunksize, size, os);
      }
    }

    /** `_mirco_mempage_heap_alloc_small`, under the same remark. */
    method AllocSmall(k: nat, size: int, os: int -> int) returns (p: int, done: bool)
      requires Valid() && Fresh(os) && k < |micro| && 0 <= size < BIG_REQUEST
      modifies this`micro, ring, ring.slots, space, big`slide, big`bigfree, big.bigfree, big.tmpchunk
      ensures big.bigfree == old(big.bigfree) || fresh(big.bigfree)
      ensures done ==> Valid() && |micro| == old(|micro|) && p != NULL && p !in old(space.blocks)
      ensures done ==> GrantedOne(old(space.blocks), old(space.granted), p, size, space.blocks, space.granted)
      ensures done ==> space.mem == old(space.mem)
      ensures HasBoth(old(space.chunks), old(micro[k]))
      ensures var c := old(Current(micro[k], false));
        AfterMicro(old(OnShelf()), c, old(space.chunks)[c], false, size, Processors())
          == if done then Some(OnShelf()) else None
      ensures done ==> var c := old(Current(micro[k], false));
        CurrentAfter(old(space.chunks), old(micro), k, false, size,
                     Renewed(old(OnShelf()), c, old(space.chunks)[c], false, size, Processors()).0,
                     space.chunks, micro, p, space.blocks[p])
      ensures done ==> Balanced(os, Roomy(old(OnShelf())), old(Seen()), Seen())
    {
      done := true;
      ghost var chunks, held, shelf := space.chunks, micro, OnShelf();
      p := TryCurrent(k, false, size, os);
      if p == NULL {
        SizesAreChunkSized(space.chunks, micro[k].small);
        p, done := RetireAndGrant(k, false, CHUNK_SIZE, size, os);
        if done {
          ghost var r := Got(shelf, CHUNK_SIZE, Processors()).0;
          RestartKeepsReplaced(chunks, held, k, false, r, CHUNK_SIZE, Bumped(FreshHeader(r, CHUNK_SIZE), size),
                               space.chunks, micro);
        }
      }
    }

    /** `_mirco_mempage_heap_alloc`: it never comes back without a block. */
    method MicroAlloc(k: nat, size: int, os: int -> int) returns (p: int, done: bool)
      requires Valid() && Fresh(os) && k < |micro| && size >= 0
      modifies this`micro, ring, ring.slots, space, big`slide, big`bigfree, big.bigfree, big.tmpchunk
      ensures big.bigfree == old(big.bigfree) || fresh(big.bigfree)
      ensures done ==> Valid() && |micro| == old(|micro|) && p != NULL && p !in old(space.blocks)
      ensures done ==> GrantedOne(old(space.blocks), old(space.granted), p, size, space.blocks, space.granted)
      ensures done ==> space.mem == old(space.mem)
      ensures done ==> Balanced(os, Roomy(old(OnShelf())), old(Seen()), Seen())
      ensures HasBoth(old(space.chunks), old(micro[k]))
      ensures var c := old(Current(micro[k], size >= BIG_REQUEST));
        AfterMicro(old(OnShelf()), c, old(space.chunks)[c], size >= BIG_REQUEST, size, Processors())
          == if done then Some(OnShelf()) else None
      ensures done ==> var c := old(Current(micro[k], size >= BIG_REQUEST));
        CurrentAfter(old(space.chunks), old(micro), k, size >= BIG_REQUEST, size,
                     Renewed(old(OnShelf()), c, old(space.chunks)[c], size >= BIG_REQUEST, size, Processors()).0,
                     space.chunks, micro, p, space.blocks[p])
    {
      if size >= BIG_REQUEST {
        p, done := AllocBig(k, size, os);
      } else {
        p, done := AllocSmall(k, size, os);
      }
    }

    // Lines 70-71 and 78-80 of `_mempage_heap_alloc`: the first micro heap whose flag was clear, now set.
    method AcquireMicro() returns (k: nat)
      requires |busy| == |micro|
      modifies this`busy
      ensures k <= |micro| == |busy|
      ensures k == |micro| <==> forall j | 0 <= j < |old(busy)| :: old(busy)[j]
      ensures k == FirstClear(old(busy)) && (k == |micro| ==> busy == old(busy))
      ensures k < |micro| ==> !old(busy)[k] && busy == old(busy)[k := true]
    {
      FirstClearIs(busy);
      k := 0;
      while k < |micro|
        invariant k <= |micro| == |busy| && busy == old(busy) && forall j | 0 <= j < k :: busy[j]
      {
        if !busy[k] {
          busy := busy[k := true];
          return;
        }
        k := k + 1;
      }
    }

    /** `_mempage_heap_alloc`: grants a new block, unless every micro heap is busy, or a search of the big list or
        the wait at the ring never ends.  Nothing else in the heap changes for those who hold blocks. */
    method Alloc(size: int, os: int -> int) returns (r: Answer)
      requires Valid() && Fresh(os) && size >= 0
      modifies this, ring, ring.slots, space, big`slide, big`bigfree, big.bigfree, big.tmpchunk
      ensures big.bigfree == old(big.bigfree) || fresh(big.bigfree)
      ensures r.Refused? <==> forall j | 0 <= j < |old(busy)| :: old(busy)[j]
      ensures !r.Stuck? ==> Valid() && busy == old(busy) && space.mem == old(space.mem)
      ensures !r.Stuck? ==> Balanced(os, Roomy(old(OnShelf())), old(Seen()), Seen())
      ensures !r.Stuck? ==> big.slide <= old(big.slide) + 1
      ensures r.Refused? ==> space.blocks == old(space.blocks) && space.granted == old(space.granted)
      ensures r.Granted? ==> r.mem != NULL && r.mem !in old(space.blocks)
      ensures r.Granted? ==> GrantedOne(old(space.blocks), old(space.granted), r.mem, size, space.blocks, space.granted)
      ensures AfterAlloc(old(Now()), size, Processors()) == if r.Stuck? then None else Some(OnShelf())
      ensures r.Refused? ==> space.chunks == old(space.chunks) && micro == old(micro)
      ensures r.Granted? ==> |micro| == old(|micro|) && FirstClear(old(busy)) < old(|micro|)
      ensures r.Granted? ==> GrantedAt(old(Now()), Now(), r.mem, size, Processors())
      ensures !r.Stuck? ==> Allocated(old(Now()), Now(), size, Processors())
      ensures old(big.slide) <= 4 ==> (r.Stuck? <==> AllocAsksRing(old(Now()), size) && Waits(old(ring.now)))
    {
      SeenIsSized();
      ShortShelfAllocates(Now(), size, Processors());
      r := AllocFirst(size, os);
    }

    method AllocFirst(size: int, os: int -> int) returns (r: Answer)
      requires Valid() && Fresh(os) && size >= 0
      modifies this, ring, ring.slots, space, big`slide, big`bigfree, big.bigfree, big.tmpchunk
      ensures big.bigfree == old(big.bigfree) || fresh(big.bigfree)
      ensures r.Refused? <==> forall j | 0 <= j < |old(busy)| :: old(busy)[j]
      ensures !r.Stuck? ==> Valid() && busy == old(busy) && space.mem == old(space.mem)
      ensures !r.Stuck? ==> Balanced(os, Roomy(old(OnShelf())), old(Seen()), Seen())
      ensures r.Refused? ==> FirstClear(old(busy)) == old(|micro|) && Now() == old(Now())
      ensures r.Refused? ==> space.granted == old(space.granted)
      ensures r.Granted? ==> r.mem != NULL && r.mem !in old(space.blocks)
      ensures r.Granted? ==> GrantedOne(old(space.blocks), old(space.granted), r.mem, size, space.blocks, space.granted)
      ensures AfterAlloc(old(Now()), size, Processors()) == if r.Stuck? then None else Some(OnShelf())
      ensures r.Granted? ==> |micro| == old(|micro|) && FirstClear(old(busy)) < old(|micro|)
      ensures r.Granted? ==> GrantedAt(old(Now()), Now(), r.mem, size, Processors())
    {
      ghost var before := Now();
      var k := AcquireMicro();
      if k == |micro| { return Refused; }
      assert Granter(before, size) == Current(micro[k], size >= BIG_REQUEST);
      FlagBack(before.busy, k);
      r := AllocIn(k, size, os);
    }

    lemma SeenIsSized()
      requires Sound()
      ensures Sized(Now()) && ShelfOk(OnShelf(), Processors())
    {
      forall c | c in space.chunks
        ensures space.chunks[c].size >= CHUNK_SIZE
      {
        assert HeaderOk(space.chunks[c]);
      }
    }

    // Lines 72-73: the micro heap grants the block and its flag is cleared.
    method AllocIn(k: nat, size: int, os: int -> int) returns (r: Answer)
      requires Valid() && Fresh(os) && k < |micro| && size >= 0
      modifies this, ring, ring.slots, space, big`slide, big`bigfree, big.bigfree, big.tmpchunk
      ensures big.bigfree == old(big.bigfree) || fresh(big.bigfree)
      ensures !r.Refused?
      ensures r.Granted? ==> Valid() && busy == old(busy)[k := false] && space.mem == old(space.mem)
      ensures r.Granted? ==> Balanced(os, Roomy(old(OnShelf())), old(Seen()), Seen())
      ensures r.Granted? ==> r.mem != NULL && r.mem !in old(space.blocks)
      ensures r.Granted? ==> GrantedOne(old(space.blocks), old(space.granted), r.mem, size, space.blocks, space.granted)
      ensures HasBoth(old(space.chunks), old(micro[k]))
      ensures var c := old(Current(micro[k], size >= BIG_REQUEST));
        AfterMicro(old(OnShelf()), c, old(space.chunks)[c], size >= BIG_REQUEST, size, Processors())
          == if r.Stuck? then None else Some(OnShelf())
      ensures r.Granted? ==> |micro| == old(|micro|)
      ensures r.Granted? ==> var c := old(Current(micro[k], size >= BIG_REQUEST));
        CurrentAfter(old(space.chunks), old(micro), k, size >= BIG_REQUEST, size,
                     Renewed(old(OnShelf()), c, old(space.chunks)[c], size >= BIG_REQUEST, size, Processors()).0,
                     space.chunks, micro, r.mem, space.blocks[r.mem])
    {
      var p, done := MicroAlloc(k, size, os);
      if !done { return Stuck; }
      ReleaseMicro(k);
      r := Granted(p);
    }

    // The flag of a micro heap is cleared.
    method ReleaseMicro(k: nat)
      requires Valid() && k < |busy|
      modifies this`busy
      ensures Valid() && busy == old(busy)[k := false] && Seen() == old(Seen()) && OnShelf() == old(OnShelf())
    {
      busy := busy[k := false];
    }

    /** `_free`: the block is gone, and a chunk that was given up goes to the store with its last block. */
    method Free(p: int) returns (done: bool)
      requires Valid() && p in space.blocks
      modifies ring, ring.slots, space, big`slide, big`bigfree, big.bigfree, big.tmpchunk
      ensures big.bigfree == old(big.bigfree) || fresh(big.bigfree)
      ensures done ==> Valid() && space.mem == old(space.mem) && big.slide <= old(big.slide) + 1
      ensures done ==> NoLoss(Seen(), old(Seen())) && (Spacious(old(OnShelf())) ==> NoLoss(old(Seen()), Seen()))
      ensures done ==> space.blocks == old(space.blocks) - {p} && space.granted == old(space.granted) - {p}
      ensures AfterFree(old(Now()), p, Processors()) == if done then Some(OnShelf()) else None
      ensures done ==> Freed(old(Now()), Now(), p, Processors())
      ensures old(big.slide) <= 5 ==> done
    {
      SeenIsSized();
      ShortShelfFrees(Now(), p, Processors());
      done := FreeBlock(p);
    }

    method FreeBlock(p: int) returns (done: bool)
      requires Valid() && p in space.blocks
      modifies ring, ring.slots, space, big`slide, big`bigfree, big.bigfree, big.tmpchunk
      ensures big.bigfree == old(big.bigfree) || fresh(big.bigfree)
      ensures done ==> Valid() && space.mem == old(space.mem) && space.granted == old(space.granted) - {p}
      ensures done ==> NoLoss(Seen(), old(Seen())) && (Spacious(old(OnShelf())) ==> NoLoss(old(Seen()), Seen()))
      ensures AfterFree(old(Now()), p, Processors()) == if done then Some(OnShelf()) else None
      ensures done ==> Freed(old(Now()), Now(), p, Processors())
    {
      ghost var before, v, s := space.chunks, Seen(), Now();
      var c := DropBlock(p);
      ghost var m, whole := Seen(), Spacious(OnShelf());
      WithoutUpdated(before, c, space.chunks[c]);
      done := RecoverIfLast(c);
      if done {
        NoLossThen(Seen(), m, v);
        if whole { NoLossThen(v, m, Seen()); }
        assert PlacesOk(space.chunks, micro) by { FreeKeepsPlaces(before, micro, c, space.chunks); }
      }
      FreedIs(s, if done then Now() else s, p, done, Processors());
    }

    // Lines 114-118 of chunk.cpp.
    method RecoverIfLast(c: int) returns (done: bool)
      requires Sound() && c in space.chunks
      modifies ring, ring.slots, space`chunks, big`slide, big`bigfree, big.bigfree, big.tmpchunk
      ensures big.bigfree == old(big.bigfree) || fresh(big.bigfree)
      ensures done ==> Sound()
      ensures done ==> NoLoss(Seen(), old(Seen())) && (Spacious(old(OnShelf())) ==> NoLoss(old(Seen()), Seen()))
      ensures old(IsClaimed(space.chunks[c])) ==>
        && (done ==> space.chunks == old(space.chunks) - {c})
        && PutBack(old(OnShelf()), Extent(c, old(space.chunks[c].size)), Processors())
             == if done then Some(OnShelf()) else None
      ensures !old(IsClaimed(space.chunks[c])) ==>
        done && space.chunks == old(space.chunks) && OnShelf() == old(OnShelf())
    {
      done := true;
      if IsClaimed(space.chunks[c]) { done := RecoverClaimed(c); }
    }

    // Lines 111-114 of chunk.cpp.
    method DropBlock(p: int) returns (c: int)
      requires Valid() && p in space.blocks
      modifies space
      ensures Sound() && c == old(space.blocks[p].chunk) && c in old(space.chunks) && c in space.chunks
      ensures space.chunks[c].count >= 0 && OnShelf() == old(OnShelf())
      ensures space.chunks == old(space.chunks)[c := old(space.chunks)[c].(count := old(space.chunks)[c].count - 1)]
      ensures space.blocks == old(space.blocks) - {p} && space.granted == old(space.granted) - {p}
      ensures space.mem == old(space.mem)
      ensures NoLoss(old(Seen()), Seen()) && NoLoss(Seen(), old(Seen()))
    {
      ghost var before, store := space.chunks, Stored();
      assert BlockOk(space.chunks, space.blocks, space.granted, p);
      c := space.Drop(p);
      assert space.chunks[c].count == |BlocksOf(space.blocks, c)|;
      OneHeaderKeepsStore(before, c, space.chunks[c], store);
    }

    // Lines 116-117 of chunk.cpp.
    method RecoverClaimed(c: int) returns (done: bool)
      requires Sound() && c in space.chunks && space.chunks[c].count == 0
      modifies ring, ring.slots, space`chunks, big`slide, big`bigfree, big.bigfree, big.tmpchunk
      ensures big.bigfree == old(big.bigfree) || fresh(big.bigfree)
      ensures done ==> Sound() && space.chunks == old(space.chunks) - {c}
      ensures done ==> NoLoss(Seen(), old(Seen())) && (Spacious(old(OnShelf())) ==> NoLoss(old(Seen()), Seen()))
      ensures PutBack(old(OnShelf()), old(Range(space.chunks, c)), Processors())
        == if done then Some(OnShelf()) else None
    {
      ghost var before, store := space.chunks, Stored();
      ghost var v := Seen();
      space.SetRec(c, 2);
      OneHeaderKeepsStore(before, c, space.chunks[c], store);
      WithoutUpdated(before, c, space.chunks[c]);
      ghost var m, whole := Seen(), Spacious(OnShelf());
      done := RecoverEmpty(c);
      if done {
        NoLossThen(Seen(), m, v);
        if whole { NoLossThen(v, m, Seen()); }
      }
    }

    // What others need to know of `_recover_chunk`.
    method RecoverEmpty(c: int) returns (done: bool)
      requires Sound() && c in space.chunks && space.chunks[c].count == 0
      modifies ring, ring.slots, space`chunks, big`slide, big`bigfree, big.bigfree, big.tmpchunk
      ensures big.bigfree == old(big.bigfree) || fresh(big.bigfree)
      ensures done ==> Sound() && space.chunks == old(space.chunks) - {c}
      ensures done ==> NoLoss(Seen(), old(Seen())) && (Spacious(old(OnShelf())) ==> NoLoss(old(Seen()), Seen()))
      ensures PutBack(old(OnShelf()), old(Range(space.chunks, c)), Processors())
        == if done then Some(OnShelf()) else None
    {
      done := RecoverChunk(c);
    }

    /** `_mempage_heap_realloc`: as many bytes as are recorded and asked for are kept, and every other live block
        keeps its place, its grant and its bytes, whether the block stays, grows in place or moves. */
    method Realloc(p: int, size: int, os: int -> int) returns (r: Answer)
      requires Valid() && Fresh(os) && p in space.blocks && size >= 0
      modifies this, ring, ring.slots, space, big`slide, big`bigfree, big.bigfree, big.tmpchunk
      ensures big.bigfree == old(big.bigfree) || fresh(big.bigfree)
      ensures !r.Stuck? ==> Valid() && Balanced(os, Roomy(old(OnShelf())), old(Seen()), Seen())
      ensures !r.Stuck? ==> big.slide <= old(big.slide) + 2
      ensures size == 0 && !r.Stuck? ==>
        r.Refused? && space.blocks == old(space.blocks) - {p} && space.mem == old(space.mem)
      ensures size > 0 && r.Refused? ==>
        space.blocks == old(space.blocks) && space.granted == old(space.granted) && space.mem == old(space.mem)
      ensures r.Granted? ==> space.blocks.Keys == old(space.blocks.Keys) - {p} + {r.mem} && size <= space.granted[r.mem]
      ensures r.Granted? ==> r.mem == p || r.mem !in old(space.blocks)
      ensures r.Granted? ==> SameBytes(old(space.mem), p, space.mem, r.mem, Min(old(space.blocks[p]).size, size))
      ensures r.Granted? ==>
        OthersKept(old(space.blocks), old(space.granted), old(space.mem), p, space.blocks, space.granted, space.mem)
      ensures r.Granted? && r.mem != p ==>
        space.mem == Copied(old(space.mem), r.mem, p, old(space.blocks[p]).size) && old(space.blocks[p]).size < size
      ensures AfterRealloc(old(Now()), p, size, Processors()) == if r.Stuck? then None else Some(OnShelf())
      ensures r.Granted? ==> (r.mem == p <==> Stays(old(Now()), p, size))
      ensures r.Granted? && r.mem == p ==> space.mem == old(space.mem) && space.blocks == old(space.blocks)
      ensures r.Granted? && r.mem == p ==>
        && space.chunks == StayedChunks(old(Now()), p, size)
        && space.granted == if old(space.blocks[p]).size >= size then old(space.granted)
                            else old(space.granted)[p := size]
      ensures !r.Stuck? ==> Reallocated(old(Now()), Now(), p, size, Processors()) && busy == old(busy)
      ensures r.Granted? && (r.mem == p || old(space.blocks[p].size == space.granted[p])) ==>
        SameBytes(old(space.mem), p, space.mem, r.mem, Min(old(space.granted[p]), size))
      ensures size > 0 ==>
        (r.Refused? <==> !Stays(old(Now()), p, size) && forall j | 0 <= j < |old(busy)| :: old(busy)[j])
      ensures old(big.slide) <= 4 ==> (r.Stuck? <==> AsksRing(old(Now()), Resize(p, size)) && Waits(old(ring.now)))
    {
      SeenIsSized();
      ShortShelfReallocs(Now(), p, size, Processors());
      if size == 0 {
        var done := Free(p);
        r := if done then Refused else Stuck;
      } else {
        r := ReallocBlock(p, size, os);
      }
    }

    // Lines 92-106.
    method ReallocBlock(p: int, size: int, os: int -> int) returns (r: Answer)
      requires Valid() && Fresh(os) && p in space.blocks && size > 0
      modifies this, ring, ring.slots, space, big`slide, big`bigfree, big.bigfree, big.tmpchunk
      ensures big.bigfree == old(big.bigfree) || fresh(big.bigfree)
      ensures !r.Stuck? ==> Valid() && Balanced(os, Roomy(old(OnShelf())), old(Seen()), Seen())
      ensures r.Refused? ==>
        space.blocks == old(space.blocks) && space.granted == old(space.granted) && space.mem == old(space.mem)
      ensures r.Granted? ==> space.blocks.Keys == old(space.blocks.Keys) - {p} + {r.mem} && size <= space.granted[r.mem]
      ensures r.Granted? ==> (r.mem == p <==> Stays(old(Now()), p, size))
      ensures r.Granted? && r.mem == p ==> space.mem == old(space.mem) && space.blocks == old(space.blocks)
      ensures r.Granted? && r.mem == p ==>
        Stayed(old(Now()), old(space.granted), p, size, space.chunks, space.granted)
      ensures r.Granted? && r.mem != p ==>
        && space.mem == Copied(old(space.mem), r.mem, p, old(space.blocks[p]).size) && r.mem !in old(space.blocks)
        && old(space.blocks[p]).size < size
      ensures r.Granted? ==> SameBytes(old(space.mem), p, space.mem, r.mem, Min(old(space.blocks[p]).size, size))
      ensures r.Granted? ==>
        OthersKept(old(space.blocks), old(space.granted), old(space.mem), p, space.blocks, space.granted, space.mem)
      ensures AfterRealloc(old(Now()), p, size, Processors()) == if r.Stuck? then None else Some(OnShelf())
      ensures !r.Stuck? ==> Reallocated(old(Now()), Now(), p, size, Processors()) && busy == old(busy)
      ensures r.Refused? <==> !Stays(old(Now()), p, size) && forall j | 0 <= j < |old(busy)| :: old(busy)[j]
    {
      ghost var s := Now();
      var tmp := StayInPlace(p, size, os);
      if tmp != NULL {
        assert Now() == s.(chunks := StayedChunks(s, p, size));
        return Granted(p);
      }
      assert Now() == s;
      r := Move(p, space.blocks[p].size, size, os);
    }

    // The first 100 bytes of a new heap.
    method GrantFirst(world: int -> int -> int) returns (p: int)
      requires Valid() && Fresh(world(0)) && Fresh(world(1)) && Fresh(world(2)) && NeverTwice(world)
      requires |busy| > 0 && !busy[0] && big.slide == 0 && space.mem == map[] && micro[0].small in space.chunks
      requires space.chunks[micro[0].small] == Header(CHUNK_SIZE, CHUNK_HEADER, 0, 0)
      modifies this, ring, ring.slots, space, big`slide, big`bigfree, big.bigfree, big.tmpchunk
      ensures big.bigfree == old(big.bigfree) || fresh(big.bigfree)
      ensures Valid() && Fresh(world(1)) && Fresh(world(2)) && busy == old(busy) && big.slide <= 1 && space.mem == map[]
      ensures p in space.blocks && space.blocks[p].size == 100 && Stays(Now(), p, 200)
    {
      ghost var v := Seen();
      assert FirstClear(busy) == 0;
      var r := Alloc(100, world(0));
      p := r.mem;
      assert OsApart(world(0), world(1)) && OsApart(world(0), world(2));
      FreshLater(world(0), world(1), v, Seen());
      FreshLater(world(0), world(2), v, Seen());
    }

    // A block of 100 bytes that has grown in place to 200.
    ghost predicate Grown(p: int, os: int -> int)
      reads this, ring, ring.slots, space, big, big.bigfree
    {
      && Valid() && Fresh(os) && big.slide <= 4 && |busy| > 0 && !busy[0]
      && p in space.blocks && space.blocks[p].size == 100 && space.granted[p] == 200 && !Stays(Now(), p, 70000)
    }

    method GrowTo200(p: int, os: int -> int, later: int -> int)
      requires Valid() && Fresh(os) && Fresh(later) && OsApart(os, later)
      requires |busy| > 0 && !busy[0] && big.slide <= 1
      requires p in space.blocks && space.blocks[p].size == 100 && Stays(Now(), p, 200)
      modifies this, ring, ring.slots, space, big`slide, big`bigfree, big.bigfree, big.tmpchunk
      ensures big.bigfree == old(big.bigfree) || fresh(big.bigfree)
      ensures Grown(p, later) && space.mem == old(space.mem)
    {
      ReallocGrows(p, 200, os, later);
    }

    // Its owner writes to it, above what the header records.
    method WriteAbove(p: int, os: int -> int)
      requires Grown(p, os)
      modifies space`mem
      ensures Grown(p, os) && space.mem == old(space.mem)[p + 150 := 1]
    {
      space.Poke(p + 150, 1);
    }

    method GrowAndLose(p: int, os: int -> int, later: int -> int) returns (q: int)
      requires Valid() && Fresh(os) && Fresh(later) && OsApart(os, later)
      requires |busy| > 0 && !busy[0] && big.slide <= 1 && space.mem == map[]
      requires p in space.blocks && space.blocks[p].size == 100 && Stays(Now(), p, 200)
      modifies this, ring, ring.slots, space, big`slide, big`bigfree, big.bigfree, big.tmpchunk
      ensures q in space.blocks && q != p && !SameBytes(map[p + 150 := 1], p, space.mem, q, 200)
    {
      GrowTo200(p, os, later);
      WriteAbove(p, later);
      q := MoveAndLose(p, later);
    }

    // A realloc that has to move it.
    method MoveAndLose(p: int, os: int -> int) returns (q: int)
      requires Grown(p, os) && space.mem == map[p + 150 := 1]
      modifies this, ring, ring.slots, space, big`slide, big`bigfree, big.bigfree, big.tmpchunk
      ensures q in space.blocks && q != p && !SameBytes(map[p + 150 := 1], p, space.mem, q, 200)
    {
      q := ReallocLoses(p, 70000, 150, os);
    }

    // A realloc that grows in place.
    method ReallocGrows(p: int, size: int, os: int -> int, ghost later: int -> int)
      requires Valid() && Fresh(os) && Fresh(later) && OsApart(os, later)
      requires p in space.blocks && 0 <= space.blocks[p].size < size && Stays(Now(), p, size)
      modifies this, ring, ring.slots, space, big`slide, big`bigfree, big.bigfree, big.tmpchunk
      ensures big.bigfree == old(big.bigfree) || fresh(big.bigfree)
      ensures Valid() && Fresh(later) && busy == old(busy) && big.slide <= old(big.slide) + 2
      ensures space.blocks == old(space.blocks) && space.granted == old(space.granted)[p := size]
      ensures space.mem == old(space.mem) && forall more | size <= more :: !Stays(Now(), p, more)
    {
      ghost var v := Seen();
      var r := Realloc(p, size, os);
      assert r == Granted(p) && space.chunks == StayedChunks(old(Now()), p, size);
      FreshLater(os, later, v, Seen());
    }

    // A realloc that has to move, of a block with a byte written above what the header records.
    method ReallocLoses(p: int, size: int, at: int, os: int -> int) returns (q: int)
      requires Valid() && Fresh(os) && p in space.blocks && !Stays(Now(), p, size) && size >= CHUNK_SIZE
      requires big.slide <= 4 && |busy| > 0 && !busy[0]
      requires space.blocks[p].size <= at < size && space.mem == map[p + at := 1]
      modifies this, ring, ring.slots, space, big`slide, big`bigfree, big.bigfree, big.tmpchunk
      ensures q in space.blocks && q != p
      ensures forall n | at < n :: !SameBytes(old(space.mem), p, space.mem, q, n)
    {
      ghost var mem, recorded := space.mem, space.blocks[p].size;
      BigAsksNoRing(Now(), size);
      assert BlockOk(space.chunks, space.blocks, space.granted, p);
      var r := Realloc(p, size, os);
      q := r.mem;
      LostByte(mem, p, q, recorded, at);
    }

    // Lines 92-97: the block stays where it is, if it can.
    method StayInPlace(p: int, size: int, os: int -> int) returns (r: int)
      requires Valid() && Fresh(os) && p in space.blocks && size >= 0
      modifies space
      ensures Valid() && Fresh(os) && (r == p || r == NULL) && p != NULL
      ensures space.blocks == old(space.blocks) && space.mem == old(space.mem)
      ensures NoLoss(old(Seen()), Seen()) && NoLoss(Seen(), old(Seen()))
      ensures r == NULL ==> space.blocks[p].size < size
      ensures r == p <==> Stays(old(Now()), p, size)
      ensures r == NULL ==> space.chunks == old(space.chunks) && space.granted == old(space.granted)
      ensures r == p ==> Stayed(old(Now()), old(space.granted), p, size, space.chunks, space.granted)
      ensures r == p ==> size <= space.granted[p]
    {
      assert BlockOk(space.chunks, space.blocks, space.granted, p);
      if space.blocks[p].size > size { return p; }
      r := ExtendBlock(p, size, os);
    }

    // `_realloc` seen from the heap.
    method ExtendBlock(p: int, size: int, os: int -> int) returns (r: int)
      requires Valid() && Fresh(os) && p in space.blocks && space.blocks[p].size <= size
      modifies space
      ensures Valid() && Fresh(os) && (r == p || r == NULL)
      ensures space.blocks == old(space.blocks) && space.mem == old(space.mem)
      ensures NoLoss(old(Seen()), Seen()) && NoLoss(Seen(), old(Seen()))
      ensures r == NULL ==> space.blocks[p].size < size
      ensures r == p <==> Stays(old(Now()), p, size)
      ensures r == NULL ==> space.chunks == old(space.chunks) && space.granted == old(space.granted)
      ensures r == p ==> Stayed(old(Now()), old(space.granted), p, size, space.chunks, space.granted)
      ensures r == p ==> size <= space.granted[p]
    {
      ghost var before, c := space.chunks, space.blocks[p].chunk;
      r := ExtendIn(p, size, Now());
      OneHeaderKeepsAll(os, before, c, space.chunks[c], Stored());
      OneHeaderKeepsPlaces(before, c, space.chunks[c], micro);
    }

    method ExtendIn(p: int, size: int, ghost s: Snapshot) returns (r: int)
      requires space.Valid() && p in space.blocks && space.blocks[p].size <= size
      requires s.chunks == space.chunks && s.blocks == space.blocks
      modifies space
      ensures space.Valid() && space.blocks == old(space.blocks) && space.mem == old(space.mem)
      ensures (r == p || r == NULL) && (r == p <==> Stays(s, p, size)) && (r == NULL ==> space.blocks[p].size < size)
      ensures var c := space.blocks[p].chunk;
        && c in s.chunks && c in space.chunks && space.chunks == s.chunks[c := space.chunks[c]]
        && var h, h' := s.chunks[c], space.chunks[c]; h' == h.(slide := h'.slide)
      ensures if r == p then Stayed(s, old(space.granted), p, size, space.chunks, space.granted)
              else space.chunks == s.chunks && space.granted == old(space.granted)
      ensures r == p ==> p in space.granted && size <= space.granted[p]
    {
      assert BlockOk(space.chunks, space.blocks, space.granted, p);
      assert HeaderOk(space.chunks[space.blocks[p].chunk]);
      StaysSame(s, space.granted, p, size);
      r := space.Extend(p, size);
    }

    // Lines 99-103: allocate, copy what is recorded, free.
    method Move(p: int, oldsize: int, size: int, os: int -> int) returns (r: Answer)
      requires Valid() && Fresh(os) && p in space.blocks && 0 <= oldsize == space.blocks[p].size < size
      modifies this, ring, ring.slots, space, big`slide, big`bigfree, big.bigfree, big.tmpchunk
      ensures big.bigfree == old(big.bigfree) || fresh(big.bigfree)
      ensures !r.Stuck? ==> Valid() && Balanced(os, Roomy(old(OnShelf())), old(Seen()), Seen())
      ensures r.Refused? ==>
        space.blocks == old(space.blocks) && space.granted == old(space.granted) && space.mem == old(space.mem)
      ensures r.Granted? ==> r.mem !in old(space.blocks)
      ensures r.Granted? ==> space.blocks.Keys == old(space.blocks.Keys) - {p} + {r.mem} && space.granted[r.mem] == size
      ensures r.Granted? ==> space.mem == Copied(old(space.mem), r.mem, p, oldsize)
      ensures r.Granted? ==> SameBytes(old(space.mem), p, space.mem, r.mem, oldsize)
      ensures r.Granted? ==>
        OthersKept(old(space.blocks), old(space.granted), old(space.mem), p, space.blocks, space.granted, space.mem)
      ensures AfterMove(old(Now()), p, size, Processors()) == if r.Stuck? then None else Some(OnShelf())
      ensures !r.Stuck? ==> Moved(old(Now()), Now(), p, size, Processors()) && busy == old(busy)
      ensures r.Refused? <==> forall j | 0 <= j < |old(busy)| :: old(busy)[j]
    {
      ghost var blocks, granted, mem, before := space.blocks, space.granted, space.mem, Now();
      assert BlockOk(space.chunks, blocks, granted, p);
      ghost var v := Seen();
      ShortShelfAllocates(before, size, Processors());
      r := Alloc(size, os);
      if r.Granted? {
        GrantThenFree(blocks, granted, p, r.mem, size, space.blocks, space.granted);
        MoveLastOut(before, Now(), p, r.mem, size, Processors());
        assert AfterMove(before, p, size, Processors()) == AfterFree(Now(), p, Processors());
        ghost var middle, m := Now(), Seen();
        var done := CopyAndFree(p, r.mem, oldsize);
        if done {
          assert Allocated(before, middle, size, Processors()) && Freed(middle, Now(), p, Processors());
          ThenBalanced(os, Roomy(before.shelf), v, m, Spacious(middle.shelf), Seen());
          MoveKeepsBytes(space.chunks, blocks, granted, mem, p, r.mem, space.blocks[r.mem], oldsize);
        } else {
          r := Stuck;
        }
      }
    }

    method CopyAndFree(p: int, r: int, n: int) returns (done: bool)
      requires Valid() && p in space.blocks
      modifies ring, ring.slots, space, big`slide, big`bigfree, big.bigfree, big.tmpchunk
      ensures big.bigfree == old(big.bigfree) || fresh(big.bigfree)
      ensures done ==> Valid() && space.mem == Copied(old(space.mem), r, p, n)
      ensures done ==> NoLoss(Seen(), old(Seen())) && (Spacious(old(OnShelf())) ==> NoLoss(old(Seen()), Seen()))
      ensures done ==> space.blocks == old(space.blocks) - {p} && space.granted == old(space.granted) - {p}
      ensures AfterFree(old(Now()), p, Processors()) == if done then Some(OnShelf()) else None
      ensures done ==> Freed(old(Now()), Now(), p, Processors())
    {
      space.Copy(r, p, n);
      done := Free(p);
    }

    // `_chunk_from_free`, and what it means for the store.
    method TakeSmall(ghost os: int -> int) returns (r: Taken)
      requires Sound()
      modifies ring, ring.slots
      ensures r == RingTaken(old(ring.now)).0 && ring.now == RingTaken(old(ring.now)).1 && RingOk()
      ensures r.Chunk? ==> r.chunk in Inside(old(ring.now))
      ensures r.Chunk? ==> Inside(ring.now) == Inside(old(ring.now)) - multiset{r.chunk}
      ensures r.Chunk? ==> r.chunk.size == CHUNK_SIZE && UsedFrom(space.chunks, r.chunk, Stored())
      ensures r.Chunk? ==> Took(os, true, old(Seen()), Seen(), r.chunk)
    {
      ghost var before, inside, listed := Seen(), Inside(ring.now), multiset(big.Listed());
      r := ring.Take();
      if r.Chunk? {
        SmallTaken(os, before, inside, Inside(ring.now), listed, r.chunk);
      }
    }

    // `_chunk_from_bigfree`, and what it means for the store.
    method TakeBig(size: int, os: int -> int) returns (r: Taken)
      requires Sound() && Fresh(os)
      modifies big`slide, big.bigfree, big.tmpchunk
      ensures big.Valid() && r == GotBig(old(OnShelf()), size, Processors()).0
      ensures r != NeverReturns ==> OnShelf() == GotBig(old(OnShelf()), size, Processors()).1
      ensures r.Chunk? ==> size <= r.chunk.size && ChunkSized(r.chunk.size) && UsedFrom(space.chunks, r.chunk, Stored())
      ensures r.Nothing? ==> Sound() && Fresh(os)
      ensures r.Chunk? ==> Took(os, |old(big.Listed())| <= ROOM, old(Seen()), Seen(), r.chunk)
      ensures r.Nothing? ==> Balanced(os, |old(big.Listed())| <= ROOM, old(Seen()), Seen())
    {
      ghost var free, xs, before := Inside(ring.now), big.Listed(), Seen();
      r := big.Take(size);
      if r != NeverReturns {
        StoreAfterTake(os, space.chunks, free, xs, big.Listed(), r, big.concurrentCount);
        ViewAfterTake(os, before, free, xs, big.Listed(), r, big.concurrentCount);
      }
    }

    // Whatever the operating system hands out from the k-th request on is fresh.
    ghost predicate FreshFrom(world: int -> int -> int, k: int)
      requires big.slide <= big.bigfree.Length
      reads this, ring, ring.slots, space, big, big.bigfree
    {
      forall j :: k <= j ==> Fresh(world(j))
    }

    /** Any run of requests, the k-th of which may take memory `world(k)` from the operating system.  They are
        served one after the other, and the heap is sound at the end, or the run breaks off at one that never
        comes back, at the ring or at the list.  `roomy` tells whether before every request there was room for two
        more chunks in the free stores; then no memory is lost. */
    method Run(requests: seq<Request>, world: int -> int -> int, k: nat)
      returns (ok: bool, ghost roomy: bool, ghost place: Where)
      requires Valid() && FreshFrom(world, k) && NeverTwice(world)
      modifies this, ring, ring.slots, space, big`slide, big`bigfree, big.bigfree, big.tmpchunk
      ensures big.bigfree == old(big.bigfree) || fresh(big.bigfree)
      ensures ok ==> Valid() && Runs(old(Now()), requests, Now(), roomy, Processors())
      ensures ok && roomy ==> NoLoss(old(Seen()), Seen())
      ensures !ok ==> BreaksOff(old(Now()), requests, place, Processors())
      ensures old(big.slide) + 2 * |requests| <= 6 ==> ok || place == AtRing
      decreases |requests|
    {
      ok, roomy, place := true, true, AtRing;
      if requests != [] {
        ok, place := ServeNext(requests[0], world, k);
        if ok {
          ghost var start, middle := old(Now()), Now();
          ok, roomy, place := Run(requests[1..], world, k + 1);
          if ok {
            RunsMore(start, requests, middle, Now(), roomy, Processors());
            roomy := roomy && Roomy(start.shelf);
          } else {
            BreaksOffLater(start, requests, middle, place, Processors());
            LateAtList(start, requests, place, Processors());
          }
        }
      }
    }

    method ServeNext(request: Request, world: int -> int -> int, k: nat) returns (ok: bool, ghost place: Where)
      requires Valid() && FreshFrom(world, k) && NeverTwice(world)
      modifies this, ring, ring.slots, space, big`slide, big`bigfree, big.bigfree, big.tmpchunk
      ensures big.bigfree == old(big.bigfree) || fresh(big.bigfree)
      ensures ok ==> Valid() && FreshFrom(world, k + 1)
      ensures ok && Roomy(old(OnShelf())) ==> NoLoss(old(Seen()), Seen())
      ensures if ok then Served(old(Now()), request, Now(), Processors())
              else Sticks(old(Now()), request, place, Processors())
      ensures !ok && old(big.slide) < 5 ==> place == AtRing
    {
      place := if big.slide < 5 then AtRing else AtList;
      SeenIsSized();
      ShortShelfServes(Now(), request, Processors());
      ghost var v := Seen();
      ok := Serve(request, world(k));
      if ok {
        forall j | k + 1 <= j
          ensures Fresh(world(j))
        {
          FreshLater(world(k), world(j), v, Seen());
        }
      }
    }

    // One request; what names no live block is not passed on.
    method Serve(request: Request, os: int -> int) returns (ok: bool)
      requires Valid() && Fresh(os)
      modifies this, ring, ring.slots, space, big`slide, big`bigfree, big.bigfree, big.tmpchunk
      ensures big.bigfree == old(big.bigfree) || fresh(big.bigfree)
      ensures ok ==> Valid() && Balanced(os, Roomy(old(OnShelf())), old(Seen()), Seen())
      ensures AfterRequest(old(Now()), request, Processors()) == if ok then Some(OnShelf()) else None
      ensures ok ==> Served(old(Now()), request, Now(), Processors())
    {
      ok := true;
      match request
      case Malloc(size) =>
        if size >= 0 {
          var r := Alloc(size, os);
          ok := !r.Stuck?;
        }
      case Release(p) =>
        if p in space.blocks { ok := Free(p); }
      case Resize(p, size) =>
        if p in space.blocks && size >= 0 {
          var r := Realloc(p, size, os);
          ok := !r.Stuck?;
        }
    }
  }

  // ---------------------------------------------------------------- bytes that realloc loses

  // The operating system's memory is apart from the first chunks, and no two requests share any.
  ghost predicate OsBeside(places: seq<Micro>, world: int -> int -> int) {
    && (forall j, n: int {:trigger world(j)(n)} | 0 <= j && ChunkSized(n) ::
          && world(j)(n) > 0
          && forall k | 0 <= k < |places| ::
               && Apart(Extent(world(j)(n), n), Extent(places[k].chunk, 4 * CHUNK_SIZE))
               && Apart(Extent(world(j)(n), n), Extent(places[k].small, CHUNK_SIZE)))
    && NeverTwice(world)
  }

  lemma BesideIsFresh(places: seq<Micro>, world: int -> int -> int, chunks: map<int, Header>, j: nat)
    requires OsBeside(places, world) && InitialChunks(chunks, places, |places|)
    ensures OsFresh(world(j), chunks, multiset{})
  {
    forall n: int | ChunkSized(n)
      ensures world(j)(n) > 0 && forall c | c in chunks :: Apart(Extent(world(j)(n), n), Range(chunks, c))
    {
      forall c | c in chunks
        ensures Apart(Extent(world(j)(n), n), Range(chunks, c))
      {
        assert SomeInitial(places, |places|, c, chunks[c]);
        var k :| 0 <= k < |places| && IsInitial(places[k], c, chunks[c]);
      }
    }
  }

  lemma FirstChunks(places: seq<Micro>, chunks: map<int, Header>)
    requires FreshPlaces(places) && InitialChunks(chunks, places, |places|) && |places| > 0
    ensures places[0].small in chunks && chunks[places[0].small] == Header(CHUNK_SIZE, CHUNK_HEADER, 0, 0)
    ensures places[0].chunk in chunks && chunks[places[0].chunk] == Header(4 * CHUNK_SIZE, CHUNK_HEADER, 0, 0)
  {
    var c, d := places[0].small, places[0].chunk;
    assert HasBoth(chunks, places[0]) && SomeInitial(places, |places|, c, chunks[c]);
    var k :| 0 <= k < |places| && IsInitial(places[k], c, chunks[c]);
    assert Apart(Extent(places[k].chunk, 4 * CHUNK_SIZE), Extent(places[0].small, CHUNK_SIZE));
    assert SomeInitial(places, |places|, d, chunks[d]);
    var j :| 0 <= j < |places| && IsInitial(places[j], d, chunks[d]);
    assert Apart(Extent(places[0].chunk, 4 * CHUNK_SIZE), Extent(places[j].small, CHUNK_SIZE));
  }

  /** A block of a new heap that grows in place from 100 to 200 bytes loses bytes when it has to move: of the 200
      bytes granted, all 0 but the one written at 150, that one is not at the new place. */
  method GrownBlockLosesBytes(places: seq<Micro>, ghost own: nat, world: int -> int -> int)
    returns (heap: MempageHeap, p: int, q: int)
    requires FreshPlaces(places) && |places| > 0 && OwnChunkSuffices(own, |places|) && OsBeside(places, world)
    ensures q in heap.space.blocks && q != p && !SameBytes(map[p + 150 := 1], p, heap.space.mem, q, 200)
  {
    heap := new MempageHeap(places, own);
    BesideIsFresh(places, world, heap.space.chunks, 0);
    BesideIsFresh(places, world, heap.space.chunks, 1);
    BesideIsFresh(places, world, heap.space.chunks, 2);
    FirstChunks(places, heap.space.chunks);
    p := heap.GrantFirst(world);
    assert OsApart(world(1), world(2));
    q := heap.GrowAndLose(p, world(1), world(2));
  }

  lemma LostByte(mem: Memory, p: int, q: int, recorded: int, at: int)
    requires mem == map[p + at := 1] && q != p && 0 <= recorded <= at
    ensures Peek(mem, p + at) == 1 && Peek(Copied(mem, q, p, recorded), q + at) == 0
    ensures forall n | at < n :: !SameBytes(mem, p, Copied(mem, q, p, recorded), q, n)
  {
    forall n | at < n
      ensures !SameBytes(mem, p, Copied(mem, q, p, recorded), q, n)
    {
      assert Peek(Copied(mem, q, p, recorded), q + at) != Peek(mem, q + at - q + p);
    }
  }
}
