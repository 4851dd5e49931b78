/** The ring of free 64K chunks of pool/mempage_heap.cpp, used by one thread at a time.  A put stores at the index
    it found and raises that; a take raises its index first and waits at the new one. */
module SmallFree {
  import opened Wrappers
  import opened Extents

  const SLOTS := 1024     // _free_max

  datatype RingState = RingState(slots: seq<Option<Extent>>, allocSlide: nat, freeSlide: nat)

  predicate Indexed(r: RingState) {
    |r.slots| == SLOTS && r.allocSlide < SLOTS && r.freeSlide < SLOTS
  }

  type Ring = r: RingState | Indexed(r) witness NewRing()

  function NewRing(): RingState { RingState(seq(SLOTS, _ => None), 0, 0) }

  // Lines 145-148 and 211-214.
  function Next(k: nat): nat { if k + 1 == SLOTS then 0 else k + 1 }

  /** `_chunk_from_free`: the ring looks empty when the two indices are equal; otherwise the take waits at line 151
      until the slot after `_alloc_slide` holds a chunk, and with one thread nobody will fill it. */
  function RingTaken(r: Ring): (Taken, Ring) {
    if r.allocSlide == r.freeSlide then (Nothing, r)
    else
      var s := Next(r.allocSlide);
      match r.slots[s]
      case None => (NeverReturns, r)
      case Some(e) => (Chunk(e), RingState(r.slots[s := None], s, r.freeSlide))
  }

  /** `_recover_to_free`.  When the raised index meets `_alloc_slide` the ring is to be enlarged (lines 216-225), but
      `_resize_freelist` does so only if the index that has not been raised yet is there already (line 404). */
  function RingPut(r: Ring, e: Extent): Ring {
    RingState(r.slots[r.freeSlide := Some(e)], r.allocSlide, Next(r.freeSlide))
  }

  predicate Waits(r: Ring) { RingTaken(r).0 == NeverReturns }

  // The next put overwrites no chunk.
  predicate HasRoom(r: Ring) { r.slots[r.freeSlide].None? }

  // ---------------------------------------------------------------- what is inside

  function Content(o: Option<Extent>): multiset<Extent> {
    if o.Some? then multiset{o.value} else multiset{}
  }

  ghost function Chunks(slots: seq<Option<Extent>>): multiset<Extent> {
    if slots == [] then multiset{} else Chunks(slots[..|slots| - 1]) + Content(slots[|slots| - 1])
  }

  ghost function Inside(r: Ring): multiset<Extent> { Chunks(r.slots) }

  lemma {:induction false} ChunksUpdate(slots: seq<Option<Extent>>, k: nat, o: Option<Extent>)
    requires k < |slots|
    ensures Chunks(slots[k := o]) + Content(slots[k]) == Chunks(slots) + Content(o)
  {
    var last := |slots| - 1;
    var rest, e := slots[..last], Content(slots[last]);
    ChunksStep(slots);
    ChunksStep(slots[k := o]);
    if k == last {
      assert slots[k := o][..last] == rest;
      SwapLast(Chunks(rest), e, Content(o));
    } else {
      ChunksUpdate(rest, k, o);
      assert slots[k := o][..last] == rest[k := o];
      AddBoth(Chunks(rest[k := o]), Content(rest[k]), Chunks(rest), Content(o), e);
    }
  }

  lemma ChunksStep(slots: seq<Option<Extent>>)
    requires slots != []
    ensures Chunks(slots) == Chunks(slots[..|slots| - 1]) + Content(slots[|slots| - 1])
  {
  }

  lemma SwapLast(a: multiset<Extent>, b: multiset<Extent>, c: multiset<Extent>)
    ensures (a + c) + b == (a + b) + c
  {
  }

  lemma AddBoth(a: multiset<Extent>, b: multiset<Extent>, c: multiset<Extent>, d: multiset<Extent>, e: multiset<Extent>)
    requires a + b == c + d
    ensures (a + e) + b == (c + e) + d
  {
    assert (a + e) + b == (a + b) + e && (c + e) + d == (c + d) + e;
  }

  lemma SlotIsInside(slots: seq<Option<Extent>>, k: nat)
    requires k < |slots|
    ensures slots[k].Some? ==> slots[k].value in Chunks(slots)
  {
    ChunksUpdate(slots, k, None);
    assert slots[k].Some? ==> slots[k].value in Chunks(slots[k := None]) + Content(slots[k]);
  }

  lemma {:induction false} ChunksOfNone(slots: seq<Option<Extent>>)
    requires forall k | 0 <= k < |slots| :: slots[k] == None
    ensures Chunks(slots) == multiset{}
  {
    if slots != [] { ChunksOfNone(slots[..|slots| - 1]); }
  }

  lemma NewRingIsEmpty()
    ensures Inside(NewRing()) == multiset{}
  {
    ChunksOfNone(NewRing().slots);
  }

  /** A chunk taken has left the ring, which is otherwise unchanged. */
  lemma TakenLeaves(r: Ring)
    ensures RingTaken(r).0.Chunk? ==> Inside(r) == Inside(RingTaken(r).1) + multiset{RingTaken(r).0.chunk}
    ensures !RingTaken(r).0.Chunk? ==> RingTaken(r).1 == r
  {
    if RingTaken(r).0.Chunk? { ChunksUpdate(r.slots, Next(r.allocSlide), None); }
  }

  /** A put adds the chunk; the chunk in the slot it stores to, if any, is lost. */
  lemma PutLosesIff(r: Ring, e: Extent)
    ensures Inside(RingPut(r, e)) + Content(r.slots[r.freeSlide]) == Inside(r) + multiset{e}
    ensures Inside(RingPut(r, e)) == Inside(r) + multiset{e} <==> HasRoom(r)
  {
    ChunksUpdate(r.slots, r.freeSlide, Some(e));
    if !HasRoom(r) {
      var lost, kept := r.slots[r.freeSlide].value, Inside(RingPut(r, e));
      assert (kept + multiset{lost})[lost] == kept[lost] + 1;
    }
  }

  // ---------------------------------------------------------------- told from how many puts and takes there were

  function SlotOf(j: nat): nat { j % SLOTS }

  // The slot holds a chunk after so many puts and takes.  The k-th take comes to the slot of the chunk put after k
  // others, so the first one stays until the takes have come round.
  ghost predicate Occupied(puts: nat, takes: nat, k: nat) {
    || (k == 0 && puts > 0 && takes < SLOTS)
    || exists j: nat :: takes < j < puts && SlotOf(j) == k
  }

  /** What the ring looks like after so many puts and takes, the puts being a round and one ahead at most. */
  ghost predicate Counted(r: Ring, puts: nat, takes: nat) {
    && r.freeSlide == SlotOf(puts) && r.allocSlide == SlotOf(takes)
    && (if puts == 0 then takes == 0 else takes < puts <= takes + SLOTS + 1)
    && forall k | 0 <= k < SLOTS :: r.slots[k].Some? <==> Occupied(puts, takes, k)
  }

  lemma NewRingIsCounted()
    ensures Counted(NewRing(), 0, 0)
  {
  }

  lemma NextSlot(j: nat)
    ensures Next(SlotOf(j)) == SlotOf(j + 1)
  {
  }

  // One round of slots has no slot twice.
  lemma SameSlot(i: nat, j: nat)
    requires SlotOf(i) == SlotOf(j) && i <= j < i + 2 * SLOTS
    ensures i == j || j == i + SLOTS
  {
  }

  /** A take finds the ring empty if and only if nothing was put yet, or exactly a round more than was taken; it waits
      for ever if and only if one more was put than taken, except where it has come round to the first chunk; any
      other yields a chunk, and the one that comes round to the first chunk leaves a ring as good as new. */
  lemma TakeByCounts(r: Ring, puts: nat, takes: nat)
    requires Counted(r, puts, takes)
    ensures RingTaken(r).0 == Nothing <==> puts == 0 || puts == takes + SLOTS
    ensures Waits(r) <==> puts == takes + 1 && puts != SLOTS
    ensures RingTaken(r).0.Chunk? ==> var r' := RingTaken(r).1;
      if puts == takes + 1 then Counted(r', 0, 0) else Counted(r', puts, takes + 1)
  {
    if puts > 0 {
      if SlotOf(puts) == SlotOf(takes) { SameSlot(takes, puts); }
      NextSlot(takes);
      NextIsOccupied(puts, takes);
      var r' := RingTaken(r).1;
      if RingTaken(r).0.Chunk? {
        forall k | 0 <= k < SLOTS
          ensures puts > takes + 1 ==> (r'.slots[k].Some? <==> Occupied(puts, takes + 1, k))
          ensures puts == takes + 1 ==> (r'.slots[k].Some? <==> Occupied(0, 0, k))
        {
          TakenFromSlot(puts, takes, k);
        }
      }
    }
  }

  lemma NextIsOccupied(puts: nat, takes: nat)
    requires takes < puts <= takes + SLOTS + 1
    ensures Occupied(puts, takes, SlotOf(takes + 1)) <==> puts > takes + 1 || takes + 1 == SLOTS
  {
    if j: nat :| takes < j < puts && SlotOf(j) == SlotOf(takes + 1) { SameSlot(takes + 1, j); }
    if puts > takes + 1 { assert takes < takes + 1 < puts && SlotOf(takes + 1) == SlotOf(takes + 1); }
    if SlotOf(takes + 1) == 0 && takes < SLOTS { assert takes + 1 == SLOTS; }
  }

  // The slot that has been taken from is empty, the others are as they were.
  lemma TakenFromSlot(puts: nat, takes: nat, k: nat)
    requires takes < puts <= takes + SLOTS + 1 && k < SLOTS && puts != takes + SLOTS
    requires puts > takes + 1 || puts == SLOTS
    ensures puts > takes + 1 ==> (Occupied(puts, takes + 1, k) <==> Occupied(puts, takes, k) && k != SlotOf(takes + 1))
    ensures puts == takes + 1 ==> (Occupied(puts, takes, k) ==> k == SlotOf(takes + 1))
  {
    forall j: nat | takes + 1 < j < puts
      ensures SlotOf(j) != SlotOf(takes + 1)
    {
      if SlotOf(j) == SlotOf(takes + 1) { SameSlot(takes + 1, j); }
    }
  }

  /** A put loses a chunk if and only if more than a round more was put than taken, or it comes round to the first
      chunk: put number 1025 does unless the takes have come round before. */
  lemma PutByCounts(r: Ring, puts: nat, takes: nat, e: Extent)
    requires Counted(r, puts, takes)
    ensures HasRoom(r) <==> puts <= takes + SLOTS && puts != SLOTS
    ensures puts <= takes + SLOTS ==> Counted(RingPut(r, e), puts + 1, takes)
  {
    NextSlot(puts);
    if puts > takes + SLOTS {
      assert SlotOf(puts - SLOTS) == SlotOf(puts);
    } else {
      if j: nat :| takes < j < puts && SlotOf(j) == SlotOf(puts) { SameSlot(j, puts); }
      forall k | 0 <= k < SLOTS
        ensures Occupied(puts + 1, takes, k) <==> Occupied(puts, takes, k) || k == SlotOf(puts)
      {
        PutInSlot(puts, takes, k);
      }
    }
  }

  lemma PutInSlot(puts: nat, takes: nat, k: nat)
    requires if puts == 0 then takes == 0 else takes < puts
    ensures Occupied(puts + 1, takes, k) <==> Occupied(puts, takes, k) || k == SlotOf(puts)
  {
    if j: nat :| takes < j < puts && SlotOf(j) == k { assert takes < j < puts + 1; }
    if puts > 0 { assert takes < puts < puts + 1; }
  }

  datatype RingMove = PutOf(chunk: Extent) | TakeOne

  function RingMoved(r: Ring, m: RingMove): Ring {
    if m.PutOf? then RingPut(r, m.chunk) else RingTaken(r).1
  }

  function RingMovedAll(r: Ring, moves: seq<RingMove>): Ring
    decreases |moves|
  {
    if moves == [] then r else RingMovedAll(RingMoved(r, moves[0]), moves[1..])
  }

  datatype Counts = Counts(puts: nat, takes: nat)

  // One move, told from the counts; a take that finds nothing or waits changes nothing.
  function Count(c: Counts, m: RingMove): Counts {
    if m.PutOf? then c.(puts := c.puts + 1)
    else if c.puts == 0 || c.puts == c.takes + SLOTS || (c.puts == c.takes + 1 && c.puts != SLOTS) then c
    else if c.puts == c.takes + 1 then Counts(0, 0)
    else c.(takes := c.takes + 1)
  }

  function CountAll(c: Counts, moves: seq<RingMove>): Counts
    decreases |moves|
  {
    if moves == [] then c else CountAll(Count(c, moves[0]), moves[1..])
  }

  ghost predicate Matches(r: Ring, c: Counts) { Counted(r, c.puts, c.takes) }

  lemma MoveByCounts(r: Ring, c: Counts, m: RingMove)
    requires Matches(r, c) && (m.PutOf? ==> c.puts <= c.takes + SLOTS)
    ensures Matches(RingMoved(r, m), Count(c, m))
  {
    if m.PutOf? {
      PutByCounts(r, c.puts, c.takes, m.chunk);
    } else {
      TakeMatches(r, c);
    }
  }

  lemma TakeMatches(r: Ring, c: Counts)
    requires Matches(r, c)
    ensures Matches(RingTaken(r).1, Count(c, TakeOne))
  {
    TakeByCounts(r, c.puts, c.takes);
    TakenLeaves(r);
    assert Count(c, TakeOne) == if !RingTaken(r).0.Chunk? then c
      else if c.puts == c.takes + 1 then Counts(0, 0) else Counts(c.puts, c.takes + 1);
  }

  // No put comes when the puts are more than a round ahead.
  predicate NeverAhead(c: Counts, moves: seq<RingMove>)
    decreases |moves|
  {
    moves == [] ||
    ((moves[0].PutOf? ==> c.puts <= c.takes + SLOTS) && NeverAhead(Count(c, moves[0]), moves[1..]))
  }

  /** After any puts and takes, two counters tell all of this. */
  lemma {:induction false} RunByCounts(r: Ring, c: Counts, moves: seq<RingMove>)
    requires Matches(r, c) && NeverAhead(c, moves)
    ensures Matches(RingMovedAll(r, moves), CountAll(c, moves))
    decreases |moves|
  {
    if moves != [] {
      MoveByCounts(r, c, moves[0]);
      RunByCounts(RingMoved(r, moves[0]), Count(c, moves[0]), moves[1..]);
    }
  }

  /** One put into a new ring, and a take never comes back. */
  lemma OneChunkIsNotTaken(e: Extent)
    ensures Waits(RingPut(NewRing(), e))
  {
  }

  class FreeRing {
    const slots: array<Option<Extent>>    // _free
    var allocSlide: nat                   // _alloc_slide
    var freeSlide: nat                    // _free_slide
    ghost var now: Ring

    ghost predicate Valid()
      reads this, slots
    {
      slots.Length == SLOTS && now == RingState(slots[..], allocSlide, freeSlide)
    }

    constructor ()
      ensures Valid() && fresh(slots) && now == NewRing()
    {
      slots := new Option<Extent>[SLOTS](_ => None);
      allocSlide, freeSlide, now := 0, 0, NewRing();
    }

    /** `_chunk_from_free`, by one thread; where the source waits for ever it says so. */
    method Take() returns (r: Taken)
      requires Valid()
      modifies this, slots
      ensures Valid() && r == RingTaken(old(now)).0 && now == RingTaken(old(now)).1
      ensures r.Chunk? ==> Inside(old(now)) == Inside(now) + multiset{r.chunk}
      ensures !r.Chunk? ==> now == old(now)
    {
      TakenLeaves(now);
      if allocSlide == freeSlide { return Nothing; }
      var newslide := allocSlide + 1;
      if newslide == slots.Length { newslide := 0; }
      if slots[newslide].None? { return NeverReturns; }
      r := Chunk(slots[newslide].value);
      allocSlide, slots[newslide] := newslide, None;
      now := RingTaken(now).1;
    }

    /** `_recover_to_free`, by one thread. */
    method Put(e: Extent)
      requires Valid()
      modifies this, slots
      ensures Valid() && now == RingPut(old(now), e)
      ensures Inside(now) + Content(old(slots[freeSlide])) == Inside(old(now)) + multiset{e}
    {
      PutLosesIff(now, e);
      var newslide := freeSlide + 1;
      if newslide == slots.Length { newslide := 0; }
      slots[freeSlide], freeSlide := Some(e), newslide;
      now := RingPut(now, e);
    }
  }
}
