/** Address ranges on the big free list of pool/mempage_heap.cpp: joining neighbours, what a coalescing pass
    makes of a list, and how much memory a list holds.  A chunk on the list is its address and its size. */
module Extents {
  import opened Wrappers

  datatype Extent = Extent(addr: int, size: int)

  // What asking a free store for a chunk comes to.
  datatype Taken = Chunk(chunk: Extent) | Nothing | NeverReturns

  predicate Within(e: Extent, p: int) {
    e.addr <= p < e.addr + e.size
  }

  predicate Apart(a: Extent, b: Extent) {
    a.addr + a.size <= b.addr || b.addr + b.size <= a.addr
  }

  /** `_merge_chunk`: two ranges that touch become one, in place of the lower. */
  function Merge(c1: Extent, c2: Extent): Option<Extent> {
    if c1.addr == c2.addr + c2.size then Some(Extent(c2.addr, c2.size + c1.size))
    else if c1.addr + c1.size == c2.addr then Some(Extent(c1.addr, c1.size + c2.size))
    else None
  }

  // The range holds exactly the addresses of the two, each once.
  ghost predicate IsUnion(a: Extent, b: Extent, j: Extent) {
    j.size == a.size + b.size && forall p :: Within(j, p) <==> Within(a, p) || Within(b, p)
  }

  /** Two ranges become one if and only if there is one that holds exactly their addresses, each once; and then it is
      that one, whichever of the two comes first. */
  lemma MergeIff(a: Extent, b: Extent)
    requires a.size > 0 && b.size > 0
    ensures Merge(a, b).Some? <==> exists j :: IsUnion(a, b, j)
    ensures Merge(a, b) == Merge(b, a) && forall j | Merge(a, b) == Some(j) :: IsUnion(a, b, j)
  {
    if Merge(a, b).Some? { assert IsUnion(a, b, Merge(a, b).value); }
    forall j | IsUnion(a, b, j)
      ensures Merge(a, b) == Some(j)
    {
      assert Within(a, a.addr) && Within(b, b.addr) && Within(j, j.addr);
      assert Within(j, a.addr) && Within(j, b.addr);
      assert Within(j, j.addr + j.size - 1) && Within(a, a.addr + a.size - 1) && Within(b, b.addr + b.size - 1);
    }
  }

  // ---------------------------------------------------------------- memory held by a collection

  const CHUNK_SIZE := 65536    // chunk_size of mirco_mempage_heap.cpp

  predicate ChunkSized(size: int) {
    size > 0 && size % CHUNK_SIZE == 0
  }

  // A range that can be a chunk: not at the null address, a positive multiple of 64K long.
  predicate IsChunk(e: Extent) {
    e.addr > 0 && ChunkSized(e.size)
  }

  ghost predicate Proper(m: multiset<Extent>) {
    forall e | e in m :: IsChunk(e)
  }

  ghost predicate Disjoint(m: multiset<Extent>) {
    && (forall e | e in m :: m[e] == 1)
    && (forall a, b | a in m && b in m && a != b :: Apart(a, b))
  }

  ghost predicate Covers(m: multiset<Extent>, p: int) {
    exists e :: e in m && Within(e, p)
  }

  ghost function Total(m: multiset<Extent>): int
    decreases |m|
  {
    if m == multiset{} then 0
    else
      var e :| e in m;
      e.size + Total(m - multiset{e})
  }

  lemma {:induction false} TotalAdd(m: multiset<Extent>, e: Extent)
    ensures Total(m + multiset{e}) == Total(m) + e.size
    decreases |m|
  {
    var n := m + multiset{e};
    var f :| f in n && Total(n) == f.size + Total(n - multiset{f});
    if f == e {
      assert n - multiset{e} == m;
    } else {
      var rest := m - multiset{f};
      assert n - multiset{f} == rest + multiset{e};
      assert m == rest + multiset{f};
      TotalAdd(rest, e);
      TotalAdd(rest, f);
    }
  }

  lemma {:induction false} TotalNonNegative(m: multiset<Extent>)
    requires Proper(m)
    ensures Total(m) >= 0
    decreases |m|
  {
    if m != multiset{} {
      var e :| e in m && Total(m) == e.size + Total(m - multiset{e});
      TotalNonNegative(m - multiset{e});
    }
  }

  /** `n` holds exactly the memory of `m`, in no more pieces. */
  ghost predicate SameMemory(m: multiset<Extent>, n: multiset<Extent>) {
    && Total(n) == Total(m) && |n| <= |m|
    && (forall p :: Covers(n, p) <==> Covers(m, p))
  }

  /** `n` holds nothing that `m` does not. */
  ghost predicate NoMoreMemory(m: multiset<Extent>, n: multiset<Extent>) {
    && Total(n) <= Total(m) && |n| <= |m|
    && (forall p | Covers(n, p) :: Covers(m, p))
  }

  lemma JoinIsChunk(c: Extent, t: Extent, j: Extent)
    requires IsChunk(c) && IsChunk(t) && Merge(c, t) == Some(j)
    ensures IsChunk(j) && j.size == c.size + t.size
  {
  }

  lemma JoinTotal(m: multiset<Extent>, c: Extent, t: Extent, j: Extent)
    requires j.size == c.size + t.size
    ensures Total(m + multiset{j}) == Total(m + multiset{c, t})
  {
    TotalAdd(m, c);
    TotalAdd(m + multiset{c}, t);
    TotalAdd(m, j);
    assert m + multiset{c, t} == m + multiset{c} + multiset{t};
  }

  // Replacing two neighbours by their join.
  lemma JoinKeepsMemory(m: multiset<Extent>, c: Extent, t: Extent, j: Extent)
    requires Proper(m + multiset{c, t}) && Merge(c, t) == Some(j)
    ensures var before, after := m + multiset{c, t}, m + multiset{j};
      SameMemory(before, after) && Proper(after) && (Disjoint(before) ==> Disjoint(after))
  {
    var before, after := m + multiset{c, t}, m + multiset{j};
    assert c in before && t in before;
    JoinIsChunk(c, t, j);
    JoinTotal(m, c, t, j);
    assert forall e | e in m :: e in before;
    forall p
      ensures Covers(after, p) <==> Covers(before, p)
    {
      JoinCovers(m, c, t, j, p);
    }
    if Disjoint(before) { JoinKeepsDisjoint(m, c, t, j); }
  }

  lemma JoinCovers(m: multiset<Extent>, c: Extent, t: Extent, j: Extent, p: int)
    requires IsChunk(c) && IsChunk(t) && Merge(c, t) == Some(j)
    ensures Covers(m + multiset{j}, p) <==> Covers(m + multiset{c, t}, p)
  {
    var before, after := m + multiset{c, t}, m + multiset{j};
    assert c in before && t in before && j in after;
    if e :| e in before && Within(e, p) {
      if e != c && e != t { assert e in after; }
    }
    if e :| e in after && Within(e, p) {
      if e != j { assert e in before; }
    }
  }

  lemma JoinKeepsDisjoint(m: multiset<Extent>, c: Extent, t: Extent, j: Extent)
    requires Proper(m + multiset{c, t}) && Merge(c, t) == Some(j) && Disjoint(m + multiset{c, t})
    ensures Disjoint(m + multiset{j})
  {
    var before := m + multiset{c, t};
    assert before[c] == 1 && before[t] == 1;
    forall e | e in m
      ensures m[e] == 1 && Apart(e, j) && e != j
    {
      assert before[e] == 1 && e in before;
      assert Apart(e, c) && Apart(e, t);
    }
  }

  // ---------------------------------------------------------------- one coalescing pass

  // The first entry of `tmp` that touches `c`, or |tmp|.
  function FirstTouching(tmp: seq<Extent>, c: Extent, from: nat): (j: nat)
    requires from <= |tmp|
    ensures from <= j <= |tmp|
    ensures j < |tmp| ==> Merge(c, tmp[j]).Some?
    ensures forall i | from <= i < j :: Merge(c, tmp[i]).None?
    decreases |tmp| - from
  {
    if from == |tmp| || Merge(c, tmp[from]).Some? then from else FirstTouching(tmp, c, from + 1)
  }

  /** Lines 357-370: a chunk joins the first collected one it touches, or is collected itself if there is room. */
  function Absorb(tmp: seq<Extent>, c: Extent, room: nat): seq<Extent> {
    var j := FirstTouching(tmp, c, 0);
    if j < |tmp| then tmp[j := Merge(c, tmp[j]).value]
    else if |tmp| < room then tmp + [c] else tmp
  }

  function AbsorbAll(tmp: seq<Extent>, xs: seq<Extent>, room: nat): seq<Extent>
    decreases |xs|
  {
    if xs == [] then tmp else AbsorbAll(Absorb(tmp, xs[0], room), xs[1..], room)
  }

  // The order in which the pass takes entries out of the array: the first, whose place the last one fills.
  function TakeOrder(xs: seq<Extent>): seq<Extent>
    decreases |xs|
  {
    if |xs| <= 1 then xs else [xs[0]] + TakeOrder([xs[|xs| - 1]] + xs[1..|xs| - 1])
  }

  /** What the pass makes of a list, given room for `room` chunks. */
  function Coalesced(xs: seq<Extent>, room: nat): seq<Extent> {
    if xs == [] then [] else AbsorbAll([xs[|xs| - 1]], TakeOrder(xs[..|xs| - 1]), room)
  }

  /** How many chunks the pass would be left with if it had room for all. */
  function Groups(xs: seq<Extent>): nat { |Coalesced(xs, |xs|)| }

  lemma {:induction false} TakeOrderPermutes(xs: seq<Extent>)
    ensures multiset(TakeOrder(xs)) == multiset(xs)
    decreases |xs|
  {
    if |xs| > 1 {
      var first, last, middle := xs[0], xs[|xs| - 1], xs[1..|xs| - 1];
      var rest := TakeOrder([last] + middle);
      TakeOrderPermutes([last] + middle);
      assert TakeOrder(xs) == [first] + rest;
      LastToFront(first, middle, last, rest);
      WithBothEnds(xs);
    }
  }

  lemma WithBothEnds(xs: seq<Extent>)
    requires |xs| > 1
    ensures xs == [xs[0]] + xs[1..|xs| - 1] + [xs[|xs| - 1]]
  {
  }

  lemma LastToFront(first: Extent, middle: seq<Extent>, last: Extent, rest: seq<Extent>)
    requires multiset(rest) == multiset([last] + middle)
    ensures multiset([first] + rest) == multiset([first] + middle + [last])
  {
  }

  // The pass starts with the last entry and takes all the others.
  lemma PassTakesAll(xs: seq<Extent>)
    requires xs != []
    ensures var last, taken := xs[|xs| - 1], TakeOrder(xs[..|xs| - 1]);
      |taken| == |xs| - 1 && multiset([last]) + multiset(taken) == multiset(xs)
  {
    var rest := xs[..|xs| - 1];
    assert xs == rest + [xs[|xs| - 1]];
    TakeOrderPermutes(rest);
    assert |TakeOrder(rest)| == |multiset(TakeOrder(rest))| == |multiset(rest)| == |rest|;
  }

  lemma AbsorbJoins(tmp: seq<Extent>, c: Extent, j: nat, joined: Extent, rest: multiset<Extent>)
    requires j < |tmp|
    ensures var m := multiset(tmp) - multiset{tmp[j]} + rest;
      && multiset(tmp) + multiset{c} + rest == m + multiset{c, tmp[j]}
      && multiset(tmp[j := joined]) + rest == m + multiset{joined}
  {
  }

  lemma AbsorbStep(tmp: seq<Extent>, c: Extent, room: nat, rest: multiset<Extent>)
    requires Proper(multiset(tmp) + multiset{c} + rest)
    ensures var before, after := multiset(tmp) + multiset{c} + rest, multiset(Absorb(tmp, c, room)) + rest;
      && Proper(after) && NoMoreMemory(before, after) && (Disjoint(before) ==> Disjoint(after))
      && (FirstTouching(tmp, c, 0) < |tmp| || |tmp| < room ==> SameMemory(before, after))
      && (FirstTouching(tmp, c, 0) == |tmp| >= room ==> Total(after) < Total(before))
  {
    var before, after := multiset(tmp) + multiset{c} + rest, multiset(Absorb(tmp, c, room)) + rest;
    var j := FirstTouching(tmp, c, 0);
    if j < |tmp| {
      var m, joined := multiset(tmp) - multiset{tmp[j]} + rest, Merge(c, tmp[j]).value;
      AbsorbJoins(tmp, c, j, joined, rest);
      JoinKeepsMemory(m, c, tmp[j], joined);
    } else if |tmp| < room {
      assert after == before;
    } else {
      DropLosesMemory(multiset(tmp) + rest, c);
      assert before == multiset(tmp) + rest + multiset{c};
    }
  }

  lemma DropLosesMemory(m: multiset<Extent>, c: Extent)
    requires Proper(m + multiset{c})
    ensures Proper(m) && NoMoreMemory(m + multiset{c}, m) && Total(m) < Total(m + multiset{c})
    ensures Disjoint(m + multiset{c}) ==> Disjoint(m)
  {
    TotalAdd(m, c);
    assert forall e | e in m :: e in m + multiset{c};
    assert forall e | e in m :: (m + multiset{c})[e] >= m[e];
  }

  lemma {:induction false} AbsorbAllSplit(tmp: seq<Extent>, xs: seq<Extent>, ys: seq<Extent>, room: nat)
    ensures AbsorbAll(tmp, xs + ys, room) == AbsorbAll(AbsorbAll(tmp, xs, room), ys, room)
    decreases |xs|
  {
    if xs == [] {
      assert xs + ys == ys;
    } else {
      assert (xs + ys)[1..] == xs[1..] + ys;
      AbsorbAllSplit(Absorb(tmp, xs[0], room), xs[1..], ys, room);
    }
  }

  lemma {:induction false} AbsorbAllGrows(tmp: seq<Extent>, xs: seq<Extent>, room: nat)
    ensures |tmp| <= |AbsorbAll(tmp, xs, room)| <= |tmp| + |xs|
    ensures |tmp| <= room ==> |AbsorbAll(tmp, xs, room)| <= room
    decreases |xs|
  {
    if xs != [] { AbsorbAllGrows(Absorb(tmp, xs[0], room), xs[1..], room); }
  }

  /** The pass never gains memory and keeps ranges disjoint; it keeps all memory if and only if the number of
      chunks it ends with fits the room it has. */
  lemma {:induction false} AbsorbAllMemory(tmp: seq<Extent>, xs: seq<Extent>, room: nat, plenty: nat)
    requires Proper(multiset(tmp) + multiset(xs)) && |tmp| <= room && |tmp| + |xs| <= plenty
    ensures var before, after := multiset(tmp) + multiset(xs), multiset(AbsorbAll(tmp, xs, room));
      var groups := |AbsorbAll(tmp, xs, plenty)|;
      && Proper(after) && NoMoreMemory(before, after) && (Disjoint(before) ==> Disjoint(after))
      && (groups <= room ==> SameMemory(before, after))
      && (groups > room ==> Total(after) < Total(before))
    decreases |xs|
  {
    if xs == [] {
      assert multiset(tmp) + multiset(xs) == multiset(tmp);
    } else {
      var rest := multiset(xs[1..]);
      assert xs == [xs[0]] + xs[1..];
      assert multiset(tmp) + multiset(xs) == multiset(tmp) + multiset{xs[0]} + rest;
      AbsorbStep(tmp, xs[0], room, rest);
      AbsorbAllMemory(Absorb(tmp, xs[0], room), xs[1..], room, plenty);
      if FirstTouching(tmp, xs[0], 0) == |tmp| && |tmp| >= room {
        AbsorbAllGrows(tmp + [xs[0]], xs[1..], plenty);
      }
    }
  }

  /** One pass of `_merge_bigfree` over a list, with room for `room` chunks: nothing is gained, ranges stay
      disjoint, the list does not get longer, and memory is conserved exactly when its groups fit. */
  lemma CoalescedMemory(xs: seq<Extent>, room: nat)
    requires Proper(multiset(xs)) && room > 0
    ensures var before, after := multiset(xs), multiset(Coalesced(xs, room));
      && Proper(after) && NoMoreMemory(before, after) && (Disjoint(before) ==> Disjoint(after))
      && (SameMemory(before, after) <==> Groups(xs) <= room)
  {
    if xs != [] {
      PassTakesAll(xs);
      AbsorbAllMemory([xs[|xs| - 1]], TakeOrder(xs[..|xs| - 1]), room, |xs|);
    }
  }

  // No entry touches another.
  ghost predicate NonTouching(m: multiset<Extent>) {
    forall a, b | a in m && b in m :: Merge(a, b) == None
  }

  // As much of `xs` as there is room for behind `tmp`.
  function Filled(tmp: seq<Extent>, xs: seq<Extent>, room: nat): seq<Extent> {
    if |tmp| + |xs| <= room || |tmp| > room then tmp + xs else tmp + xs[..room - |tmp|]
  }

  lemma FilledNext(tmp: seq<Extent>, xs: seq<Extent>, room: nat)
    requires xs != [] && |tmp| <= room
    ensures Filled(tmp, xs, room) == Filled(if |tmp| < room then tmp + [xs[0]] else tmp, xs[1..], room)
  {
    assert xs == [xs[0]] + xs[1..];
    if |tmp| < room < |tmp| + |xs| { assert xs[..room - |tmp|] == [xs[0]] + xs[1..][..room - |tmp| - 1]; }
  }

  lemma AbsorbApart(tmp: seq<Extent>, xs: seq<Extent>, room: nat)
    requires xs != [] && NonTouching(multiset(tmp) + multiset(xs))
    ensures Absorb(tmp, xs[0], room) == if |tmp| < room then tmp + [xs[0]] else tmp
    ensures NonTouching(multiset(Absorb(tmp, xs[0], room)) + multiset(xs[1..]))
  {
    assert xs == [xs[0]] + xs[1..];
    assert xs[0] in multiset(tmp) + multiset(xs);
    assert forall i | 0 <= i < |tmp| :: tmp[i] in multiset(tmp) + multiset(xs);
    assert FirstTouching(tmp, xs[0], 0) == |tmp|;
    forall e | e in multiset(Absorb(tmp, xs[0], room)) + multiset(xs[1..])
      ensures e in multiset(tmp) + multiset(xs)
    {
    }
  }

  // Without neighbours nothing is joined, and what there is no room for is dropped.
  lemma {:induction false} AbsorbAllApart(tmp: seq<Extent>, xs: seq<Extent>, room: nat)
    requires NonTouching(multiset(tmp) + multiset(xs)) && |tmp| <= room
    ensures AbsorbAll(tmp, xs, room) == Filled(tmp, xs, room)
    decreases |xs|
  {
    if xs == [] {
      assert tmp + xs == tmp;
    } else {
      AbsorbApart(tmp, xs, room);
      FilledNext(tmp, xs, room);
      AbsorbAllApart(Absorb(tmp, xs[0], room), xs[1..], room);
    }
  }

  function Backwards(xs: seq<Extent>): (ys: seq<Extent>)
    ensures |ys| == |xs| && forall k | 0 <= k < |ys| :: ys[k] == xs[|xs| - 1 - k]
  {
    seq(|xs|, k requires 0 <= k < |xs| => xs[|xs| - 1 - k])
  }

  lemma {:induction false} TakesBackwards(first: Extent, xs: seq<Extent>)
    ensures TakeOrder([first] + xs) == [first] + Backwards(xs)
    decreases |xs|
  {
    if xs == [] {
      assert [first] + xs == [first] + Backwards(xs) == [first];
    } else {
      var last, rest := xs[|xs| - 1], xs[..|xs| - 1];
      TakesBackwards(last, rest);
      assert ([first] + xs)[1..|xs|] == rest;
      assert Backwards(xs) == [last] + Backwards(rest);
    }
  }

  // The last entry, the first, and the others from the end.
  function Collected(xs: seq<Extent>): (cs: seq<Extent>)
    requires |xs| > 1
    ensures |cs| == |xs| && cs[0] == xs[|xs| - 1] && cs[1] == xs[0]
    ensures forall k | 2 <= k < |cs| :: cs[k] == xs[|xs| - k]
  {
    [xs[|xs| - 1]] + ([xs[0]] + Backwards(xs[1..|xs| - 1]))
  }

  /** Of a list without neighbours the pass collects its entries in that order, as many as there is room for. */
  lemma CoalescedApart(xs: seq<Extent>, room: nat)
    requires NonTouching(multiset(xs)) && |xs| > 1 && room > 0
    ensures Coalesced(xs, room) == if |xs| <= room then Collected(xs) else Collected(xs)[..room]
  {
    var last, taken := xs[|xs| - 1], TakeOrder(xs[..|xs| - 1]);
    PassTakesAll(xs);
    SameChunksApart(multiset(xs), multiset([last]) + multiset(taken));
    AbsorbAllApart([last], taken, room);
    CollectedOrder(xs);
    FilledIsPrefix([last], taken, room);
  }

  lemma SameChunksApart(m: multiset<Extent>, n: multiset<Extent>)
    requires NonTouching(m) && m == n
    ensures NonTouching(n)
  {
  }

  lemma FilledIsPrefix(tmp: seq<Extent>, xs: seq<Extent>, room: nat)
    requires |tmp| <= room
    ensures Filled(tmp, xs, room) == if |tmp| + |xs| <= room then tmp + xs else (tmp + xs)[..room]
  {
  }

  lemma CollectedOrder(xs: seq<Extent>)
    requires |xs| > 1
    ensures Collected(xs) == [xs[|xs| - 1]] + TakeOrder(xs[..|xs| - 1])
  {
    assert xs[..|xs| - 1] == [xs[0]] + xs[1..|xs| - 1];
    TakesBackwards(xs[0], xs[1..|xs| - 1]);
  }

  /** A list without neighbours has as many groups as entries, and a pass over one that is longer than its room
      leaves `room` entries: the others are lost. */
  lemma NonTouchingLose(xs: seq<Extent>, room: nat)
    requires Proper(multiset(xs)) && NonTouching(multiset(xs)) && 0 < room < |xs|
    ensures Groups(xs) == |xs| && |Coalesced(xs, room)| == room
    ensures !SameMemory(multiset(xs), multiset(Coalesced(xs, room)))
  {
    CoalescedApart(xs, room);
    CoalescedApart(xs, |xs|);
    CoalescedMemory(xs, room);
  }

  // Neither meets nor touches.
  predicate FarApart(a: Extent, b: Extent) {
    Apart(a, b) && a != b && Merge(a, b) == None && Merge(b, a) == None
  }

  lemma PairwiseApart(xs: seq<Extent>)
    requires forall i | 0 <= i < |xs| :: IsChunk(xs[i])
    requires forall i, j | 0 <= i < j < |xs| :: FarApart(xs[i], xs[j])
    ensures var m := multiset(xs); Proper(m) && Disjoint(m) && NonTouching(m)
  {
    DistinctOnce(xs);
    forall a, b | a in multiset(xs) && b in multiset(xs)
      ensures IsChunk(a) && Merge(a, b) == None && (a != b ==> Apart(a, b))
    {
      var i :| 0 <= i < |xs| && xs[i] == a;
      var j :| 0 <= j < |xs| && xs[j] == b;
      assert i < j ==> FarApart(xs[i], xs[j]);
      assert j < i ==> FarApart(xs[j], xs[i]);
    }
  }

  lemma AddedApart(m: multiset<Extent>, c: Extent)
    requires Proper(m) && Disjoint(m) && IsChunk(c) && forall e | e in m :: Apart(e, c) && e != c
    ensures Proper(m + multiset{c}) && Disjoint(m + multiset{c})
  {
  }

  // Two of the chunks touch, and no others do.
  ghost predicate OnlyNeighbours(m: multiset<Extent>, a: Extent, b: Extent) {
    && m[a] == m[b] == 1 && a != b && Merge(a, b).Some?
    && forall x, y | x in m && y in m && Merge(x, y).Some? :: (x == a && y == b) || (x == b && y == a)
  }

  lemma JoinedTouchesNobody(m: multiset<Extent>, a: Extent, b: Extent, j: Extent)
    requires Proper(m) && OnlyNeighbours(m, a, b) && Merge(a, b) == Some(j)
    ensures NonTouching(m - multiset{a, b} + multiset{j})
  {
    var n := m - multiset{a, b} + multiset{j};
    assert IsChunk(a) && IsChunk(b);
    forall x | x in m && x != a && x != b
      ensures Merge(x, j) == None && Merge(j, x) == None
    {
      assert IsChunk(x) && Merge(x, a) == None && Merge(x, b) == None && Merge(a, x) == None && Merge(b, x) == None;
    }
    forall x, y | x in n && y in n
      ensures Merge(x, y) == None
    {
      assert x == j || (x in m && x != a && x != b);
      assert y == j || (y in m && y != a && y != b);
    }
  }

  lemma FirstTouches(tmp: seq<Extent>, c: Extent, k: nat)
    requires k < |tmp| && Merge(c, tmp[k]).Some? && forall i | 0 <= i < |tmp| && i != k :: Merge(c, tmp[i]) == None
    ensures FirstTouching(tmp, c, 0) == k
  {
  }

  // The pass comes to one of the two when the other has been collected.
  lemma SecondOfTwoJoins(tmp: seq<Extent>, xs: seq<Extent>, room: nat, a: Extent, b: Extent, j: Extent)
    requires xs != [] && var m := multiset(tmp) + multiset(xs); Proper(m) && OnlyNeighbours(m, a, b)
    requires Merge(a, b) == Some(j) && |tmp| + |xs| <= room + 1 && a in tmp && xs[0] == b
    ensures multiset(AbsorbAll(tmp, xs, room)) == multiset(tmp) + multiset(xs) - multiset{a, b} + multiset{j}
  {
    var m, rest := multiset(tmp) + multiset(xs), xs[1..];
    assert xs == [b] + rest;
    assert IsChunk(a) && IsChunk(b);
    MergeIff(a, b);
    var k :| 0 <= k < |tmp| && tmp[k] == a;
    forall i | 0 <= i < |tmp| && i != k
      ensures Merge(b, tmp[i]) == None
    {
      OnceIsThere(tmp, k, i);
      assert tmp[i] in m && b in m;
    }
    FirstTouches(tmp, b, k);
    var tmp' := tmp[k := j];
    assert Absorb(tmp, b, room) == tmp';
    assert multiset(tmp') + multiset(rest) == m - multiset{a, b} + multiset{j};
    JoinedTouchesNobody(m, a, b, j);
    SameChunksApart(m - multiset{a, b} + multiset{j}, multiset(tmp') + multiset(rest));
    AbsorbAllApart(tmp', rest, room);
  }

  lemma OnceIsThere(tmp: seq<Extent>, k: nat, i: nat)
    requires k < |tmp| && i < |tmp| && i != k && multiset(tmp)[tmp[k]] == 1
    ensures tmp[i] != tmp[k]
  {
    var low, high := if i < k then i else k, if i < k then k else i;
    assert tmp == tmp[..low] + [tmp[low]] + tmp[low + 1..];
    assert tmp[high] == tmp[low + 1..][high - low - 1];
  }

  lemma {:induction false} AbsorbTwo(tmp: seq<Extent>, xs: seq<Extent>, room: nat, a: Extent, b: Extent, j: Extent)
    requires var m := multiset(tmp) + multiset(xs); Proper(m) && OnlyNeighbours(m, a, b)
    requires Merge(a, b) == Some(j) && |tmp| <= room && |tmp| + |xs| <= room + 1 && !(a in tmp && b in tmp)
    ensures multiset(AbsorbAll(tmp, xs, room)) == multiset(tmp) + multiset(xs) - multiset{a, b} + multiset{j}
    decreases |xs|
  {
    NotBothYet(tmp, xs, a, b);
    if xs[0] == b && a in tmp {
      SecondOfTwoJoins(tmp, xs, room, a, b, j);
    } else if xs[0] == a && b in tmp {
      NeighboursEitherWay(multiset(tmp) + multiset(xs), a, b);
      SecondOfTwoJoins(tmp, xs, room, b, a, j);
      assert multiset{b, a} == multiset{a, b};
    } else {
      TwoStillApart(tmp, xs, room, a, b);
      AbsorbTwo(tmp + [xs[0]], xs[1..], room, a, b, j);
    }
  }

  lemma NeighboursEitherWay(m: multiset<Extent>, a: Extent, b: Extent)
    requires Proper(m) && OnlyNeighbours(m, a, b)
    ensures OnlyNeighbours(m, b, a) && Merge(b, a) == Merge(a, b)
  {
    assert IsChunk(a) && IsChunk(b);
    MergeIff(a, b);
  }

  // The next chunk is neither of the two, or the first of them: it is collected.
  lemma TwoStillApart(tmp: seq<Extent>, xs: seq<Extent>, room: nat, a: Extent, b: Extent)
    requires xs != [] && OnlyNeighbours(multiset(tmp) + multiset(xs), a, b) && !(a in tmp && b in tmp)
    requires !(xs[0] == b && a in tmp) && !(xs[0] == a && b in tmp) && |tmp| + |xs| <= room + 1
    ensures Absorb(tmp, xs[0], room) == tmp + [xs[0]] && |tmp| < room
    ensures multiset(tmp + [xs[0]]) + multiset(xs[1..]) == multiset(tmp) + multiset(xs)
    ensures !(a in tmp + [xs[0]] && b in tmp + [xs[0]])
  {
    var m, c, rest := multiset(tmp) + multiset(xs), xs[0], xs[1..];
    assert xs == [c] + rest;
    forall i | 0 <= i < |tmp|
      ensures Merge(c, tmp[i]) == None
    {
      assert tmp[i] in m && c in m;
    }
    assert FirstTouching(tmp, c, 0) == |tmp|;
    assert m == multiset(tmp) + (multiset{c} + multiset(rest));
    NeitherIsLast(tmp, c, rest, a, b);
  }

  lemma NotBothYet(tmp: seq<Extent>, xs: seq<Extent>, a: Extent, b: Extent)
    requires OnlyNeighbours(multiset(tmp) + multiset(xs), a, b) && !(a in tmp && b in tmp)
    ensures xs != []
  {
  }

  // Of the two at least one is still to come.
  lemma NeitherIsLast(tmp: seq<Extent>, c: Extent, rest: seq<Extent>, a: Extent, b: Extent)
    requires OnlyNeighbours(multiset(tmp) + (multiset{c} + multiset(rest)), a, b) && !(a in tmp && b in tmp)
    requires !(c == b && a in tmp) && !(c == a && b in tmp)
    ensures rest != [] && !(a in tmp + [c] && b in tmp + [c])
  {
  }

  /** Of a list on which only two entries touch, in whatever order and at whatever places, a pass that has room leaves
      their union and all the others. */
  lemma TwoNeighboursJoin(xs: seq<Extent>, room: nat, a: Extent, b: Extent)
    requires Proper(multiset(xs)) && OnlyNeighbours(multiset(xs), a, b) && |xs| <= room + 1 && room > 0
    ensures exists j :: IsUnion(a, b, j)
    ensures forall j | IsUnion(a, b, j) :: multiset(Coalesced(xs, room)) == multiset(xs) - multiset{a, b} + multiset{j}
  {
    var j := Merge(a, b).value;
    assert IsChunk(a) && IsChunk(b);
    MergeIff(a, b);
    OnlyOneUnion(a, b);
    PassTakesAll(xs);
    AbsorbTwo([xs[|xs| - 1]], TakeOrder(xs[..|xs| - 1]), room, a, b, j);
  }

  lemma OnlyOneUnion(a: Extent, b: Extent)
    requires a.size > 0 && b.size > 0
    ensures forall i, j | IsUnion(a, b, i) && IsUnion(a, b, j) :: i == j
  {
    forall i, j | IsUnion(a, b, i) && IsUnion(a, b, j)
      ensures i == j
    {
      assert Within(i, i.addr) && Within(j, j.addr);
      assert Within(j, i.addr) && Within(i, j.addr);
    }
  }

  // n chunks of 128K, each a chunk's length away from the next.
  function Gapped(n: nat): (xs: seq<Extent>)
    ensures |xs| == n && forall i | 0 <= i < n :: xs[i] == Extent((4 * i + 1) * CHUNK_SIZE, 2 * CHUNK_SIZE)
  {
    seq(n, i => Extent((4 * i + 1) * CHUNK_SIZE, 2 * CHUNK_SIZE))
  }

  /** However much room there is, one entry more can be too many. */
  lemma CoalescingCanLose(room: nat)
    requires room > 0
    ensures var xs := Gapped(room + 1);
      && Proper(multiset(xs)) && Disjoint(multiset(xs)) && Groups(xs) == room + 1
      && !SameMemory(multiset(xs), multiset(Coalesced(xs, room)))
  {
    GappedIsApart(room + 1);
    NonTouchingLose(Gapped(room + 1), room);
  }

  lemma {:induction false} GappedIsApart(n: nat)
    ensures var m := multiset(Gapped(n)); Proper(m) && Disjoint(m) && NonTouching(m)
  {
    var xs := Gapped(n);
    assert forall i, j | 0 <= i < j < n :: FarApart(xs[i], xs[j]);
    forall i | 0 <= i < n
      ensures IsChunk(xs[i])
    {
      assert (4 * i + 1) * CHUNK_SIZE > 0 && 2 * CHUNK_SIZE % CHUNK_SIZE == 0;
    }
    PairwiseApart(xs);
  }

  lemma {:induction false} DistinctOnce(xs: seq<Extent>)
    requires forall i, j | 0 <= i < j < |xs| :: xs[i] != xs[j]
    ensures forall e | e in multiset(xs) :: multiset(xs)[e] == 1
  {
    if xs != [] {
      var last, rest := xs[|xs| - 1], xs[..|xs| - 1];
      DistinctOnce(rest);
      assert xs == rest + [last];
      assert last !in rest;
    }
  }

  // A pass that leaves as many chunks as it found has changed none.
  lemma {:induction false} AbsorbAllSameCount(tmp: seq<Extent>, xs: seq<Extent>, room: nat)
    requires |AbsorbAll(tmp, xs, room)| == |tmp| + |xs|
    ensures AbsorbAll(tmp, xs, room) == tmp + xs
    decreases |xs|
  {
    if xs != [] {
      AbsorbAllGrows(Absorb(tmp, xs[0], room), xs[1..], room);
      AbsorbAllSameCount(Absorb(tmp, xs[0], room), xs[1..], room);
      assert tmp + xs == (tmp + [xs[0]]) + xs[1..];
    }
  }

  lemma SameCountSameChunks(xs: seq<Extent>, room: nat)
    requires |Coalesced(xs, room)| >= |xs|
    ensures multiset(Coalesced(xs, room)) == multiset(xs)
  {
    if xs != [] {
      PassTakesAll(xs);
      AbsorbAllGrows([xs[|xs| - 1]], TakeOrder(xs[..|xs| - 1]), room);
      AbsorbAllSameCount([xs[|xs| - 1]], TakeOrder(xs[..|xs| - 1]), room);
    }
  }
}
