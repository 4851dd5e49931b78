/** The list of big free chunks of pool/mempage_heap.cpp: kept sorted by size, searched by probing, coalesced
    when nothing fits. */
module BigFree {
  import opened Wrappers
  import opened Extents

  const ROOM := 1024      // entries of _tmpchunk

  predicate Sorted(xs: seq<Extent>) {
    forall i, j | 0 <= i < j < |xs| :: xs[i].size <= xs[j].size
  }

  // ---------------------------------------------------------------- the probe sequence of _bisearch

  datatype Probe = Hit | Beyond | GoTo(next: int)

  /** One turn of the loop at lines 264-292, at position `s`. */
  function ProbeAt(xs: seq<Extent>, size: int, s: int): (p: Probe)
    requires 0 <= s < |xs|
    ensures p.GoTo? ==> 0 <= p.next < |xs|
  {
    if xs[s].size == size then Hit
    else if xs[s].size > size then
      if s > 0 && xs[s - 1].size > size then GoTo(s / 2) else Hit
    else if s < |xs| - 1 then GoTo((s + |xs|) / 2)
    else Beyond
  }

  /** Where the search stands after `k` turns, unless it has returned by then. */
  function Position(xs: seq<Extent>, size: int, k: nat): (r: Option<int>)
    ensures r.Some? ==> 0 <= r.value < |xs|
  {
    if k == 0 then (if xs == [] then None else Some(0))
    else match Position(xs, size, k - 1)
      case None => None
      case Some(s) =>
        match ProbeAt(xs, size, s)
        case GoTo(next) => Some(next)
        case _ => None
  }

  /** The loop is left after some number of turns. */
  ghost predicate SearchReturns(xs: seq<Extent>, size: int) {
    exists k: nat :: Position(xs, size, k) == None
  }

  // The search is deterministic, so a position met twice is met forever.
  lemma {:induction false} Repeats(xs: seq<Extent>, size: int, i: nat, j: nat, m: nat)
    requires Position(xs, size, i) == Position(xs, size, j)
    ensures Position(xs, size, i + m) == Position(xs, size, j + m)
  {
    if m > 0 { Repeats(xs, size, i, j, m - 1); }
  }

  lemma {:induction false} RepeatedNeverReturns(xs: seq<Extent>, size: int, i: nat, j: nat, k: nat)
    requires i < j && Position(xs, size, i) == Position(xs, size, j) && Position(xs, size, j).Some?
    ensures Position(xs, size, k).Some?
    decreases k
  {
    if k < j {
      OnceReturnedStays(xs, size, k, j);
    } else {
      Repeats(xs, size, i, j, k - j);
      RepeatedNeverReturns(xs, size, i, j, i + (k - j));
    }
  }

  lemma {:induction false} OnceReturnedStays(xs: seq<Extent>, size: int, k: nat, j: nat)
    requires k <= j && Position(xs, size, j).Some?
    ensures Position(xs, size, k).Some?
    decreases j - k
  {
    if k < j {
      OnceReturnedStays(xs, size, k + 1, j);
    }
  }

  // More numbers than places below n: two of them are equal.
  lemma {:induction false} Pigeonhole(f: seq<int>, n: nat)
    requires |f| > n && forall k | 0 <= k < |f| :: 0 <= f[k] < n
    ensures exists i, j :: 0 <= i < j < |f| && f[i] == f[j]
  {
    if i, j :| 0 <= i < j < |f| && f[i] == f[j] {
    } else {
      DistinctFit(f, n);
    }
  }

  lemma {:induction false} DistinctFit(f: seq<int>, n: nat)
    requires forall k | 0 <= k < |f| :: 0 <= f[k] < n
    requires forall k, l | 0 <= k < l < |f| :: f[k] != f[l]
    ensures |f| <= n
  {
    if f != [] {
      assert 0 <= f[0] < n;
      if k :| 0 <= k < |f| && f[k] == n - 1 {
        DistinctFit(f[..k] + f[k + 1..], n - 1);
      } else {
        DistinctFit(f, n - 1);
      }
    }
  }

  /** The search returns if and only if it returns within as many turns as there are entries. */
  lemma ReturnsSoonOrNever(xs: seq<Extent>, size: int)
    ensures SearchReturns(xs, size) <==> Position(xs, size, |xs|) == None
  {
    if Position(xs, size, |xs|).Some? {
      forall k | 0 <= k <= |xs|
        ensures Position(xs, size, k).Some?
      {
        OnceReturnedStays(xs, size, k, |xs|);
      }
      var f := seq(|xs| + 1, k requires 0 <= k <= |xs| => Position(xs, size, k).value);
      Pigeonhole(f, |xs|);
      var i, j :| 0 <= i < j < |f| && f[i] == f[j];
      assert f[i] == Position(xs, size, i).value && f[j] == Position(xs, size, j).value;
      forall k: nat
        ensures Position(xs, size, k).Some?
      {
        RepeatedNeverReturns(xs, size, i, j, k);
      }
    }
  }

  lemma {:induction false} ClimbsToTheEnd(xs: seq<Extent>, size: int, k: nat)
    requires forall i | 0 <= i < |xs| :: xs[i].size < size
    ensures Position(xs, size, k) == None || Position(xs, size, k).value >= k
  {
    if k > 0 { ClimbsToTheEnd(xs, size, k - 1); }
  }

  /** A request that the smallest entry meets, or that no entry meets, is always answered. */
  lemma ExtremeRequestsReturn(xs: seq<Extent>, size: int)
    requires Sorted(xs) && (xs == [] || size <= xs[0].size || size > xs[|xs| - 1].size)
    ensures SearchReturns(xs, size)
  {
    if xs == [] {
      assert Position(xs, size, 0) == None;
    } else if size <= xs[0].size {
      assert Position(xs, size, 0) == Some(0);
      assert Position(xs, size, 1) == None;
    } else {
      ClimbsToTheEnd(xs, size, |xs|);
    }
  }

  // ---------------------------------------------------------------- which searches return

  // How many entries are smaller than `size`.
  function Below(xs: seq<Extent>, size: int): nat {
    if xs == [] then 0
    else Below(xs[..|xs| - 1], size) + if xs[|xs| - 1].size < size then 1 else 0
  }

  // In a sorted list they come first.
  lemma {:induction false} BelowComeFirst(xs: seq<Extent>, size: int, i: nat)
    requires Sorted(xs) && i < |xs|
    ensures Below(xs, size) <= |xs| && (xs[i].size < size <==> i < Below(xs, size))
  {
    var rest := xs[..|xs| - 1];
    if i < |rest| {
      BelowComeFirst(rest, size, i);
      if rest[i].size >= size { assert xs[|xs| - 1].size >= size; }
    }
    if rest != [] { BelowComeFirst(rest, size, |rest| - 1); }
  }

  /** Of a sorted list and a request only three numbers matter to the search: how many entries there are, how
      many are smaller, and how many are not greater. */
  lemma {:induction false} SameCountsSamePositions(xs: seq<Extent>, size: int, ys: seq<Extent>, size': int, k: nat)
    requires Sorted(xs) && Sorted(ys) && |xs| == |ys|
    requires Below(xs, size) == Below(ys, size') && Below(xs, size + 1) == Below(ys, size' + 1)
    ensures Position(xs, size, k) == Position(ys, size', k)
  {
    if k > 0 {
      SameCountsSamePositions(xs, size, ys, size', k - 1);
      if Position(xs, size, k - 1).Some? {
        ProbeByCounts(xs, size, Position(xs, size, k - 1).value);
        ProbeByCounts(ys, size', Position(xs, size, k - 1).value);
      }
    }
  }

  // One turn, told from the counts alone.
  lemma ProbeByCounts(xs: seq<Extent>, size: int, s: nat)
    requires Sorted(xs) && s < |xs|
    ensures var smaller, upTo := Below(xs, size), Below(xs, size + 1);
      ProbeAt(xs, size, s) ==
        if s < smaller then (if s < |xs| - 1 then GoTo((s + |xs|) / 2) else Beyond)
        else if s > upTo then GoTo(s / 2) else Hit
  {
    BelowComeFirst(xs, size, s);
    BelowComeFirst(xs, size + 1, s);
    if s > 0 { BelowComeFirst(xs, size + 1, s - 1); }
  }

  lemma SameCountsSameReturn(xs: seq<Extent>, size: int, ys: seq<Extent>, size': int)
    requires Sorted(xs) && Sorted(ys) && |xs| == |ys|
    requires Below(xs, size) == Below(ys, size') && Below(xs, size + 1) == Below(ys, size' + 1)
    ensures SearchReturns(xs, size) <==> SearchReturns(ys, size')
  {
    ReturnsSoonOrNever(xs, size);
    ReturnsSoonOrNever(ys, size');
    SameCountsSamePositions(xs, size, ys, size', |xs|);
  }

  // The lengths at which no request goes unanswered.
  predicate Harmless(n: nat) { n <= 5 || n == 7 }

  /** Any request to a sorted list of at most five entries, or of seven, is answered. */
  lemma HarmlessListsReturn(xs: seq<Extent>, size: int)
    requires Sorted(xs) && Harmless(|xs|)
    ensures SearchReturns(xs, size)
  {
    if |xs| == 7 {
      SevenReturn(xs, size);
    } else if |xs| > 0 {
      var p1 := Position(xs, size, 1);
      var p2 := Position(xs, size, 2);
      var p3 := Position(xs, size, 3);
      var p4 := Position(xs, size, 4);
      assert Position(xs, size, 0) == Some(0);
      assert p1 == None || p1 == Some(|xs| / 2);
      assert Position(xs, size, 5) == None;
    } else {
      assert Position(xs, size, 0) == None;
    }
  }

  // From the middle the search goes to 1 and 4 and ends at 2, or to 5 and 6.
  lemma SevenReturn(xs: seq<Extent>, size: int)
    requires Sorted(xs) && |xs| == 7
    ensures SearchReturns(xs, size)
  {
    assert Position(xs, size, 0) == Some(0);
    var p1, p2 := Position(xs, size, 1), Position(xs, size, 2);
    var p3, p4, p5 := Position(xs, size, 3), Position(xs, size, 4), Position(xs, size, 5);
    assert p1 == None || p1 == Some(3);
    assert p2 == None || p2 == Some(1) || p2 == Some(5);
    assert Position(xs, size, 6) == None;
  }

  // Where a search stands that never returns: in the first third, or from the middle up in the second.
  predicate Swings(n: nat, s: int) {
    0 <= s && (3 * s < n || (n / 2 <= s && 3 * s < 2 * n))
  }

  lemma {:induction false} SwingsForever(xs: seq<Extent>, size: int, k: nat)
    requires Sorted(xs) && !Harmless(|xs|)
    requires xs[|xs| / 2 - 2].size < size < xs[|xs| / 2 - 1].size
    ensures Position(xs, size, k).Some? && Swings(|xs|, Position(xs, size, k).value)
  {
    if k > 0 { SwingsForever(xs, size, k - 1); }
  }

  /** At every other length there are requests that are never answered: those between the two entries before
      the middle. */
  lemma SearchCanSpin(xs: seq<Extent>, size: int)
    requires Sorted(xs) && !Harmless(|xs|)
    requires xs[|xs| / 2 - 2].size < size < xs[|xs| / 2 - 1].size
    ensures !SearchReturns(xs, size)
  {
    forall k: nat
      ensures Position(xs, size, k).Some?
    {
      SwingsForever(xs, size, k);
    }
  }

  // What the list of a heap can be: sorted chunks that have nothing in common.
  ghost predicate IsList(xs: seq<Extent>) {
    Sorted(xs) && Proper(multiset(xs)) && Disjoint(multiset(xs))
  }

  // Chunks of 2, 4, 6, ... times 64K, far enough from each other to have others of up to 2 n times 64K between them.
  function Spaced(n: nat, i: nat, units: nat): Extent {
    Extent((Gap(n, i) + 1) * CHUNK_SIZE, units * CHUNK_SIZE)
  }

  function Gap(n: nat, i: nat): nat { if i == 0 then 0 else Gap(n, i - 1) + 4 * n }

  lemma {:induction false} GapGrows(n: nat, i: nat, j: nat)
    requires i < j
    ensures Gap(n, j) >= Gap(n, i) + 4 * n
    decreases j
  {
    if i < j - 1 { GapGrows(n, i, j - 1); }
  }

  function SpacedOut(n: nat, units: seq<nat>): (xs: seq<Extent>)
    ensures |xs| == |units| && forall i | 0 <= i < |xs| :: xs[i] == Spaced(n, i, units[i])
  {
    seq(|units|, i requires 0 <= i < |units| => Spaced(n, i, units[i]))
  }

  function Evens(n: nat): (xs: seq<Extent>)
    ensures |xs| == n && forall i | 0 <= i < n :: xs[i] == Spaced(n, i, 2 * (i + 1))
  {
    SpacedOut(n, EvenUnits(n))
  }

  function EvenUnits(n: nat): (units: seq<nat>)
    ensures |units| == n && forall i | 0 <= i < n :: units[i] == 2 * (i + 1)
  {
    seq(n, i requires 0 <= i < n => 2 * (i + 1))
  }

  lemma SpacedApart(n: nat, i: nat, j: nat, a: nat, b: nat)
    requires i < j && 0 < a < 4 * n && 0 < b
    ensures FarApart(Spaced(n, i, a), Spaced(n, j, b))
  {
    GapGrows(n, i, j);
  }

  lemma SpacedOutApart(n: nat, units: seq<nat>)
    requires forall i | 0 <= i < |units| :: 0 < units[i] < 4 * n
    ensures var m := multiset(SpacedOut(n, units)); NonTouching(m) && Proper(m) && Disjoint(m)
  {
    var xs := SpacedOut(n, units);
    forall i, j | 0 <= i < j < |xs|
      ensures FarApart(xs[i], xs[j])
    {
      SpacedApart(n, i, j, units[i], units[j]);
    }
    PairwiseApart(xs);
  }

  // The chunk between the two entries before the middle, apart from all of them.
  function BetweenEvens(n: nat): Extent
    requires n > 5
  {
    Spaced(n, n, 2 * (n / 2) - 1)
  }

  lemma BetweenIsApart(n: nat)
    requires n > 5
    ensures var m := multiset(Evens(n)) + multiset{BetweenEvens(n)}; Proper(m) && Disjoint(m)
  {
    var m, c := multiset(Evens(n)), BetweenEvens(n);
    SpacedOutApart(n, EvenUnits(n));
    BetweenFarApart(n);
    AddedApart(m, c);
  }

  lemma BetweenFarApart(n: nat)
    requires n > 5
    ensures forall e | e in multiset(Evens(n)) :: FarApart(e, BetweenEvens(n))
  {
    var xs, c := Evens(n), BetweenEvens(n);
    forall e | e in multiset(xs)
      ensures FarApart(e, c)
    {
      var i :| 0 <= i < n && xs[i] == e;
      SpacedApart(n, i, n, 2 * (i + 1), 2 * (n / 2) - 1);
    }
  }

  lemma EvensSpin(n: nat)
    requires !Harmless(n)
    ensures IsList(Evens(n)) && !SearchReturns(Evens(n), BetweenEvens(n).size)
  {
    SpacedOutApart(n, EvenUnits(n));
    SearchCanSpin(Evens(n), BetweenEvens(n).size);
  }

  /** Every request to every list of n entries is answered if and only if n is at most five, or seven. */
  lemma HarmlessIff(n: nat)
    ensures Harmless(n) <==> forall xs, size | IsList(xs) && |xs| == n :: SearchReturns(xs, size)
  {
    if Harmless(n) {
      forall xs, size | IsList(xs) && |xs| == n
        ensures SearchReturns(xs, size)
      {
        HarmlessListsReturn(xs, size);
      }
    } else {
      EvensSpin(n);
    }
  }

  // ---------------------------------------------------------------- the list

  datatype Found = At(index: nat) | Absent | Spins

  /** What the list and a search for `size` amount to when the search returns. */
  ghost predicate Answers(xs: seq<Extent>, size: int, r: Found) {
    match r
    case At(i) => i < |xs| && size <= xs[i].size && forall j | 0 <= j < i :: xs[j].size <= size
    case Absent => forall j | 0 <= j < |xs| :: xs[j].size < size
    case Spins => true
  }

  lemma ProbeAnswers(xs: seq<Extent>, size: int, s: int)
    requires Sorted(xs) && 0 <= s < |xs|
    ensures ProbeAt(xs, size, s) == Hit ==> Answers(xs, size, At(s))
    ensures ProbeAt(xs, size, s) == Beyond ==> Answers(xs, size, Absent)
  {
  }

  function Insert(xs: seq<Extent>, i: int, c: Extent): (ys: seq<Extent>)
    requires 0 <= i <= |xs|
    ensures multiset(ys) == multiset(xs) + multiset{c}
  {
    assert xs == xs[..i] + xs[i..];
    xs[..i] + [c] + xs[i..]
  }

  function Remove(xs: seq<Extent>, i: int): (ys: seq<Extent>)
    requires 0 <= i < |xs|
    ensures multiset(ys) == multiset(xs) - multiset{xs[i]}
  {
    assert xs == xs[..i] + [xs[i]] + xs[i + 1..];
    xs[..i] + xs[i + 1..]
  }

  lemma InsertedAt(xs: seq<Extent>, i: int, c: Extent)
    requires 0 <= i <= |xs|
    ensures |Insert(xs, i, c)| == |xs| + 1
    ensures forall k | 0 <= k <= |xs| ::
      Insert(xs, i, c)[k] == if k < i then xs[k] else if k == i then c else xs[k - 1]
  {
  }

  lemma IsInserted(xs: seq<Extent>, i: int, c: Extent, ys: seq<Extent>)
    requires 0 <= i <= |xs| && |ys| == |xs| + 1 && ys[i] == c
    requires forall k | 0 <= k < i :: ys[k] == xs[k]
    requires forall k | i < k <= |xs| :: ys[k] == xs[k - 1]
    ensures ys == Insert(xs, i, c)
  {
  }

  lemma IsRemoved(xs: seq<Extent>, i: int, ys: seq<Extent>)
    requires 0 <= i < |xs| && |ys| == |xs| - 1
    requires forall k | 0 <= k < i :: ys[k] == xs[k]
    requires forall k | i <= k < |xs| - 1 :: ys[k] == xs[k + 1]
    ensures ys == Remove(xs, i)
  {
  }

  lemma RemovedAt(xs: seq<Extent>, i: int)
    requires 0 <= i < |xs|
    ensures |Remove(xs, i)| == |xs| - 1
    ensures forall k | 0 <= k < |xs| - 1 :: Remove(xs, i)[k] == if k < i then xs[k] else xs[k + 1]
  {
  }

  /** Inserting where the search says keeps the list sorted. */
  lemma InsertKeepsSorted(xs: seq<Extent>, r: Found, c: Extent)
    requires Sorted(xs) && !r.Spins? && Answers(xs, c.size, r)
    ensures Sorted(Insert(xs, if r.At? then r.index else |xs|, c))
  {
    var i := if r.At? then r.index else |xs|;
    InsertedAt(xs, i, c);
  }

  lemma RemoveKeepsSorted(xs: seq<Extent>, i: int)
    requires Sorted(xs) && 0 <= i < |xs|
    ensures Sorted(Remove(xs, i))
  {
    RemovedAt(xs, i);
  }

  // ---------------------------------------------------------------- what becomes of the list

  /** The answer of the first turn that gives one, within `turns` more turns from position `s`. */
  function SearchFrom(xs: seq<Extent>, size: int, s: nat, turns: nat): Found
    requires s < |xs|
    decreases turns
  {
    match ProbeAt(xs, size, s)
    case Hit => At(s)
    case Beyond => Absent
    case GoTo(next) => if turns == 0 then Spins else SearchFrom(xs, size, next, turns - 1)
  }

  function Search(xs: seq<Extent>, size: int): Found {
    if xs == [] then Absent else SearchFrom(xs, size, 0, |xs| - 1)
  }

  lemma {:induction false} SearchFromSpins(xs: seq<Extent>, size: int, s: nat, turns: nat, k: nat)
    requires s < |xs| && Position(xs, size, k) == Some(s)
    ensures SearchFrom(xs, size, s, turns) == Spins <==> Position(xs, size, k + turns + 1).Some?
    decreases turns
  {
    var p := ProbeAt(xs, size, s);
    var after := Position(xs, size, k + 1);
    assert after == if p.GoTo? then Some(p.next) else None;
    if p.GoTo? && turns > 0 {
      SearchFromSpins(xs, size, p.next, turns - 1, k + 1);
    } else if Position(xs, size, k + turns + 1).Some? {
      OnceReturnedStays(xs, size, k + 1, k + turns + 1);
    }
  }

  lemma {:induction false} SearchFromAnswers(xs: seq<Extent>, size: int, s: nat, turns: nat)
    requires Sorted(xs) && s < |xs|
    ensures Answers(xs, size, SearchFrom(xs, size, s, turns))
    decreases turns
  {
    ProbeAnswers(xs, size, s);
    var p := ProbeAt(xs, size, s);
    if p.GoTo? && turns > 0 { SearchFromAnswers(xs, size, p.next, turns - 1); }
  }

  /** It is the answer, and there is none exactly if the loop never ends. */
  lemma SearchAnswers(xs: seq<Extent>, size: int)
    ensures Search(xs, size) == Spins <==> !SearchReturns(xs, size)
    ensures Sorted(xs) ==> Answers(xs, size, Search(xs, size))
  {
    SearchSpins(xs, size);
    if xs != [] && Sorted(xs) { SearchFromAnswers(xs, size, 0, |xs| - 1); }
  }

  lemma SearchSpins(xs: seq<Extent>, size: int)
    ensures Search(xs, size) == Spins <==> !SearchReturns(xs, size)
  {
    ReturnsSoonOrNever(xs, size);
    if xs != [] { SearchFromSpins(xs, size, 0, |xs| - 1, 0); }
  }

  // The list with `c` where the search says.
  function Inserted(xs: seq<Extent>, c: Extent): Option<seq<Extent>> {
    match Search(xs, c.size)
    case At(i) => if i < |xs| then Some(Insert(xs, i, c)) else None
    case Absent => Some(Insert(xs, |xs|, c))
    case Spins => None
  }

  lemma InsertedIsSorted(xs: seq<Extent>, c: Extent)
    requires Sorted(xs)
    ensures Inserted(xs, c).Some? <==> SearchReturns(xs, c.size)
    ensures Inserted(xs, c).Some? ==> var ys := Inserted(xs, c).value;
      Sorted(ys) && |ys| == |xs| + 1 && multiset(ys) == multiset(xs) + multiset{c}
  {
    SearchAnswers(xs, c.size);
    if SearchReturns(xs, c.size) { InsertKeepsSorted(xs, Search(xs, c.size), c); }
  }

  // One chunk after the other.
  function Rebuilt(xs: seq<Extent>, cs: seq<Extent>): Option<seq<Extent>>
    decreases |cs|
  {
    if cs == [] then Some(xs)
    else match Inserted(xs, cs[0])
      case None => None
      case Some(ys) => Rebuilt(ys, cs[1..])
  }

  /** What `_merge_bigfree` makes of a list, if every one of its insertions returns. */
  function MergedList(xs: seq<Extent>, processors: nat): Option<seq<Extent>> {
    if |xs| <= processors then Some(xs) else Rebuilt([], Coalesced(xs, ROOM))
  }

  lemma {:induction false} RebuiltIsSorted(xs: seq<Extent>, cs: seq<Extent>)
    requires Sorted(xs)
    ensures Rebuilt(xs, cs).Some? ==> var ys := Rebuilt(xs, cs).value;
      Sorted(ys) && |ys| == |xs| + |cs| && multiset(ys) == multiset(xs) + multiset(cs)
    ensures |xs| + |cs| <= 6 ==> Rebuilt(xs, cs).Some?
    decreases |cs|
  {
    if cs != [] {
      assert cs == [cs[0]] + cs[1..];
      InsertedIsSorted(xs, cs[0]);
      if |xs| <= 5 { HarmlessListsReturn(xs, cs[0].size); }
      if Inserted(xs, cs[0]).Some? { RebuiltIsSorted(Inserted(xs, cs[0]).value, cs[1..]); }
    }
  }

  lemma MergedListIsSorted(xs: seq<Extent>, processors: nat)
    requires Sorted(xs)
    ensures MergedList(xs, processors).Some? ==> var ys := MergedList(xs, processors).value;
      Sorted(ys) && |ys| <= |xs| && multiset(ys) == Merged(xs, processors)
    ensures |xs| <= 6 ==> MergedList(xs, processors).Some?
  {
    CoalescedIsNoLonger(xs);
    RebuiltIsSorted([], Coalesced(xs, ROOM));
    assert multiset([]) + multiset(Coalesced(xs, ROOM)) == multiset(Coalesced(xs, ROOM));
  }

  lemma CoalescedIsNoLonger(xs: seq<Extent>)
    ensures |Coalesced(xs, ROOM)| <= |xs| && |Coalesced(xs, ROOM)| <= ROOM
  {
    if xs != [] {
      PassTakesAll(xs);
      AbsorbAllGrows([xs[|xs| - 1]], TakeOrder(xs[..|xs| - 1]), ROOM);
    }
  }

  /** The pass comes back if and only if the list is too short for it, or each of the coalesced chunks meets an
      answered search in the sorted list of those before it. */
  lemma MergeReturnsIff(xs: seq<Extent>, processors: nat)
    ensures MergedList(xs, processors).Some? <==> |xs| <= processors || RebuildReturns(Coalesced(xs, ROOM))
  {
    var cs := Coalesced(xs, ROOM);
    if |xs| > processors { RebuiltIff([], cs, 0); }
  }

  ghost predicate RebuildReturns(cs: seq<Extent>) {
    forall k | 0 <= k < |cs| :: AnsweredAmong(cs[..k], cs[k].size)
  }

  // In whatever order equal sizes are.
  ghost predicate AnsweredAmong(cs: seq<Extent>, size: int) {
    forall ys | Sorted(ys) && multiset(ys) == multiset(cs) :: SearchReturns(ys, size)
  }

  lemma {:induction false} RebuiltIff(xs: seq<Extent>, cs: seq<Extent>, k: nat)
    requires k <= |cs| && Sorted(xs) && multiset(xs) == multiset(cs[..k])
    ensures Rebuilt(xs, cs[k..]).Some? <==> forall j | k <= j < |cs| :: AnsweredAmong(cs[..j], cs[j].size)
    decreases |cs| - k
  {
    if k < |cs| {
      RebuiltStep(xs, cs, k);
      if Inserted(xs, cs[k]).Some? { RebuiltIff(Inserted(xs, cs[k]).value, cs, k + 1); }
    }
  }

  lemma RebuiltStep(xs: seq<Extent>, cs: seq<Extent>, k: nat)
    requires k < |cs| && Sorted(xs) && multiset(xs) == multiset(cs[..k])
    ensures Inserted(xs, cs[k]).Some? <==> AnsweredAmong(cs[..k], cs[k].size)
    ensures Inserted(xs, cs[k]).None? ==> Rebuilt(xs, cs[k..]).None?
    ensures Inserted(xs, cs[k]).Some? ==> var ys := Inserted(xs, cs[k]).value;
      Sorted(ys) && multiset(ys) == multiset(cs[..k + 1]) && Rebuilt(xs, cs[k..]) == Rebuilt(ys, cs[k + 1..])
  {
    InsertedIsSorted(xs, cs[k]);
    AnsweredAsHere(xs, cs[..k], cs[k].size);
    RebuiltNext(xs, cs, k);
    assert cs[..k + 1] == cs[..k] + [cs[k]];
  }

  lemma RebuiltNext(xs: seq<Extent>, cs: seq<Extent>, k: nat)
    requires k < |cs|
    ensures Inserted(xs, cs[k]).None? ==> Rebuilt(xs, cs[k..]).None?
    ensures Inserted(xs, cs[k]).Some? ==> Rebuilt(xs, cs[k..]) == Rebuilt(Inserted(xs, cs[k]).value, cs[k + 1..])
  {
    assert cs[k..][0] == cs[k] && cs[k..][1..] == cs[k + 1..];
  }

  // The sorted list at hand stands for all sorted lists of the same chunks.
  lemma AnsweredAsHere(xs: seq<Extent>, cs: seq<Extent>, size: int)
    requires Sorted(xs) && multiset(xs) == multiset(cs)
    ensures AnsweredAmong(cs, size) <==> SearchReturns(xs, size)
  {
    forall ys | Sorted(ys) && multiset(ys) == multiset(cs)
      ensures SearchReturns(ys, size) <==> SearchReturns(xs, size)
    {
      assert |xs| == |multiset(xs)| == |multiset(ys)| == |ys|;
      BelowPermutes(xs, ys, size);
      BelowPermutes(xs, ys, size + 1);
      SameCountsSameReturn(xs, size, ys, size);
    }
  }

  lemma {:induction false} BelowPermutes(xs: seq<Extent>, ys: seq<Extent>, size: int)
    requires multiset(xs) == multiset(ys)
    ensures Below(xs, size) == Below(ys, size)
    decreases |xs|
  {
    if xs == [] {
      assert |multiset(ys)| == 0;
    } else {
      var e, rest := xs[|xs| - 1], xs[..|xs| - 1];
      assert xs == rest + [e];
      assert multiset(xs) == multiset(rest) + multiset{e};
      assert e in multiset(ys);
      var j :| 0 <= j < |ys| && ys[j] == e;
      assert multiset(rest) == multiset(Remove(ys, j));
      BelowPermutes(rest, Remove(ys, j), size);
      BelowRemove(ys, j, size);
    }
  }

  lemma BelowRemove(xs: seq<Extent>, j: nat, size: int)
    requires j < |xs|
    ensures Below(xs, size) == Below(Remove(xs, j), size) + if xs[j].size < size then 1 else 0
  {
    BelowConcat(xs[..j], xs[j + 1..], size);
    BelowConcat(xs[..j], [xs[j]], size);
    BelowConcat(xs[..j] + [xs[j]], xs[j + 1..], size);
    assert xs == xs[..j] + [xs[j]] + xs[j + 1..];
    assert Below([xs[j]], size) == Below([], size) + if xs[j].size < size then 1 else 0;
  }

  lemma {:induction false} BelowConcat(xs: seq<Extent>, ys: seq<Extent>, size: int)
    ensures Below(xs + ys, size) == Below(xs, size) + Below(ys, size)
    decreases |ys|
  {
    if ys == [] {
      assert xs + ys == xs;
    } else {
      BelowConcat(xs, ys[..|ys| - 1], size);
      assert (xs + ys)[..|xs + ys| - 1] == xs + ys[..|ys| - 1];
    }
  }

  // ---------------------------------------------------------------- passes that come back and one that does not

  lemma {:induction false} NoneBelow(xs: seq<Extent>, size: int)
    requires forall k | 0 <= k < |xs| :: size <= xs[k].size
    ensures Below(xs, size) == 0
  {
    if xs != [] { NoneBelow(xs[..|xs| - 1], size); }
  }

  // From the middle the search goes down to the second entry at most.
  lemma {:induction false} GoesDown(xs: seq<Extent>, size: int, k: nat)
    requires |xs| > 1 && xs[0].size < size && forall i | 1 <= i < |xs| :: size <= xs[i].size
    requires k > 0
    ensures Position(xs, size, k) == None || 1 <= Position(xs, size, k).value <= |xs| - k
  {
    if k > 1 {
      GoesDown(xs, size, k - 1);
    } else {
      assert Position(xs, size, 0) == Some(0);
    }
  }

  /** A request that no more than one entry is too small for is always answered. */
  lemma LowRequestsReturn(xs: seq<Extent>, size: int)
    requires Sorted(xs) && Below(xs, size) <= 1
    ensures SearchReturns(xs, size)
  {
    if |xs| > 1 && xs[0].size < size {
      forall i | 1 <= i < |xs|
        ensures size <= xs[i].size
      {
        BelowComeFirst(xs, size, i);
      }
      GoesDown(xs, size, |xs|);
    } else {
      ExtremeRequestsReturn(xs, size);
    }
  }

  // Of the chunks of a sorted list collected before the k-th only the smallest can be smaller.
  lemma CollectedMeetLow(xs: seq<Extent>, k: nat)
    requires Sorted(xs) && 1 < |xs| && k < |xs|
    ensures Below(Collected(xs)[..k], Collected(xs)[k].size) <= 1
  {
    var cs := Collected(xs);
    var e := cs[k].size;
    if k <= 1 {
      NoneBelow(cs[..k], e);
    } else {
      assert cs[..k] == [cs[0]] + ([cs[1]] + cs[2..k]);
      NoneBelow([cs[0]], e);
      NoneBelow(cs[2..k], e);
      BelowConcat([cs[0]], [cs[1]] + cs[2..k], e);
      BelowConcat([cs[1]], cs[2..k], e);
      assert [cs[1]][..0] == [];
    }
  }

  /** A pass over a sorted list without neighbours always comes back. */
  lemma WithoutNeighboursReturns(xs: seq<Extent>, processors: nat)
    requires Sorted(xs) && NonTouching(multiset(xs))
    ensures MergedList(xs, processors).Some?
  {
    MergedListIsSorted(xs, processors);
    if |xs| > 1 {
      CoalescedApart(xs, ROOM);
      MergeReturnsIff(xs, processors);
      var cs := Coalesced(xs, ROOM);
      forall k | 0 <= k < |cs|
        ensures AnsweredAmong(cs[..k], cs[k].size)
      {
        assert cs[..k] == Collected(xs)[..k];
        CollectedMeetLow(xs, k);
        LowAmong(cs[..k], cs[k].size);
      }
    }
  }

  lemma LowAmong(cs: seq<Extent>, size: int)
    requires Below(cs, size) <= 1
    ensures AnsweredAmong(cs, size)
  {
    forall ys | Sorted(ys) && multiset(ys) == multiset(cs)
      ensures SearchReturns(ys, size)
    {
      BelowPermutes(ys, cs, size);
      LowRequestsReturn(ys, size);
    }
  }

  // Seven sizes in the order a pass collects such chunks, and an eighth chunk that joins the last of them; it has
  // `more` times 64K, and the joined one would belong between the second and the third of the other six.
  predicate IsTrap(units: seq<nat>, more: nat) {
    && |units| == 7 && (forall i | 0 <= i < 7 :: 0 < units[i] < 16) && 0 < more < 4
    && units[1] <= more <= units[6] <= units[5] <= units[4] <= units[3] <= units[2] <= units[0]
    && units[5] < units[6] + more < units[4]
  }

  // It ends where the last of the seven begins.
  function Neighbour(more: nat): Extent { Extent(Spaced(5, 6, 0).addr - more * CHUNK_SIZE, more * CHUNK_SIZE) }

  function Joined(units: nat, more: nat): Extent { Extent(Neighbour(more).addr, (units + more) * CHUNK_SIZE) }

  // The eight in order of size.
  function OneNeighbour(units: seq<nat>, more: nat): (xs: seq<Extent>)
    requires |units| == 7
    ensures var cs := SpacedOut(5, units);
      && |xs| == 8 && xs[0] == cs[1] && xs[1] == Neighbour(more) && xs[7] == cs[0]
      && forall k | 2 <= k < 7 :: xs[k] == cs[8 - k]
  {
    var cs := SpacedOut(5, units);
    [cs[1]] + ([Neighbour(more)] + Backwards(cs[2..])) + [cs[0]]
  }

  lemma OneNeighbourTaken(units: seq<nat>, more: nat)
    requires |units| == 7
    ensures TakeOrder(OneNeighbour(units, more)[..7]) == SpacedOut(5, units)[1..] + [Neighbour(more)]
  {
    var xs, cs, c := OneNeighbour(units, more), SpacedOut(5, units), Neighbour(more);
    assert xs[..7] == [cs[1]] + ([c] + Backwards(cs[2..]));
    TakesBackwards(cs[1], [c] + Backwards(cs[2..]));
    assert Backwards([c] + Backwards(cs[2..])) == cs[2..] + [c];
    assert cs[1..] == [cs[1]] + cs[2..];
  }

  lemma OneNeighbourJoins(units: seq<nat>, more: nat)
    requires IsTrap(units, more)
    ensures Absorb(SpacedOut(5, units), Neighbour(more), ROOM) == SpacedOut(5, units)[6 := Joined(units[6], more)]
  {
    var cs, c := SpacedOut(5, units), Neighbour(more);
    forall i | 0 <= i < 6
      ensures Merge(c, cs[i]) == None
    {
      GapGrows(5, i, 6);
    }
    assert Merge(c, cs[6]).Some?;
  }

  lemma OneNeighbourCoalesces(units: seq<nat>, more: nat)
    requires IsTrap(units, more)
    ensures Coalesced(OneNeighbour(units, more), ROOM) == Absorb(SpacedOut(5, units), Neighbour(more), ROOM)
  {
    var cs, c := SpacedOut(5, units), Neighbour(more);
    OneNeighbourTaken(units, more);
    SpacedOutApart(5, units);
    assert cs == [cs[0]] + cs[1..];
    SameChunksApart(multiset(cs), multiset([cs[0]]) + multiset(cs[1..]));
    AbsorbAllApart([cs[0]], cs[1..], ROOM);
    AbsorbAllSplit([cs[0]], cs[1..], [c], ROOM);
  }

  lemma OneNeighbourChunks(units: seq<nat>, more: nat)
    requires |units| == 7
    ensures multiset(OneNeighbour(units, more)) == multiset(SpacedOut(5, units)) + multiset{Neighbour(more)}
  {
    var xs, cs, c := OneNeighbour(units, more), SpacedOut(5, units), Neighbour(more);
    OneNeighbourTaken(units, more);
    PassTakesAll(xs);
    HeadAndTail(cs);
    assert multiset(cs[1..] + [c]) == multiset(cs[1..]) + multiset{c};
  }

  lemma HeadAndTail(cs: seq<Extent>)
    requires cs != []
    ensures cs == [cs[0]] + cs[1..] && multiset(cs) == multiset([cs[0]]) + multiset(cs[1..])
  {
    assert cs == [cs[0]] + cs[1..];
  }

  lemma NeighbourApart(units: seq<nat>, more: nat)
    requires IsTrap(units, more)
    ensures IsChunk(Neighbour(more))
    ensures forall e | e in multiset(SpacedOut(5, units)) :: Apart(e, Neighbour(more)) && e != Neighbour(more)
  {
    var cs, c := SpacedOut(5, units), Neighbour(more);
    forall e | e in multiset(cs)
      ensures Apart(e, c) && e != c
    {
      var i :| 0 <= i < 7 && cs[i] == e;
      if i < 6 { GapGrows(5, i, 6); }
    }
  }

  lemma OneNeighbourSorted(units: seq<nat>, more: nat)
    requires IsTrap(units, more)
    ensures Sorted(OneNeighbour(units, more))
  {
    StepwiseSorted(OneNeighbour(units, more));
  }

  lemma OneNeighbourIsList(units: seq<nat>, more: nat)
    requires IsTrap(units, more)
    ensures IsList(OneNeighbour(units, more))
  {
    SpacedOutApart(5, units);
    OneNeighbourChunks(units, more);
    NeighbourApart(units, more);
    OneNeighbourSorted(units, more);
    AddedApart(multiset(SpacedOut(5, units)), Neighbour(more));
  }

  lemma {:induction false} StepwiseSorted(xs: seq<Extent>)
    requires forall i | 0 <= i < |xs| - 1 :: xs[i].size <= xs[i + 1].size
    ensures Sorted(xs)
  {
    if |xs| > 1 {
      var rest := xs[..|xs| - 1];
      StepwiseSorted(rest);
      assert rest[|rest| - 1].size <= xs[|rest|].size;
    }
  }

  // Below the middle by one, and none is as big: the search swings.
  lemma SpinsByCounts(xs: seq<Extent>, size: int)
    requires Sorted(xs) && !Harmless(|xs|) && Below(xs, size) == Below(xs, size + 1) == |xs| / 2 - 1
    ensures !SearchReturns(xs, size)
  {
    BelowComeFirst(xs, size, |xs| / 2 - 2);
    BelowComeFirst(xs, size + 1, |xs| / 2 - 1);
    SearchCanSpin(xs, size);
  }

  lemma {:induction false} SomeSorted(cs: seq<Extent>) returns (ys: seq<Extent>)
    ensures Sorted(ys) && multiset(ys) == multiset(cs)
  {
    if cs == [] {
      ys := [];
    } else {
      var c, rest := cs[|cs| - 1], cs[..|cs| - 1];
      var zs := SomeSorted(rest);
      ys := InsertBelow(zs, c);
      assert cs == rest + [c];
    }
  }

  lemma InsertBelow(zs: seq<Extent>, c: Extent) returns (ys: seq<Extent>)
    requires Sorted(zs)
    ensures Sorted(ys) && multiset(ys) == multiset(zs) + multiset{c}
  {
    var i := Below(zs, c.size);
    if zs != [] { BelowComeFirst(zs, c.size, 0); }
    forall k | 0 <= k < |zs|
      ensures zs[k].size < c.size <==> k < i
    {
      BelowComeFirst(zs, c.size, k);
    }
    ys := Insert(zs, i, c);
    InsertKeepsSorted(zs, if i < |zs| then At(i) else Absent, c);
  }

  lemma UnansweredByCounts(cs: seq<Extent>, size: int)
    requires !Harmless(|cs|) && Below(cs, size) == Below(cs, size + 1) == |cs| / 2 - 1
    ensures !AnsweredAmong(cs, size)
  {
    var ys := SomeSorted(cs);
    assert |ys| == |multiset(ys)| == |cs|;
    BelowPermutes(ys, cs, size);
    BelowPermutes(ys, cs, size + 1);
    SpinsByCounts(ys, size);
  }

  // The second and the sixth are smaller than the joined chunk.
  lemma TwoBelow(cs: seq<Extent>, size: int)
    requires |cs| == 6 && cs[1].size < size && cs[5].size < size
    requires size <= cs[0].size && size <= cs[2].size && size <= cs[3].size && size <= cs[4].size
    ensures Below(cs, size) == 2
  {
    NoneBelow([cs[0]], size);
    NoneBelow(cs[2..5], size);
    BelowConcat([cs[0]], [cs[1]], size);
    BelowConcat([cs[0]] + [cs[1]], cs[2..5], size);
    BelowConcat([cs[0]] + [cs[1]] + cs[2..5], [cs[5]], size);
    assert cs == [cs[0]] + [cs[1]] + cs[2..5] + [cs[5]];
    assert [cs[1]][..0] == [] && [cs[5]][..0] == [];
  }

  // The last of seven belongs in the middle of the others, but for one place.
  predicate EndsInTheMiddle(cs: seq<Extent>) {
    && |cs| == 7 && cs[1].size < cs[6].size && cs[5].size < cs[6].size
    && cs[6].size < cs[0].size && cs[6].size < cs[2].size && cs[6].size < cs[3].size && cs[6].size < cs[4].size
  }

  lemma MiddleHangs(cs: seq<Extent>)
    requires EndsInTheMiddle(cs)
    ensures Rebuilt([], cs) == None
  {
    TwoBelow(cs[..6], cs[6].size);
    TwoBelow(cs[..6], cs[6].size + 1);
    UnansweredByCounts(cs[..6], cs[6].size);
    RebuiltIff([], cs, 0);
    assert cs[0..] == cs;
  }

  lemma JoinedEndsInTheMiddle(units: seq<nat>, more: nat)
    requires IsTrap(units, more)
    ensures EndsInTheMiddle(SpacedOut(5, units)[6 := Joined(units[6], more)])
  {
  }

  /** A pass over these never comes back: the joined chunk is never given a place among the six. */
  lemma TrapHangs(units: seq<nat>, more: nat, processors: nat)
    requires IsTrap(units, more) && processors < 8
    ensures IsList(OneNeighbour(units, more)) && MergedList(OneNeighbour(units, more), processors) == None
  {
    OneNeighbourIsList(units, more);
    OneNeighbourCoalesces(units, more);
    OneNeighbourJoins(units, more);
    JoinedEndsInTheMiddle(units, more);
    MiddleHangs(Coalesced(OneNeighbour(units, more), ROOM));
  }

  /** Chunks of 2, 3, 4, 5, 8, 9, 10 and 11 times 64K of which only those of 3 and 4 touch. */
  lemma PassCanHang(processors: nat)
    requires processors < 8
    ensures var xs := OneNeighbour([11, 2, 10, 9, 8, 5, 4], 3); IsList(xs) && MergedList(xs, processors) == None
  {
    TrapHangs([11, 2, 10, 9, 8, 5, 4], 3, processors);
  }

  function TakenAt(xs: seq<Extent>, r: Found): (Taken, seq<Extent>) {
    match r
    case At(i) => if i < |xs| then (Chunk(xs[i]), Remove(xs, i)) else (NeverReturns, xs)
    case Absent => (Nothing, xs)
    case Spins => (NeverReturns, xs)
  }

  // The second search of `_chunk_from_bigfree`, and the list it searches.
  function SearchedAgain(xs: seq<Extent>, size: int, processors: nat): (Found, seq<Extent>) {
    if |xs| <= processors then (Absent, xs)
    else match MergedList(xs, processors)
      case None => (Spins, xs)
      case Some(ys) => (if |ys| < |xs| then Search(ys, size) else Absent, ys)
  }

  /** What `_chunk_from_bigfree` takes and leaves. */
  function TakenList(xs: seq<Extent>, size: int, processors: nat): (Taken, seq<Extent>) {
    if Search(xs, size) != Absent then TakenAt(xs, Search(xs, size))
    else
      var (found, ys) := SearchedAgain(xs, size, processors);
      TakenAt(ys, found)
  }

  /** It comes back for every request while the list has at most five entries, and leaves no more than it found. */
  lemma ShortListsAreTakenFrom(xs: seq<Extent>, size: int, processors: nat)
    requires Sorted(xs)
    ensures |xs| <= 5 ==> TakenList(xs, size, processors).0 != NeverReturns
    ensures Sorted(TakenList(xs, size, processors).1) && |TakenList(xs, size, processors).1| <= |xs|
  {
    SearchAnswers(xs, size);
    if |xs| <= 5 { HarmlessListsReturn(xs, size); }
    TakenAtKeepsSorted(xs, Search(xs, size));
    MergedListIsSorted(xs, processors);
    if MergedList(xs, processors).Some? {
      var ys := MergedList(xs, processors).value;
      SearchAnswers(ys, size);
      if |ys| <= 5 { HarmlessListsReturn(ys, size); }
      TakenAtKeepsSorted(ys, Search(ys, size));
    }
  }

  lemma TakenAtKeepsSorted(xs: seq<Extent>, r: Found)
    requires Sorted(xs)
    ensures Sorted(TakenAt(xs, r).1) && |TakenAt(xs, r).1| <= |xs|
  {
    if r.At? && r.index < |xs| { RemoveKeepsSorted(xs, r.index); }
  }

  /** A take never comes back exactly if the search of the list never ends; or if every entry is too small, the
      list is long enough for the pass, and the pass never ends, or shortens the list and the search of what it
      leaves never ends. */
  lemma TakeHangsIff(xs: seq<Extent>, size: int, processors: nat)
    requires Sorted(xs)
    ensures TakenList(xs, size, processors).0 == NeverReturns <==> TakeHangs(xs, size, processors)
  {
    SearchAnswers(xs, size);
    MergeReturnsIff(xs, processors);
    MergedListIsSorted(xs, processors);
    if |xs| > processors && MergedList(xs, processors).Some? {
      var ys := MergedList(xs, processors).value;
      RebuiltIsSorted([], Coalesced(xs, ROOM));
      SearchAnswers(ys, size);
      AnsweredAsHere(ys, Coalesced(xs, ROOM), size);
    }
    SmallestMeansNotAbsent(xs, size);
  }

  ghost predicate TakeHangs(xs: seq<Extent>, size: int, processors: nat) {
    || !SearchReturns(xs, size)
    || (AllBelow(xs, size) && |xs| > processors
        && var cs := Coalesced(xs, ROOM);
           !RebuildReturns(cs) || (|cs| < |xs| && !AnsweredAmong(cs, size)))
  }

  ghost predicate AllBelow(xs: seq<Extent>, size: int) {
    forall i | 0 <= i < |xs| :: xs[i].size < size
  }

  // What is on the list when a chunk is taken: the list as it is if an entry is big enough, else coalesced.
  ghost function Offered(xs: seq<Extent>, size: int, processors: nat): multiset<Extent> {
    if AllBelow(xs, size) then Merged(xs, processors) else multiset(xs)
  }

  /** What taking a chunk from the list comes to when it comes back: the tightest that is on offer and big enough, and
      nothing only if none is. */
  ghost predicate TightlyTaken(offered: multiset<Extent>, size: int, r: Taken, ys: seq<Extent>) {
    match r
    case NeverReturns => true
    case Nothing => multiset(ys) == offered && forall e | e in offered :: e.size < size
    case Chunk(c) =>
      && c in offered && multiset(ys) == offered - multiset{c}
      && size <= c.size && forall e | e in offered :: !(size < e.size < c.size)
  }

  lemma TakesTightly(xs: seq<Extent>, size: int, processors: nat)
    requires Sorted(xs)
    ensures var (r, ys) := TakenList(xs, size, processors); TightlyTaken(Offered(xs, size, processors), size, r, ys)
  {
    SearchAnswers(xs, size);
    FoundIsTight(xs, size, Search(xs, size));
    if Search(xs, size) == Absent {
      MergedListIsSorted(xs, processors);
      if MergedList(xs, processors).Some? {
        var ys := MergedList(xs, processors).value;
        SearchAnswers(ys, size);
        FoundIsTight(ys, size, Search(ys, size));
        if |xs| > processors && |ys| >= |xs| {
          MergedSameCount(xs, ys);
          AllSmallerPermutes(xs, ys, size);
        }
        FoundIsTight(ys, size, SearchedAgain(xs, size, processors).0);
      }
    }
  }

  lemma FoundIsTight(xs: seq<Extent>, size: int, r: Found)
    requires Sorted(xs) && (r.At? || r.Absent? ==> Answers(xs, size, r))
    ensures TightlyTaken(multiset(xs), size, TakenAt(xs, r).0, TakenAt(xs, r).1)
    ensures r.At? ==> !AllBelow(xs, size)
  {
    match r
    case Spins =>
    case Absent =>
      forall e | e in multiset(xs)
        ensures e.size < size
      {
        var i :| 0 <= i < |xs| && xs[i] == e;
      }
    case At(i) =>
      forall e | e in multiset(xs)
        ensures !(size < e.size < xs[i].size)
      {
        var k :| 0 <= k < |xs| && xs[k] == e;
      }
  }

  lemma SmallestMeansNotAbsent(xs: seq<Extent>, size: int)
    requires Sorted(xs)
    ensures SearchReturns(xs, size) ==> (Search(xs, size) == Absent <==> forall i | 0 <= i < |xs| :: xs[i].size < size)
  {
    SearchAnswers(xs, size);
  }

  /** What `_recover_to_bigfree` makes of a list in an array of `capacity` places. */
  function RecoveredList(xs: seq<Extent>, capacity: nat, processors: nat, c: Extent): Option<seq<Extent>> {
    if |xs| < capacity then Inserted(xs, c)
    else match MergedList(xs, processors)
      case None => None
      case Some(ys) => Inserted(ys, c)
  }

  /** A recovery comes back exactly if the search of the list returns; of a full list the pass must return too,
      and the search of what it leaves. */
  lemma RecoverReturnsIff(xs: seq<Extent>, capacity: nat, processors: nat, c: Extent)
    requires Sorted(xs)
    ensures var cs := Coalesced(xs, ROOM);
      RecoveredList(xs, capacity, processors, c).Some? <==>
        if |xs| < capacity || |xs| <= processors then SearchReturns(xs, c.size)
        else RebuildReturns(cs) && AnsweredAmong(cs, c.size)
  {
    InsertedIsSorted(xs, c);
    MergeReturnsIff(xs, processors);
    MergedListIsSorted(xs, processors);
    if |xs| > processors && MergedList(xs, processors).Some? {
      InsertedIsSorted(MergedList(xs, processors).value, c);
      AnsweredAsHere(MergedList(xs, processors).value, Coalesced(xs, ROOM), c.size);
    }
  }

  /** Of the lists above, of any length at which it can happen: with its entries and one more chunk anywhere apart
      from them a take and a recovery never come back. */
  lemma TakeAndRecoveryCanHang(n: nat, capacity: nat, processors: nat)
    requires !Harmless(n) && n < capacity
    ensures var xs, c := Evens(n), BetweenEvens(n);
      && IsList(xs) && Proper(multiset(xs) + multiset{c}) && Disjoint(multiset(xs) + multiset{c})
      && RecoveredList(xs, capacity, processors, c) == None
      && TakenList(xs, c.size, processors).0 == NeverReturns
  {
    var xs, c := Evens(n), BetweenEvens(n);
    EvensSpin(n);
    BetweenIsApart(n);
    InsertedIsSorted(xs, c);
    SearchAnswers(xs, c.size);
  }

  // The places there are then: twice as many if the pass did not make room.
  function CapacityAfter(xs: seq<Extent>, capacity: nat, processors: nat): nat {
    if |xs| >= capacity && MergedList(xs, processors).Some? && |MergedList(xs, processors).value| >= capacity
    then 2 * capacity else capacity
  }

  predicate IsCapacity(capacity: nat, processors: nat) {
    (capacity == ROOM || capacity == 2 * ROOM) && processors < 2 * ROOM
  }

  /** The table is enlarged once at most: a pass leaves no more than 1024 entries, so in the bigger table it always
      makes room. */
  lemma GrowsOnce(xs: seq<Extent>, capacity: nat, processors: nat)
    requires IsCapacity(capacity, processors) && |xs| <= capacity
    ensures IsCapacity(CapacityAfter(xs, capacity, processors), processors)
    ensures capacity == 2 * ROOM ==> CapacityAfter(xs, capacity, processors) == capacity
  {
    var cs := Coalesced(xs, ROOM);
    CoalescedIsNoLonger(xs);
    RebuiltLength([], cs);
  }

  lemma {:induction false} RebuiltLength(xs: seq<Extent>, cs: seq<Extent>)
    ensures Rebuilt(xs, cs).Some? ==> |Rebuilt(xs, cs).value| == |xs| + |cs|
    decreases |cs|
  {
    if cs != [] && Inserted(xs, cs[0]).Some? { RebuiltLength(Inserted(xs, cs[0]).value, cs[1..]); }
  }

  /** It comes back for every chunk while the list has at most five entries, and adds one at most. */
  lemma ShortListsTakeMore(xs: seq<Extent>, capacity: nat, processors: nat, c: Extent)
    requires Sorted(xs) && ROOM <= capacity
    ensures |xs| <= 5 ==> RecoveredList(xs, capacity, processors, c).Some?
    ensures RecoveredList(xs, capacity, processors, c).Some? ==>
      |RecoveredList(xs, capacity, processors, c).value| <= |xs| + 1
  {
    MergedListIsSorted(xs, processors);
    InsertedIsSorted(xs, c);
    if |xs| <= 5 { HarmlessListsReturn(xs, c.size); }
    if MergedList(xs, processors).Some? { InsertedIsSorted(MergedList(xs, processors).value, c); }
  }

  class BigFreeList {
    var bigfree: array<Extent>        // _bigfree; its length is _bigfree_max
    var slide: nat                    // _bigfree_slide
    const tmpchunk: array<Extent>     // _tmpchunk
    const concurrentCount: nat

    ghost predicate Shaped()
      reads this, bigfree
    {
      && slide <= bigfree.Length && IsCapacity(bigfree.Length, concurrentCount)
      && tmpchunk.Length == ROOM && tmpchunk != bigfree
    }

    function Listed(): seq<Extent>
      requires slide <= bigfree.Length
      reads this, bigfree
    {
      bigfree[..slide]
    }

    ghost predicate Valid()
      reads this, bigfree
    {
      Shaped() && Sorted(Listed())
    }

    constructor (processors: nat)
      requires IsCapacity(ROOM, processors)
      ensures Valid() && fresh(bigfree) && fresh(tmpchunk) && Listed() == [] && concurrentCount == processors
      ensures bigfree.Length == ROOM
    {
      bigfree := new Extent[ROOM](_ => Extent(0, 0));
      tmpchunk := new Extent[ROOM](_ => Extent(0, 0));
      slide := 0;
      concurrentCount := processors;
    }

    // Lines 265-291, one turn.
    method Turn(size: int, s: nat) returns (p: Probe)
      requires Shaped() && s < slide
      ensures p == ProbeAt(Listed(), size, s)
    {
      if bigfree[s].size == size {
        p := Hit;
      } else if bigfree[s].size > size {
        if s > 0 && bigfree[s - 1].size > size {
          p := GoTo(s / 2);
        } else {
          p := Hit;
        }
      } else if s < slide - 1 {
        p := GoTo((s + slide) / 2);
      } else {
        p := Beyond;
      }
    }

    /** `_bisearch`.  The source's loop has no bound; this one gives up after as many turns as there are
        entries, which is when the source's is known never to end. */
    method Bisearch(size: int) returns (r: Found)
      requires Valid()
      ensures r == Search(Listed(), size) && Answers(Listed(), size, r)
      ensures r == Spins <==> !SearchReturns(Listed(), size)
    {
      ghost var xs := Listed();
      SearchAnswers(xs, size);
      if slide == 0 { return Absent; }
      var s, turns := 0, 0;
      while turns < slide
        invariant turns <= slide == |xs| && 0 <= s < slide
        invariant Search(xs, size) == if turns < slide then SearchFrom(xs, size, s, slide - 1 - turns) else Spins
      {
        var p := Turn(size, s);
        match p {
          case Hit => return At(s);
          case Beyond => return Absent;
          case GoTo(next) => s := next;
        }
        turns := turns + 1;
      }
      r := Spins;
    }

    /** `_erase`. */
    method Erase(i: nat)
      requires Shaped() && i < slide
      modifies this`slide, bigfree
      ensures Shaped() && Listed() == Remove(old(Listed()), i)
    {
      ghost var xs := Listed();
      slide := slide - 1;
      var k := i;
      while k < slide
        invariant i <= k <= slide == |xs| - 1 < bigfree.Length
        invariant forall j :: 0 <= j < i ==> bigfree[j] == xs[j]
        invariant forall j :: i <= j < k ==> bigfree[j] == xs[j + 1]
        invariant forall j :: k < j <= slide ==> bigfree[j] == xs[j]
      {
        bigfree[k] := bigfree[k + 1];
        k := k + 1;
      }
      IsRemoved(xs, i, Listed());
    }

    // Lines 250-254: makes room at `at` and puts `c` there.
    method Place(at: nat, c: Extent)
      requires Shaped() && at <= slide < bigfree.Length
      modifies this`slide, bigfree
      ensures Shaped() && Listed() == Insert(old(Listed()), at, c)
    {
      ghost var xs := Listed();
      var k := slide;
      while k > at
        invariant at <= k <= slide == |xs| < bigfree.Length
        invariant forall m | 0 <= m < k :: bigfree[m] == xs[m]
        invariant forall m | k < m <= slide :: bigfree[m] == xs[m - 1]
      {
        bigfree[k] := bigfree[k - 1];
        k := k - 1;
      }
      bigfree[at] := c;
      slide := slide + 1;
      IsInserted(xs, at, c, Listed());
    }

    /** Lines 245-254 of `_recover_to_bigfree`: search, then insert where the search says. */
    method InsertSorted(c: Extent) returns (done: bool)
      requires Valid() && slide < bigfree.Length
      modifies this`slide, bigfree
      ensures Valid()
      ensures done <==> SearchReturns(old(Listed()), c.size)
      ensures Inserted(old(Listed()), c) == if done then Some(Listed()) else None
      ensures !done ==> Listed() == old(Listed())
    {
      InsertedIsSorted(Listed(), c);
      var r := Bisearch(c.size);
      if r == Spins { return false; }
      Place(if r.At? then r.index else slide, c);
      done := true;
    }

    // Lines 352-371: empties the list into _tmpchunk, joining what touches.
    method Collect() returns (n: nat)
      requires Shaped() && slide > 0
      modifies this`slide, bigfree, tmpchunk
      ensures Shaped() && slide == 0 && n <= ROOM
      ensures tmpchunk[..n] == Coalesced(old(Listed()), ROOM)
    {
      ghost var goal := Coalesced(Listed(), ROOM);
      slide := slide - 1;
      tmpchunk[0] := bigfree[slide];
      n := 1;
      assert tmpchunk[..n] == [old(Listed())[slide]] && Listed() == old(Listed())[..slide];
      while slide > 0
        invariant Shaped() && 1 <= n <= ROOM
        invariant AbsorbAll(tmpchunk[..n], TakeOrder(Listed()), ROOM) == goal
      {
        TakeOrderStep(Listed());
        n := CollectOne(n);
      }
    }

    // Lines 355-370, one turn.
    method CollectOne(n: nat) returns (n': nat)
      requires Shaped() && slide > 0 && n <= ROOM
      modifies this`slide, bigfree, tmpchunk
      ensures Shaped() && n <= n' <= ROOM && slide < old(slide)
      ensures Listed() == NextTaken(old(Listed()))
      ensures tmpchunk[..n'] == Absorb(old(tmpchunk[..n]), old(Listed()[0]), ROOM)
    {
      ghost var xs, collected := Listed(), tmpchunk[..n];
      var tmp := bigfree[0];
      n' := n;
      var j := FindTouching(n, tmp);
      if j < n { tmpchunk[j] := Merge(tmp, tmpchunk[j]).value; }
      slide := slide - 1;
      bigfree[0] := bigfree[slide];
      if j == n && n < ROOM {
        tmpchunk[n] := tmp;
        n' := n + 1;
        assert tmpchunk[..n'] == collected + [tmp];
      }
      assert |Listed()| == |NextTaken(xs)| && forall k | 0 <= k < slide :: Listed()[k] == NextTaken(xs)[k];
    }

    // Lines 357-363.
    method FindTouching(n: nat, c: Extent) returns (j: nat)
      requires n <= tmpchunk.Length
      ensures j == FirstTouching(tmpchunk[..n], c, 0)
    {
      j := 0;
      while j < n && Merge(c, tmpchunk[j]).None?
        invariant j <= n && FirstTouching(tmpchunk[..n], c, 0) == FirstTouching(tmpchunk[..n], c, j)
      {
        j := j + 1;
      }
    }

    /** `_merge_bigfree`. */
    method MergeBigfree() returns (done: bool)
      requires Valid()
      modifies this`slide, bigfree, tmpchunk
      ensures Valid()
      ensures MergedList(old(Listed()), concurrentCount) == if done then Some(Listed()) else None
      ensures done ==> multiset(Listed()) == old(Merged(Listed(), concurrentCount))
      ensures old(slide) <= 6 ==> done
    {
      MergedListIsSorted(Listed(), concurrentCount);
      if slide <= concurrentCount { return true; }
      ghost var cs := Coalesced(Listed(), ROOM);
      var n := Collect();
      done := Rebuild(n, cs);
    }

    // Lines 372-374: the collected chunks go back one by one.
    method Rebuild(n: nat, ghost cs: seq<Extent>) returns (done: bool)
      requires Valid() && slide == 0 && n <= ROOM && tmpchunk[..n] == cs
      modifies this`slide, bigfree
      ensures Valid() && Rebuilt([], cs) == if done then Some(Listed()) else None
    {
      var k := 0;
      assert cs[0..] == cs && Listed() == [];
      while k < n
        invariant Valid() && k == slide <= n && tmpchunk[..n] == cs
        invariant Rebuilt([], cs) == Rebuilt(Listed(), cs[k..])
      {
        var c, ys := tmpchunk[k], Listed();
        assert c == tmpchunk[..n][k] == cs[k];
        RebuiltNext(ys, cs, k);
        InsertedIsSorted(ys, c);
        done := InsertSorted(c);
        assert Inserted(ys, c) == if done then Some(Listed()) else None;
        if !done { return; }
        k := k + 1;
      }
      done := true;
    }

    /** `_resize_bigfreelist`: the heap's own chunk has room for the bigger table, and none bigger will be needed. */
    method Grow()
      requires Valid() && bigfree.Length == ROOM
      modifies this`bigfree
      ensures Valid() && fresh(bigfree) && Listed() == old(Listed()) && bigfree.Length == 2 * old(bigfree.Length)
    {
      ghost var xs := Listed();
      var bigger := new Extent[2 * bigfree.Length](_ => Extent(0, 0));
      var k := 0;
      while k < slide
        invariant bigfree == old(bigfree) && Valid() && Listed() == xs
        invariant k <= slide && bigger.Length == 2 * bigfree.Length && bigger[..k] == xs[..k]
      {
        bigger[k] := bigfree[k];
        k := k + 1;
      }
      assert bigger[..slide] == xs[..slide] == xs;
      bigfree := bigger;
    }

    /** `_recover_to_bigfree`: a full list is coalesced first, and grows if that made no room. */
    method Recover(c: Extent) returns (done: bool)
      requires Valid()
      modifies this`slide, this`bigfree, bigfree, tmpchunk
      ensures Valid() && (bigfree == old(bigfree) || fresh(bigfree))
      ensures RecoveredList(old(Listed()), old(bigfree.Length), concurrentCount, c)
        == if done then Some(Listed()) else None
      ensures old(bigfree.Length) == 2 * ROOM ==> bigfree == old(bigfree)
      ensures done ==> bigfree.Length == CapacityAfter(old(Listed()), old(bigfree.Length), concurrentCount)
      ensures done ==> multiset(Listed()) == multiset{c} + Cleared(old(Listed()), old(bigfree.Length), concurrentCount)
      ensures old(slide) <= 5 ==> done
    {
      ShortListsTakeMore(Listed(), bigfree.Length, concurrentCount, c);
      GrowsOnce(Listed(), bigfree.Length, concurrentCount);
      done := true;
      if slide >= bigfree.Length { done := MergeBigfree(); }
      if done {
        if slide >= bigfree.Length { Grow(); }
        InsertedIsSorted(Listed(), c);
        done := InsertSorted(c);
      }
    }

    // Lines 170-181: coalesce, and search again if that shortened the list.
    method SearchCoalesced(size: int) returns (found: Found)
      requires Valid() && Answers(Listed(), size, Absent)
      modifies this`slide, bigfree, tmpchunk
      ensures Valid() && Answers(Listed(), size, found)
      ensures found != Spins ==> multiset(Listed()) == old(Merged(Listed(), concurrentCount))
      ensures found == SearchedAgain(old(Listed()), size, concurrentCount).0
      ensures found != Spins ==> Listed() == SearchedAgain(old(Listed()), size, concurrentCount).1
    {
      SearchAnswers(Listed(), size);
      found := Absent;
      ghost var xs := Listed();
      var before := slide;
      if before > concurrentCount {
        var done := MergeBigfree();
        if !done { return Spins; }
        if slide < before {
          found := Bisearch(size);
        } else {
          MergedSameCount(xs, Listed());
          AllSmallerPermutes(xs, Listed(), size);
        }
      }
    }

    /** `_chunk_from_bigfree`: the chunk taken is big enough, and no chunk left on the list would fit more
        tightly; nothing is taken only if every chunk on the list is too small; the list changes only by the
        chunk taken and by at most one coalescing pass. */
    method Take(size: int) returns (r: Taken)
      requires Valid()
      modifies this`slide, bigfree, tmpchunk
      ensures Valid()
      ensures r.Chunk? ==> size <= r.chunk.size && forall e | e in Listed() :: !(size < e.size < r.chunk.size)
      ensures r.Nothing? ==> forall e | e in Listed() :: e.size < size
      ensures !r.NeverReturns? ==> Reworked(old(Listed()), multiset(Listed()) + TakenChunks(r), concurrentCount)
      ensures r == TakenList(old(Listed()), size, concurrentCount).0
      ensures !r.NeverReturns? ==> Listed() == TakenList(old(Listed()), size, concurrentCount).1
      ensures old(slide) <= 5 ==> !r.NeverReturns?
    {
      ShortListsAreTakenFrom(Listed(), size, concurrentCount);
      var found := Bisearch(size);
      if found == Absent { found := SearchCoalesced(size); }
      ghost var xs := Listed();
      match found
      case Spins => r := NeverReturns;
      case Absent =>
        r := Nothing;
        AbsentMeansSmaller(xs, size);
      case At(i) =>
        r := Chunk(bigfree[i]);
        RemoveKeepsSorted(xs, i);
        TakeIsTight(xs, size, i);
        Erase(i);
    }
  }

  lemma AbsentMeansSmaller(xs: seq<Extent>, size: int)
    requires Answers(xs, size, Absent)
    ensures forall e | e in xs :: e.size < size
    ensures multiset(xs) + multiset{} == multiset(xs)
  {
  }

  /** What is on the list when `_recover_to_bigfree` comes to insert: a full list has been coalesced. */
  ghost function Cleared(xs: seq<Extent>, capacity: nat, processors: nat): multiset<Extent> {
    if |xs| >= capacity then Merged(xs, processors) else multiset(xs)
  }

  ghost function TakenChunks(r: Taken): multiset<Extent> {
    if r.Chunk? then multiset{r.chunk} else multiset{}
  }

  /** The list unchanged, or after one coalescing pass. */
  ghost predicate Reworked(xs: seq<Extent>, m: multiset<Extent>, processors: nat) {
    m == multiset(xs) || m == Merged(xs, processors)
  }

  lemma AllSmallerPermutes(xs: seq<Extent>, ys: seq<Extent>, size: int)
    requires multiset(ys) == multiset(xs) && Answers(xs, size, Absent)
    ensures Answers(ys, size, Absent)
  {
    forall j | 0 <= j < |ys|
      ensures ys[j].size < size
    {
      assert ys[j] in multiset(ys);
      assert ys[j] in xs;
    }
  }

  /** What `_merge_bigfree` leaves on the list. */
  ghost function Merged(xs: seq<Extent>, processors: nat): multiset<Extent> {
    if |xs| > processors then multiset(Coalesced(xs, ROOM)) else multiset(xs)
  }

  function NextTaken(xs: seq<Extent>): seq<Extent>
    requires xs != []
  {
    if |xs| == 1 then [] else [xs[|xs| - 1]] + xs[1..|xs| - 1]
  }

  lemma TakeOrderStep(xs: seq<Extent>)
    requires xs != []
    ensures TakeOrder(xs)[0] == xs[0] && TakeOrder(xs)[1..] == TakeOrder(NextTaken(xs))
  {
  }

  // A pass that did not shorten the list leaves every entry as small as it was.
  lemma MergedSameCount(xs: seq<Extent>, ys: seq<Extent>)
    requires multiset(ys) == multiset(Coalesced(xs, ROOM)) && |ys| >= |xs|
    ensures multiset(ys) == multiset(xs)
  {
    assert |Coalesced(xs, ROOM)| == |multiset(ys)| == |ys|;
    SameCountSameChunks(xs, ROOM);
  }

  lemma TakeIsTight(xs: seq<Extent>, size: int, i: nat)
    requires Sorted(xs) && Answers(xs, size, At(i))
    ensures size <= xs[i].size && forall e | e in Remove(xs, i) :: !(size < e.size < xs[i].size)
    ensures multiset(Remove(xs, i)) + multiset{xs[i]} == multiset(xs)
  {
    forall e | e in Remove(xs, i)
      ensures !(size < e.size < xs[i].size)
    {
      var k :| 0 <= k < |Remove(xs, i)| && Remove(xs, i)[k] == e;
      assert e == if k < i then xs[k] else xs[k + 1];
    }
  }
}
