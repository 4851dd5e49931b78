/** Adding up what the threads of a state machine hold, owe or have left to do. */
module Tallies {
  function Tally<T(!new)>(ts: seq<T>, f: T -> int): int {
    if ts == [] then 0 else Tally(ts[..|ts| - 1], f) + f(ts[|ts| - 1])
  }

  /** When one of them changes, the sum changes by that one. */
  lemma {:induction false} TallyUpdate<T(!new)>(ts: seq<T>, t: nat, th: T, f: T -> int)
    requires t < |ts|
    ensures Tally(ts[t := th], f) == Tally(ts, f) - f(ts[t]) + f(th)
  {
    var last := |ts| - 1;
    if t == last {
      assert ts[t := th][..last] == ts[..last];
    } else {
      TallyUpdate(ts[..last], t, th, f);
      assert ts[t := th][..last] == ts[..last][t := th];
    }
  }

  lemma {:induction false} TallyWithin<T(!new)>(ts: seq<T>, f: T -> int, low: int, high: int)
    requires forall t | 0 <= t < |ts| :: low <= f(ts[t]) <= high
    ensures low * |ts| <= Tally(ts, f) <= high * |ts|
  {
    if ts != [] { TallyWithin(ts[..|ts| - 1], f, low, high); }
  }

  // No single one is more than all together, if none is negative.
  lemma {:induction false} TallyCovers<T(!new)>(ts: seq<T>, t: nat, f: T -> int)
    requires t < |ts| && forall u | 0 <= u < |ts| :: f(ts[u]) >= 0
    ensures Tally(ts, f) >= f(ts[t])
  {
    var last := |ts| - 1;
    TallyNonNegative(ts[..last], f);
    if t < last { TallyCovers(ts[..last], t, f); }
  }

  lemma {:induction false} TallyNonNegative<T(!new)>(ts: seq<T>, f: T -> int)
    requires forall t | 0 <= t < |ts| :: f(ts[t]) >= 0
    ensures Tally(ts, f) >= 0
  {
    if ts != [] { TallyNonNegative(ts[..|ts| - 1], f); }
  }

  lemma {:induction false} TallySame<T(!new)>(ts: seq<T>, f: T -> int, g: T -> int)
    requires forall t | 0 <= t < |ts| :: f(ts[t]) == g(ts[t])
    ensures Tally(ts, f) == Tally(ts, g)
  {
    if ts != [] { TallySame(ts[..|ts| - 1], f, g); }
  }
}
