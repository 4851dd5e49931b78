/** The queue as a whole always moves on: however the accesses of the threads interleave, a long enough stretch of
    them links a node, swings `_begin` or completes an operation, unless exchanges keep failing without cause. */
module MsqueLockFree {
  import opened Tallies
  import opened Msque
  import opened MsqueProgress

  /** A node is linked, a node is passed, or an operation returns. */
  ghost predicate Happening(s: State, a: Action)
    requires Enabled(s, a)
  {
    a.Advance? &&
    var (e, th) := Decide(s, s.threads[a.t], a.weak);
    e.LinkNode? || e.MoveBegin? || th.Idle?
  }

  // A thread starts or advances an operation; the other actions are those of reclaimers.
  predicate OfThread(a: Action) { a.StartPush? || a.StartPop? || a.Advance? }

  predicate Reliable(a: Action) { a.Advance? ==> !a.weak }

  // An idle thread may start an operation, so it weighs more than any running one.
  const IDLE := 21

  function Weight(s: State, th: Thread): int {
    if th.Idle? then IDLE else if s.end in s.rank then StepsLeft(s, th) else 0
  }

  function WeightIn(s: State): Thread -> int { th => Weight(s, th) }

  // While `_end` lags, somebody's help can set everybody back, once.
  function Potential(s: State): int {
    Tally(s.threads, WeightIn(s)) +
    if s.end in s.rank && Lag(s) > 0 then IDLE * |s.threads| + 1 else 0
  }

  lemma PotentialIsBounded(s: State)
    requires Shape(s)
    ensures 0 <= Tally(s.threads, WeightIn(s)) <= IDLE * |s.threads|
    ensures 0 <= Potential(s) <= 2 * IDLE * |s.threads| + 1
  {
    forall t | 0 <= t < |s.threads|
      ensures 0 <= WeightIn(s)(s.threads[t]) <= IDLE
    {
      StepsAreBounded(s, s.threads[t]);
    }
    TallyWithin(s.threads, WeightIn(s), 0, IDLE);
  }

  // What the steps a thread has left depend on is the same, as far as the thread's nodes go.
  ghost predicate LooksSame(s: State, s': State) {
    && s'.begin == s.begin && s'.end == s.end && s'.rank == s.rank && s'.order == s.order
    && s.cells.Keys <= s'.cells.Keys && forall n | n in s.cells :: s'.cells[n] == s.cells[n]
  }

  lemma LooksSameSteps(s: State, s': State, th: Thread)
    requires Shape(s) && ThreadOk(s, th) && LooksSame(s, s')
    ensures Weight(s', th) == Weight(s, th)
  {
  }

  // If only thread `t` has done something, only its weight counts.
  lemma OnlyOneWeighs(s: State, s': State, t: nat)
    requires Shape(s) && AllOk(s) && LooksSame(s, s') && t < |s.threads| == |s'.threads|
    requires s'.threads == s.threads[t := s'.threads[t]]
    ensures Tally(s'.threads, WeightIn(s')) ==
      Tally(s.threads, WeightIn(s)) - Weight(s, s.threads[t]) + Weight(s', s'.threads[t])
  {
    forall u | 0 <= u < |s.threads|
      ensures WeightIn(s')(s.threads[u]) == WeightIn(s)(s.threads[u])
    {
      LooksSameSteps(s, s', s.threads[u]);
    }
    TallySame(s.threads, WeightIn(s'), WeightIn(s));
    TallyUpdate(s.threads, t, s'.threads[t], WeightIn(s'));
  }

  lemma StartLowers(s: State, a: Action)
    requires Inv(s) && Enabled(s, a) && (a.StartPush? || a.StartPop?)
    ensures Potential(Apply(s, a)) < Potential(s)
  {
    OnlyOneWeighs(s, Apply(s, a), a.t);
  }

  lemma ReclaimersWeighNothing(s: State, a: Action)
    requires Inv(s) && Enabled(s, a) && !OfThread(a)
    ensures Potential(Apply(s, a)) == Potential(s)
  {
    var s' := Apply(s, a);
    forall u | 0 <= u < |s.threads|
      ensures WeightIn(s')(s.threads[u]) == WeightIn(s)(s.threads[u])
    {
      LooksSameSteps(s, s', s.threads[u]);
    }
    TallySame(s.threads, WeightIn(s'), WeightIn(s));
  }

  // An access that leaves the list alone.
  lemma QuietStepLowers(s: State, t: nat)
    requires Inv(s) && Enabled(s, Advance(t, false)) && !Happening(s, Advance(t, false))
    requires !Decide(s, s.threads[t], false).0.MoveEnd?
    ensures Potential(Apply(s, Advance(t, false))) < Potential(s)
  {
    var (e, th') := Decide(s, s.threads[t], false);
    var s' := StepThread(s, t, false);
    StepCounts(s, t);
    assert s'.threads[t] == th' && LooksSame(s, s');
    OnlyOneWeighs(s, s', t);
  }

  // Help ends the lag of `_end`.
  lemma HelpLowers(s: State, t: nat)
    requires Inv(s) && Enabled(s, Advance(t, false)) && Decide(s, s.threads[t], false).0.MoveEnd?
    ensures Potential(Apply(s, Advance(t, false))) < Potential(s)
  {
    var s' := StepThread(s, t, false);
    StepKeepsInv(s, t, false);
    Decides(s, s.threads[t], false);
    assert ThreadOk(s, s.threads[t]);
    assert Lag(s) == 1 && Lag(s') == 0;
    PotentialIsBounded(s);
    PotentialIsBounded(s');
  }

  /** Every start and every access that does not make something happen lowers the potential. */
  lemma UneventfulLowers(s: State, a: Action)
    requires Inv(s) && Enabled(s, a) && Reliable(a) && !Happening(s, a)
    ensures Potential(Apply(s, a)) <= Potential(s) - if OfThread(a) then 1 else 0
  {
    match a
    case StartPush(_, _, _) => StartLowers(s, a);
    case StartPop(_) => StartLowers(s, a);
    case Advance(t, _) =>
      if Decide(s, s.threads[t], false).0.MoveEnd? { HelpLowers(s, t); } else { QuietStepLowers(s, t); }
    case _ => ReclaimersWeighNothing(s, a);
  }

  // How many actions from the i-th on, up to the j-th, are those of threads.
  function ThreadActions(actions: seq<Action>, i: nat, j: nat): nat
    requires i <= j <= |actions|
  {
    if i == j then 0 else ThreadActions(actions, i, j - 1) + if OfThread(actions[j - 1]) then 1 else 0
  }

  ghost predicate Uneventful(run: seq<State>, actions: seq<Action>, k: int) {
    && 0 <= k < |run| && k < |actions| && Enabled(run[k], actions[k])
    && Reliable(actions[k]) && !Happening(run[k], actions[k])
  }

  lemma ActionLowers(run: seq<State>, actions: seq<Action>, k: nat)
    requires IsRun(run, actions) && Uneventful(run, actions, k)
    ensures Potential(run[k + 1]) + (if OfThread(actions[k]) then 1 else 0) <= Potential(run[k])
  {
    RunsKeepInv(run, actions, k);
    UneventfulLowers(run[k], actions[k]);
  }

  // What falls with every action of a thread and never rises bounds their number.
  lemma {:induction false} FallBounds(ps: seq<int>, actions: seq<Action>, i: nat, j: nat)
    requires i <= j <= |actions| && |ps| == |actions| + 1
    requires forall k | i <= k < j :: ps[k + 1] + (if OfThread(actions[k]) then 1 else 0) <= ps[k]
    ensures ps[j] + ThreadActions(actions, i, j) <= ps[i]
  {
    if i < j { FallBounds(ps, actions, i, j - 1); }
  }

  /** In every run, any stretch in which n threads make more than 42 n + 1 starts and accesses, whoever makes them,
      and no exchange fails without cause, has a moment at which a node is linked, a node is passed or an operation
      returns. */
  lemma SomethingHappens(run: seq<State>, actions: seq<Action>, i: nat, j: nat)
    requires IsRun(run, actions) && i <= j <= |actions|
    requires forall k | i <= k < j :: Reliable(actions[k])
    requires ThreadActions(actions, i, j) > 42 * |run[i].threads| + 1
    ensures exists k :: i <= k < j && Happening(run[k], actions[k])
  {
    if forall k | i <= k < j :: !Happening(run[k], actions[k]) {
      var ps := seq(|run|, k requires 0 <= k < |run| => Potential(run[k]));
      forall k | i <= k < j
        ensures ps[k + 1] + (if OfThread(actions[k]) then 1 else 0) <= ps[k]
      {
        ActionLowers(run, actions, k);
      }
      FallBounds(ps, actions, i, j);
      RunsKeepInv(run, actions, i);
      RunsKeepInv(run, actions, j);
      PotentialIsBounded(run[i]);
      PotentialIsBounded(run[j]);
    }
  }
}
