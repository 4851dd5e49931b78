/** What the threads of `Msque` were called for is what happens to the queue: each push that is linked carries the value
    of a call, each such call is linked once, and answers are those of the calls. */
module MsqueCalls {
  import opened Wrappers
  import opened Msque
  import opened MsqueFifo

  predicate IsCallOf(a: Action, t: nat) { (a.StartPush? || a.StartPop?) && a.t == t }

  // The last call of thread `t`, or -1.
  function LastCall(actions: seq<Action>, t: nat): (k: int)
    ensures -1 <= k < |actions| && (k >= 0 ==> IsCallOf(actions[k], t))
    ensures forall j | k < j < |actions| :: !IsCallOf(actions[j], t)
  {
    if actions == [] then -1
    else if IsCallOf(actions[|actions| - 1], t) then |actions| - 1
    else LastCall(actions[..|actions| - 1], t)
  }

  lemma LastCallAfter(actions: seq<Action>, a: Action, t: nat)
    ensures LastCall(actions + [a], t) == if IsCallOf(a, t) then |actions| else LastCall(actions, t)
  {
    assert (actions + [a])[..|actions|] == actions;
  }

  // What a thread is at is what it was last called for, at `k`.
  predicate IsAskedFor(actions: seq<Action>, k: int, p: Phase) {
    match p
    case Resting(last) =>
      if last == None then k == -1
      else 0 <= k < |actions| && (last.value.Pushed? <==> actions[k].StartPush?)
    case WantsPush(v) => 0 <= k < |actions| && actions[k].StartPush? && actions[k].value == v
    case WantsPop => 0 <= k < |actions| && actions[k].StartPop?
    case Done(answer) => 0 <= k < |actions| && (answer.Pushed? <==> actions[k].StartPush?)
  }

  lemma AskedForStays(actions: seq<Action>, a: Action, q: Fifo, q': Fifo, t: nat)
    requires t < |q.phases| && Does(q, q', a) && IsAskedFor(actions, LastCall(actions, t), q.phases[t])
    ensures t < |q'.phases| && IsAskedFor(actions + [a], LastCall(actions + [a], t), q'.phases[t])
  {
    LastCallAfter(actions, a, t);
  }

  // The push that was called for at `k` has not been linked yet.
  predicate IsPending(actions: seq<Action>, q: Fifo, k: nat) {
    && k < |actions| && actions[k].StartPush? && actions[k].t < |q.phases|
    && k == LastCall(actions, actions[k].t) && q.phases[actions[k].t].WantsPush?
  }

  predicate ArePushes(actions: seq<Action>, calls: seq<nat>) {
    forall k | 0 <= k < |calls| :: calls[k] < |actions| && actions[calls[k]].StartPush?
  }

  // The values these calls were given.
  function Arguments(actions: seq<Action>, calls: seq<nat>): (vs: seq<Value>)
    requires ArePushes(actions, calls)
  {
    seq(|calls|, k requires 0 <= k < |calls| => actions[calls[k]].value)
  }

  /** Exactly the calls of push that are not pending, each once. */
  ghost predicate AreTheLinked(actions: seq<Action>, q: Fifo, calls: seq<nat>) {
    && ArePushes(actions, calls) && (forall i, j | 0 <= i < j < |calls| :: calls[i] != calls[j])
    && forall k: nat | k < |actions| && actions[k].StartPush? :: k in calls <==> !IsPending(actions, q, k)
  }

  // A history of the atomic queue and the calls that led to it.
  ghost predicate Consistent(actions: seq<Action>, q: Fifo) {
    && (forall k | 0 <= k < |actions| && actions[k].StartPush? :: actions[k].t < |q.phases|)
    && forall t: nat | t < |q.phases| :: IsAskedFor(actions, LastCall(actions, t), q.phases[t])
  }

  // The calls that one more action links.
  function NewlyLinked(actions: seq<Action>, q: Fifo, q': Fifo, a: Action): seq<nat> {
    if a.Advance? && PushedBy(q, q', a.t) != [] && LastCall(actions, a.t) >= 0 then [LastCall(actions, a.t)] else []
  }

  lemma EnteredBy(q: Fifo, q': Fifo, a: Action)
    requires Does(q, q', a)
    ensures Entered(q, q') == if a.Advance? then PushedBy(q, q', a.t) else []
  {
    match a
    case StartPush(t, _, _) => OneThreadMoves(q, q', t, |q.phases|);
    case StartPop(t) => OneThreadMoves(q, q', t, |q.phases|);
    case Advance(t, _) => OneThreadMoves(q, q', t, |q.phases|);
    case _ => OneThreadMoves(q, q', |q.phases|, |q.phases|);
  }

  lemma PendingAfter(actions: seq<Action>, a: Action, q: Fifo, q': Fifo, k: nat)
    requires Does(q, q', a) && Consistent(actions, q) && k < |actions| && actions[k].StartPush?
    ensures IsPending(actions + [a], q', k) <==> IsPending(actions, q, k) && [k] != NewlyLinked(actions, q, q', a)
  {
    LastCallAfter(actions, a, actions[k].t);
  }

  lemma LinkedGrow(actions: seq<Action>, a: Action, q: Fifo, q': Fifo, calls: seq<nat>)
    requires Does(q, q', a) && AreTheLinked(actions, q, calls) && Consistent(actions, q)
    ensures var calls' := calls + NewlyLinked(actions, q, q', a);
      && AreTheLinked(actions + [a], q', calls')
      && Arguments(actions + [a], calls') == Arguments(actions, calls) + Entered(q, q')
  {
    var more := NewlyLinked(actions, q, q', a);
    var actions', calls' := actions + [a], calls + more;
    EnteredBy(q, q', a);
    if more != [] { assert IsPending(actions, q, more[0]) && more[0] !in calls; }
    forall k: nat | k < |actions'| && actions'[k].StartPush?
      ensures k in calls' <==> !IsPending(actions', q', k)
    {
      if k < |actions| { PendingAfter(actions, a, q, q', k); } else { LastCallAfter(actions, a, a.t); }
    }
    assert Arguments(actions', calls') == Arguments(actions, calls) + Entered(q, q');
  }

  // ---------------------------------------------------------------- every run

  lemma AllShaped(run: seq<State>, actions: seq<Action>)
    requires IsRun(run, actions)
    ensures forall i | 0 <= i < |run| :: Shape(run[i])
  {
    forall i | 0 <= i < |run|
      ensures Shape(run[i])
    {
      RunsKeepInv(run, actions, i);
    }
  }

  // A run without its last action.
  lemma RunWithoutLast(run: seq<State>, actions: seq<Action>)
    requires IsRun(run, actions) && actions != []
    ensures var n := |actions| - 1; Shape(run[n]) && Shape(run[n + 1])
    ensures var n := |actions| - 1; Does(Abs(run[n]), Abs(run[n + 1]), actions[n])
    ensures var n := |actions| - 1; IsRun(run[..n + 1], actions[..n]) && actions[..n] + [actions[n]] == actions
  {
    RunsRefine(run, actions, |actions| - 1);
  }

  lemma {:induction false} RunIsConsistent(run: seq<State>, actions: seq<Action>)
    requires IsRun(run, actions)
    ensures Shape(run[|actions|]) && Consistent(actions, Abs(run[|actions|]))
  {
    AllShaped(run, actions);
    if actions == [] {
      assert forall t: nat | t < |run[0].threads| :: run[0].threads[t] == Idle(None);
    } else {
      var n := |actions| - 1;
      RunWithoutLast(run, actions);
      RunIsConsistent(run[..n + 1], actions[..n]);
      ConsistentStays(actions[..n], actions[n], Abs(run[n]), Abs(run[n + 1]));
    }
  }

  lemma ConsistentStays(actions: seq<Action>, a: Action, q: Fifo, q': Fifo)
    requires Consistent(actions, q) && Does(q, q', a)
    ensures Consistent(actions + [a], q')
  {
    forall t: nat | t < |q'.phases|
      ensures IsAskedFor(actions + [a], LastCall(actions + [a], t), q'.phases[t])
    {
      AskedForStays(actions, a, q, q', t);
    }
  }

  /** Whatever a thread of a run is at, and whatever it was last answered, is what its last call asked for: a push of
      the value it was given, or a pop. */
  lemma AnswersAreAskedFor(run: seq<State>, actions: seq<Action>, t: nat)
    requires IsRun(run, actions) && t < |run[|actions|].threads|
    ensures Shape(run[|actions|])
    ensures IsAskedFor(actions, LastCall(actions, t), PhaseOf(run[|actions|], run[|actions|].threads[t]))
  {
    RunIsConsistent(run, actions);
    assert Abs(run[|actions|]).phases[t] == PhaseOf(run[|actions|], run[|actions|].threads[t]);
  }

  lemma {:induction false} EnteredAreArguments(run: seq<State>, actions: seq<Action>) returns (calls: seq<nat>)
    requires IsRun(run, actions)
    ensures forall i | 0 <= i < |run| :: Shape(run[i])
    ensures AreTheLinked(actions, Abs(run[|actions|]), calls) && AllEntered(AbsRun(run)) == Arguments(actions, calls)
  {
    AllShaped(run, actions);
    if actions == [] {
      calls := [];
    } else {
      var n := |actions| - 1;
      RunWithoutLast(run, actions);
      var before := EnteredAreArguments(run[..n + 1], actions[..n]);
      RunIsConsistent(run[..n + 1], actions[..n]);
      LinkedGrow(actions[..n], actions[n], Abs(run[n]), Abs(run[n + 1]), before);
      calls := before + NewlyLinked(actions[..n], Abs(run[n]), Abs(run[n + 1]), actions[n]);
      assert AbsRun(run)[..n + 1] == AbsRun(run[..n + 1]);
    }
  }

  /** Over any run the values that pops have answered so far, followed by what the list holds, are the arguments of the
      calls of push whose node has been linked, in that order; those are all calls of push but the ones still on
      their way, each once. */
  lemma PoppedArePushedArguments(run: seq<State>, actions: seq<Action>) returns (calls: seq<nat>)
    requires IsRun(run, actions)
    ensures forall i | 0 <= i < |run| :: Shape(run[i])
    ensures AreTheLinked(actions, Abs(run[|actions|]), calls)
    ensures AllLeft(AbsRun(run)) + Queued(run[|actions|], run[|actions|].begin) == Arguments(actions, calls)
  {
    calls := EnteredAreArguments(run, actions);
    PoppedIsPrefixOfPushed(run, actions);
  }

  // ---------------------------------------------------------------- reclaimers

  predicate Reclaims(a: Action, n: Node) { a.Reclaim? && a.node == n }

  /** What has been freed is what scans have reclaimed, and had been retired. */
  lemma {:induction false} FreedAreReclaimed(run: seq<State>, actions: seq<Action>, n: Node)
    requires IsRun(run, actions)
    ensures n in run[|actions|].freed <==> exists j :: 0 <= j < |actions| && Reclaims(actions[j], n)
    ensures n in run[|actions|].freed ==> n in run[|actions|].retired
  {
    RunsKeepInv(run, actions, |actions|);
    if actions != [] {
      var m := |actions| - 1;
      RunWithoutLast(run, actions);
      FreedAreReclaimed(run[..m + 1], actions[..m], n);
      FreedAfter(run[m], actions[m], n);
      if n in run[m].freed {
        var j :| 0 <= j < m && Reclaims(actions[..m][j], n);
        assert Reclaims(actions[j], n);
      }
      if j :| 0 <= j < |actions| && Reclaims(actions[j], n) && j < m { assert Reclaims(actions[..m][j], n); }
    }
  }

  lemma FreedAfter(s: State, a: Action, n: Node)
    requires Enabled(s, a)
    ensures n in Apply(s, a).freed <==> n in s.freed || Reclaims(a, n)
  {
  }

  /** No node is freed twice. */
  lemma ReclaimedOnce(run: seq<State>, actions: seq<Action>, i: nat, j: nat)
    requires IsRun(run, actions) && i < j < |actions| && actions[i].Reclaim? && actions[j].Reclaim?
    ensures actions[i].node != actions[j].node
  {
    RunsKeepInv(run, actions, j);
    FreedAreReclaimed(run[..j + 1], actions[..j], actions[i].node);
    assert Reclaims(actions[..j][i], actions[i].node);
  }
}
