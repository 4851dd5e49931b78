/** What the threads of `SendProtocol` were called for is what happens to the stream: the bytes written are the data of
    the calls of `write`, each once; and what each call does when nobody else moves. */
module SendCalls {
  import opened SendProtocol

  // The last call of thread `t`, or -1.
  function LastCall(actions: seq<Action>, t: nat): (k: int)
    ensures -1 <= k < |actions| && (k >= 0 ==> !actions[k].Step? && actions[k].t == t)
    ensures forall j | k < j < |actions| :: actions[j].Step? || actions[j].t != t
  {
    if actions == [] then -1
    else
      var a := actions[|actions| - 1];
      if !a.Step? && a.t == t then |actions| - 1 else LastCall(actions[..|actions| - 1], t)
  }

  lemma LastCallAfter(actions: seq<Action>, a: Action, t: nat)
    ensures LastCall(actions + [a], t) == if !a.Step? && a.t == t then |actions| else LastCall(actions, t)
  {
    assert (actions + [a])[..|actions|] == actions;
  }

  // What a thread is doing is what it was last called for, at `k`.
  predicate IsAskedFor(actions: seq<Action>, k: int, th: Thread) {
    match th
    case Off => true
    case Writer(_, d, _, _) => 0 <= k < |actions| && actions[k].Write? && actions[k].data == d
    case Sender(_, _, _) => 0 <= k < |actions| && actions[k].Send?
    case Completion(_, _) => 0 <= k < |actions| && actions[k].Complete?
  }

  ghost predicate Consistent(actions: seq<Action>, s: State) {
    && (forall k | 0 <= k < |actions| :: actions[k].t < |s.threads|)
    && forall t: nat | t < |s.threads| :: IsAskedFor(actions, LastCall(actions, t), s.threads[t])
  }

  // A writer whose bytes are not in the half yet.
  predicate HasToCopy(th: Thread) { th.Writer? && !th.w.WDowngrade? && !th.w.WRelease? }

  // The write that was called for at `k` has not been copied yet.
  predicate IsPending(actions: seq<Action>, s: State, k: nat) {
    && k < |actions| && actions[k].Write? && actions[k].t < |s.threads|
    && k == LastCall(actions, actions[k].t) && HasToCopy(s.threads[actions[k].t])
  }

  predicate AreWrites(actions: seq<Action>, calls: seq<nat>) {
    forall k | 0 <= k < |calls| :: calls[k] < |actions| && actions[calls[k]].Write?
  }

  // The data of these calls, one after another.
  function Joined(actions: seq<Action>, calls: seq<nat>): Data
    requires AreWrites(actions, calls)
  {
    if calls == [] then [] else Joined(actions, calls[..|calls| - 1]) + actions[calls[|calls| - 1]].data
  }

  lemma {:induction false} JoinedAfter(actions: seq<Action>, a: Action, calls: seq<nat>)
    requires AreWrites(actions, calls)
    ensures AreWrites(actions + [a], calls) && Joined(actions + [a], calls) == Joined(actions, calls)
  {
    if calls != [] { JoinedAfter(actions, a, calls[..|calls| - 1]); }
  }

  /** Exactly the calls of write that are not pending, each once. */
  ghost predicate AreTheCopied(actions: seq<Action>, s: State, calls: seq<nat>) {
    && AreWrites(actions, calls) && (forall i, j | 0 <= i < j < |calls| :: calls[i] != calls[j])
    && forall k: nat | k < |actions| && actions[k].Write? :: k in calls <==> !IsPending(actions, s, k)
  }

  // A write that comes later in the stream than one it was called before was still pending when that one was called.
  ghost predicate KeepOrder(run: seq<State>, actions: seq<Action>, calls: seq<nat>)
    requires |actions| < |run|
  {
    forall i, j | 0 <= i < j < |calls| && calls[j] < calls[i] < |actions| ::
      IsPending(actions[..calls[i]], run[calls[i]], calls[j])
  }

  // ---------------------------------------------------------------- one action

  // What an action adds to the bytes written, and whether the copy of the thread is done with it.
  predicate Copies(s: State, s': State, a: Action)
    requires a.t < |s.threads| == |s'.threads|
  {
    var th, th' := s.threads[a.t], s'.threads[a.t];
    if a.Step? && HasToCopy(th) && !HasToCopy(th') then s'.written == s.written + th.data
    else
      && s'.written == s.written
      && (a.Step? ==> (HasToCopy(th') <==> HasToCopy(th)))
      && (a.Write? ==> HasToCopy(th'))
  }

  lemma DecideCopies(s: State, t: nat, th: Thread, choice: bool)
    ensures var (e, th') := Decide(s, t, th, choice);
      if HasToCopy(th) && !HasToCopy(th') then e == Append(th.h, th.data)
      else !e.Append? && (HasToCopy(th') <==> HasToCopy(th))
  {
  }

  lemma ApplyCopies(s: State, a: Action)
    requires Enabled(s, a)
    ensures |Apply(s, a).threads| == |s.threads| && Copies(s, Apply(s, a), a)
    ensures forall u | 0 <= u < |s.threads| && u != a.t :: Apply(s, a).threads[u] == s.threads[u]
  {
    if a.Step? {
      var (e, th') := Decide(s, a.t, s.threads[a.t], a.choice);
      DecideCopies(s, a.t, s.threads[a.t], a.choice);
      assert Apply(s, a).written == if e.Append? then s.written + e.data else s.written;
    }
  }

  lemma DecideAsked(s: State, t: nat, th: Thread, choice: bool, actions: seq<Action>, k: int)
    requires IsAskedFor(actions, k, th)
    ensures var (_, th') := Decide(s, t, th, choice); IsAskedFor(actions, k, th')
  {
  }

  lemma ApplyAsked(actions: seq<Action>, s: State, a: Action, t: nat)
    requires Enabled(s, a) && t < |s.threads| && IsAskedFor(actions, LastCall(actions, t), s.threads[t])
    ensures t < |Apply(s, a).threads|
    ensures IsAskedFor(actions + [a], LastCall(actions + [a], t), Apply(s, a).threads[t])
  {
    LastCallAfter(actions, a, t);
    ApplyCopies(s, a);
    if a.t == t && a.Step? { DecideAsked(s, t, s.threads[t], a.choice, actions, LastCall(actions, t)); }
  }

  // The write that an action copies.
  function NewlyCopied(actions: seq<Action>, s: State, s': State, a: Action): seq<nat>
    requires a.t < |s.threads| == |s'.threads|
  {
    if a.Step? && HasToCopy(s.threads[a.t]) && !HasToCopy(s'.threads[a.t]) && LastCall(actions, a.t) >= 0
    then [LastCall(actions, a.t)] else []
  }

  lemma PendingAfter(actions: seq<Action>, s: State, a: Action, k: nat)
    requires Enabled(s, a) && Consistent(actions, s) && k < |actions| && actions[k].Write?
    ensures |Apply(s, a).threads| == |s.threads|
    ensures IsPending(actions + [a], Apply(s, a), k)
      <==> IsPending(actions, s, k) && [k] != NewlyCopied(actions, s, Apply(s, a), a)
  {
    ApplyCopies(s, a);
    LastCallAfter(actions, a, actions[k].t);
  }

  lemma JoinedGrow(actions: seq<Action>, s: State, a: Action, calls: seq<nat>)
    requires Enabled(s, a) && Consistent(actions, s) && AreWrites(actions, calls)
    requires s.written == Joined(actions, calls)
    ensures |Apply(s, a).threads| == |s.threads|
    ensures var s' := Apply(s, a);
      var calls' := calls + NewlyCopied(actions, s, s', a);
      AreWrites(actions + [a], calls') && s'.written == Joined(actions + [a], calls')
  {
    ApplyCopies(s, a);
    var more := NewlyCopied(actions, s, Apply(s, a), a);
    JoinedAfter(actions, a, calls);
    assert IsAskedFor(actions, LastCall(actions, a.t), s.threads[a.t]);
    assert more != [] ==> (calls + more)[..|calls|] == calls;
    assert more == [] ==> calls + more == calls;
  }

  lemma CopiedGrow(actions: seq<Action>, s: State, a: Action, calls: seq<nat>)
    requires Enabled(s, a) && Consistent(actions, s) && AreTheCopied(actions, s, calls)
    requires |Apply(s, a).threads| == |s.threads|
    requires AreWrites(actions + [a], calls + NewlyCopied(actions, s, Apply(s, a), a))
    ensures AreTheCopied(actions + [a], Apply(s, a), calls + NewlyCopied(actions, s, Apply(s, a), a))
  {
    var s', actions' := Apply(s, a), actions + [a];
    var more := NewlyCopied(actions, s, s', a);
    if more != [] {
      assert IsAskedFor(actions, more[0], s.threads[a.t]);
      assert IsPending(actions, s, more[0]) && more[0] !in calls;
    }
    forall k: nat | k < |actions'| && actions'[k].Write?
      ensures k in calls + more <==> !IsPending(actions', s', k)
    {
      if k < |actions| {
        PendingAfter(actions, s, a, k);
      } else {
        LastCallAfter(actions, a, a.t);
        ApplyCopies(s, a);
      }
    }
  }

  // ---------------------------------------------------------------- every run

  // A run without its last action.
  lemma RunWithoutLast(run: seq<State>, actions: seq<Action>)
    requires IsRun(run, actions) && actions != []
    ensures var n := |actions| - 1;
      && IsRun(run[..n + 1], actions[..n]) && actions[..n] + [actions[n]] == actions
      && Enabled(run[n], actions[n]) && run[n + 1] == Apply(run[n], actions[n])
  {
  }

  /** Whatever a thread of a run is doing is what its last call asked for; a writer has the data of that call. */
  lemma {:induction false} ThreadsDoAsAsked(run: seq<State>, actions: seq<Action>)
    requires IsRun(run, actions)
    ensures Consistent(actions, run[|actions|])
  {
    if actions != [] {
      var n := |actions| - 1;
      RunWithoutLast(run, actions);
      ThreadsDoAsAsked(run[..n + 1], actions[..n]);
      ApplyCopies(run[n], actions[n]);
      forall t: nat | t < |run[n + 1].threads|
        ensures IsAskedFor(actions, LastCall(actions, t), run[n + 1].threads[t])
      {
        ApplyAsked(actions[..n], run[n], actions[n], t);
      }
    }
  }

  // A write that is pending has been so since it was called.
  lemma {:induction false} PendingSince(run: seq<State>, actions: seq<Action>, k: nat, m: nat)
    requires IsRun(run, actions) && IsPending(actions, run[|actions|], k) && k < m <= |actions|
    ensures IsPending(actions[..m], run[m], k)
  {
    if m < |actions| {
      var n := |actions| - 1;
      RunWithoutLast(run, actions);
      ThreadsDoAsAsked(run[..n + 1], actions[..n]);
      PendingAfter(actions[..n], run[n], actions[n], k);
      PendingSince(run[..n + 1], actions[..n], k, m);
      assert actions[..n][..m] == actions[..m];
    } else {
      assert actions[..m] == actions;
    }
  }

  lemma KeepOrderAfter(run: seq<State>, actions: seq<Action>, calls: seq<nat>, more: seq<nat>)
    requires IsRun(run, actions) && actions != [] && AreWrites(actions[..|actions| - 1], calls)
    requires var n := |actions| - 1; KeepOrder(run[..n + 1], actions[..n], calls)
    requires var n := |actions| - 1; |more| <= 1 && (more != [] ==> IsPending(actions[..n], run[n], more[0]))
    ensures KeepOrder(run, actions, calls + more)
  {
    var n, calls' := |actions| - 1, calls + more;
    RunWithoutLast(run, actions);
    forall i, j | 0 <= i < j < |calls'| && calls'[j] < calls'[i] < |actions|
      ensures IsPending(actions[..calls'[i]], run[calls'[i]], calls'[j])
    {
      assert actions[..n][..calls'[i]] == actions[..calls'[i]];
      if j == |calls| { PendingSince(run[..n + 1], actions[..n], more[0], calls'[i]); }
    }
  }

  /** Over any run the bytes written so far are the data of calls of write, one after another: of all calls but those
      whose bytes are still to be copied, each once; and a call that had been copied before another one was made
      comes before it. */
  lemma {:induction false} WrittenAreTheCalls(run: seq<State>, actions: seq<Action>) returns (calls: seq<nat>)
    requires IsRun(run, actions)
    ensures AreTheCopied(actions, run[|actions|], calls) && KeepOrder(run, actions, calls)
    ensures run[|actions|].written == Joined(actions, calls)
  {
    if actions == [] {
      calls := [];
    } else {
      var n := |actions| - 1;
      RunWithoutLast(run, actions);
      ThreadsDoAsAsked(run[..n + 1], actions[..n]);
      var before := WrittenAreTheCalls(run[..n + 1], actions[..n]);
      JoinedGrow(actions[..n], run[n], actions[n], before);
      CopiedGrow(actions[..n], run[n], actions[n], before);
      var more := NewlyCopied(actions[..n], run[n], run[n + 1], actions[n]);
      assert IsAskedFor(actions[..n], LastCall(actions[..n], actions[n].t), run[n].threads[actions[n].t]);
      KeepOrderAfter(run, actions, before, more);
      calls := before + more;
    }
  }

  ghost predicate IsQuiet(s: State) {
    !s.wire && forall t | 0 <= t < |s.threads| :: s.threads[t] == Off
  }

  /** When nothing is under way the bytes of completed sends followed by those that wait are the data of all calls of
      write, each once. */
  lemma QuietMeansAllCalls(run: seq<State>, actions: seq<Action>) returns (calls: seq<nat>)
    requires IsRun(run, actions) && IsQuiet(run[|actions|])
    ensures AreWrites(actions, calls) && (forall i, j | 0 <= i < j < |calls| :: calls[i] != calls[j])
    ensures forall k: nat | k < |actions| && actions[k].Write? :: k in calls
    ensures KeepOrder(run, actions, calls)
    ensures var s := run[|actions|]; s.completed + s.halves.Get(s.writing).content == Joined(actions, calls)
  {
    calls := WrittenAreTheCalls(run, actions);
    QuietMeansSentOrWaiting(run, actions, |actions|);
  }

  // ---------------------------------------------------------------- the flag

  /** The flag is clear when nobody is in charge of it. */
  ghost predicate FlagIsHeld(s: State) {
    s.flag ==> s.wire || exists t :: 0 <= t < |s.threads| && HasFlag(s.threads[t])
  }

  // Who sets the flag is in charge of it, and who gives it up clears it or hands it to the wire.
  lemma DecideHolds(s: State, t: nat, th: Thread, choice: bool)
    ensures var (e, th') := Decide(s, t, th, choice);
      && (e == SetFlag(true) ==> HasFlag(th'))
      && (HasFlag(th) && !HasFlag(th') ==> e == SetFlag(false) || e.StartSend?)
  {
  }

  lemma StepKeepsFlagHeld(s: State, t: nat, e: Effect, th': Thread)
    requires FlagIsHeld(s) && t < |s.threads| && (e == SetFlag(true) ==> HasFlag(th'))
    requires HasFlag(s.threads[t]) && !HasFlag(th') ==> e == SetFlag(false) || e.StartSend?
    ensures FlagIsHeld(Install(s, t, e, th'))
  {
    var s' := Install(s, t, e, th');
    if HasFlag(th') {
      assert HasFlag(s'.threads[t]);
    } else if u :| 0 <= u < |s.threads| && HasFlag(s.threads[u]) {
      if u != t { assert HasFlag(s'.threads[u]); }
    }
  }

  lemma ApplyKeepsFlagHeld(s: State, a: Action)
    requires FlagIsHeld(s) && Enabled(s, a)
    ensures FlagIsHeld(Apply(s, a))
  {
    var s', t := Apply(s, a), a.t;
    if a.Step? {
      var (e, th') := Decide(s, t, s.threads[t], a.choice);
      DecideHolds(s, t, s.threads[t], a.choice);
      StepKeepsFlagHeld(s, t, e, th');
    } else {
      assert a.Complete? ==> HasFlag(s'.threads[t]);
      if u :| 0 <= u < |s.threads| && HasFlag(s.threads[u]) { assert HasFlag(s'.threads[u]); }
    }
  }

  lemma {:induction false} FlagIsHeldInRuns(run: seq<State>, actions: seq<Action>, i: nat)
    requires IsRun(run, actions) && i < |run|
    ensures FlagIsHeld(run[i])
  {
    if i > 0 {
      FlagIsHeldInRuns(run, actions, i - 1);
      ApplyKeepsFlagHeld(run[i - 1], actions[i - 1]);
    }
  }

  // ---------------------------------------------------------------- alone

  /** `n` steps of thread `t` with nobody else moving. */
  function Steps(s: State, t: nat, choice: bool, n: nat): (s': State)
    requires t < |s.threads|
    ensures |s'.threads| == |s.threads|
  {
    if n == 0 then s else Apply(Steps(s, t, choice, n - 1), Step(t, choice))
  }

  predicate Next(run: seq<State>, t: nat, choice: bool, i: nat) {
    i + 1 < |run| && t < |run[i].threads| && run[i + 1] == Apply(run[i], Step(t, choice))
  }

  // The same as a sequence of states.
  ghost predicate IsSolo(run: seq<State>, t: nat, choice: bool) {
    forall i: nat {:trigger Next(run, t, choice, i)} | i + 1 < |run| :: Next(run, t, choice, i)
  }

  lemma SoloRun(s: State, t: nat, choice: bool, n: nat) returns (run: seq<State>)
    requires t < |s.threads|
    ensures IsSolo(run, t, choice) && |run| == n + 1 && run[0] == s && run[n] == Steps(s, t, choice, n)
  {
    run := seq(n + 1, i requires 0 <= i => Steps(s, t, choice, i));
  }

  // The state with `th` for thread `t`.
  function At(s: State, t: nat, th: Thread): State
    requires t < |s.threads|
  {
    s.(threads := s.threads[t := th])
  }

  lemma DecideAt(s: State, t: nat, th: Thread, choice: bool)
    requires t < |s.threads|
    ensures Decide(At(s, t, th), t, th, choice) == Decide(s, t, th, choice)
  {
  }

  lemma PerformAt(s: State, t: nat, th: Thread, e: Effect, th': Thread)
    requires t < |s.threads|
    ensures |Perform(s, e).threads| == |s.threads|
    ensures Install(At(s, t, th), t, e, th') == At(Perform(s, e), t, th')
  {
    assert s.threads[t := th][t := th'] == s.threads[t := th'];
    assert Perform(At(s, t, th), e) == Perform(s, e).(threads := s.threads[t := th]);
  }

  lemma OneStep(run: seq<State>, i: nat, s: State, t: nat, th: Thread, e: Effect, th': Thread, choice: bool)
    requires IsSolo(run, t, choice) && i + 1 < |run| && t < |s.threads| && run[i] == At(s, t, th)
    requires Decide(s, t, th, choice) == (e, th')
    ensures |Perform(s, e).threads| == |s.threads| && run[i + 1] == At(Perform(s, e), t, th')
  {
    assert Next(run, t, choice, i);
    DecideAt(s, t, th, choice);
    PerformAt(s, t, th, e, th');
  }

  lemma LastStep(run: seq<State>, i: nat, s: State, t: nat, th: Thread, e: Effect, choice: bool)
    requires IsSolo(run, t, choice) && i + 1 < |run| && t < |s.threads| && run[i] == At(s, t, th)
    requires s.threads[t] == Off && Decide(s, t, th, choice) == (e, Off)
    ensures run[i + 1] == Perform(s, e)
  {
    OneStep(run, i, s, t, th, e, Off, choice);
    assert At(Perform(s, e), t, Off) == Perform(s, e);
  }

  // The state with `d` added to the current half.
  function Wrote(s: State, d: Data): State {
    var half := s.halves.Get(s.writing);
    s.(halves := s.halves.Put(s.writing, Half(half.content + d, half.promised + |d|)), written := s.written + d)
  }

  // The state with the lock of the current half as it is.
  function Locked(s: State, lock: Lock): State { Perform(s, SetLock(s.writing, lock)) }

  // Up to the compare-exchange of line 175 the writer only takes the lock.
  lemma WriteReserves(run: seq<State>, s: State, t: nat, d: Data, fits: bool)
    requires Enabled(s, Write(t, d)) && s.locks.Get(s.writing) == Unlocked
    requires IsSolo(run, t, fits) && |run| > 4 && run[0] == Apply(s, Write(t, d))
    ensures run[4] == At(Locked(s, Upgraded(t)), t, Writer(WReserve, d, s.writing, s.halves.Get(s.writing).promised))
  {
    var h, m := s.writing, Locked(s, Upgraded(t));
    OneStep(run, 0, s, t, Writer(WLoad, d, false, 0), NoEffect, Writer(WTry, d, h, 0), fits);
    OneStep(run, 1, s, t, Writer(WTry, d, h, 0), SetLock(h, Upgraded(t)), Writer(WCheck, d, h, 0), fits);
    OneStep(run, 2, m, t, Writer(WCheck, d, h, 0), NoEffect, Writer(WSlide, d, h, 0), fits);
    OneStep(run, 3, m, t, Writer(WSlide, d, h, 0), NoEffect, Writer(WReserve, d, h, s.halves.Get(h).promised), fits);
  }

  // From there it promises its bytes, copies them and gives the lock back.
  lemma WriteFits(run: seq<State>, s: State, t: nat, d: Data)
    requires Enabled(s, Write(t, d)) && s.locks.Get(s.writing) == Unlocked && IsSolo(run, t, true) && |run| > 7
    requires run[4] == At(Locked(s, Upgraded(t)), t, Writer(WReserve, d, s.writing, s.halves.Get(s.writing).promised))
    ensures run[7] == Wrote(s, d)
  {
    var h, seen := s.writing, s.halves.Get(s.writing).promised;
    var m := Locked(s, Upgraded(t));
    var promised := Perform(m, Promise(h, |d|));
    var wrote := Perform(promised, Append(h, d));
    OneStep(run, 4, m, t, Writer(WReserve, d, h, seen), Promise(h, |d|), Writer(WCopy, d, h, seen), true);
    OneStep(run, 5, promised, t, Writer(WCopy, d, h, seen), Append(h, d), Writer(WRelease, d, h, seen), true);
    LastStep(run, 6, wrote, t, Writer(WRelease, d, h, seen), SetLock(h, Unlocked), true);
    assert Perform(wrote, SetLock(h, Unlocked)) == Wrote(s, d);
  }

  // The same with the lock to itself meanwhile.
  lemma WriteOverflows(run: seq<State>, s: State, t: nat, d: Data)
    requires Enabled(s, Write(t, d)) && s.locks.Get(s.writing) == Unlocked && IsSolo(run, t, false) && |run| > 9
    requires run[4] == At(Locked(s, Upgraded(t)), t, Writer(WReserve, d, s.writing, s.halves.Get(s.writing).promised))
    ensures run[9] == Wrote(s, d)
  {
    var h, seen := s.writing, s.halves.Get(s.writing).promised;
    var m, owned := Locked(s, Upgraded(t)), Locked(s, Owned(t));
    var promised := Perform(owned, Promise(h, |d|));
    OneStep(run, 4, m, t, Writer(WReserve, d, h, seen), SetLock(h, Owned(t)), Writer(WOverflow, d, h, seen), false);
    OneStep(run, 5, owned, t, Writer(WOverflow, d, h, seen), Promise(h, |d|), Writer(WCopyAlone, d, h, seen), false);
    OneStep(run, 6, promised, t, Writer(WCopyAlone, d, h, seen), Append(h, d), Writer(WDowngrade, d, h, seen), false);
    WriteLeaves(run, s, t, d, seen);
  }

  lemma WriteLeaves(run: seq<State>, s: State, t: nat, d: Data, seen: nat)
    requires Enabled(s, Write(t, d)) && s.locks.Get(s.writing) == Unlocked && IsSolo(run, t, false) && |run| > 9
    requires run[7] == At(Locked(Wrote(s, d), Owned(t)), t, Writer(WDowngrade, d, s.writing, seen))
    ensures run[9] == Wrote(s, d)
  {
    var h, alone, wrote := s.writing, Locked(Wrote(s, d), Owned(t)), Locked(Wrote(s, d), Upgraded(t));
    OneStep(run, 7, alone, t, Writer(WDowngrade, d, h, seen), SetLock(h, Upgraded(t)), Writer(WRelease, d, h, seen),
      false);
    LastStep(run, 8, wrote, t, Writer(WRelease, d, h, seen), SetLock(h, Unlocked), false);
  }

  /** A write alone on a half nobody has locked adds its data to that half and changes nothing else, whether the buffer
      has room or not. */
  lemma WriteAlone(s: State, t: nat, d: Data, fits: bool)
    requires Enabled(s, Write(t, d)) && s.locks.Get(s.writing) == Unlocked
    ensures Steps(Apply(s, Write(t, d)), t, fits, if fits then 7 else 9) == Wrote(s, d)
  {
    var run := SoloRun(Apply(s, Write(t, d)), t, fits, if fits then 7 else 9);
    WriteReserves(run, s, t, d, fits);
    if fits { WriteFits(run, s, t, d); } else { WriteOverflows(run, s, t, d); }
  }

  // The send has been started: the halves have changed places.
  function Sent(s: State): State { s.(writing := s.sending, sending := s.writing, flag := true, wire := true) }

  // The half in flight has gone out and is empty.
  function Delivered(s: State): State {
    s.(wire := false, flag := false, halves := s.halves.Put(s.sending, Half([], 0)),
       completed := s.completed + s.halves.Get(s.sending).content)
  }

  lemma SendTakesLock(run: seq<State>, s: State, t: nat, insist: bool)
    requires Enabled(s, Send(t)) && s.locks.Get(s.writing) == Unlocked
    requires IsSolo(run, t, insist) && |run| > 2 && run[0] == Apply(s, Send(t))
    ensures run[2] == At(Locked(s, Owned(t)), t, Sender(SFlag, s.writing, false))
  {
    var h := s.writing;
    OneStep(run, 0, s, t, Sender(SLoad, false, false), NoEffect, Sender(SLock, h, false), insist);
    OneStep(run, 1, s, t, Sender(SLock, h, false), SetLock(h, Owned(t)), Sender(SFlag, h, false), insist);
  }

  // A sender that finds the flag set gives the lock back.
  lemma SendRefused(run: seq<State>, s: State, t: nat, insist: bool)
    requires Enabled(s, Send(t)) && s.locks.Get(s.writing) == Unlocked && s.flag
    requires IsSolo(run, t, insist) && |run| > 4
    requires run[2] == At(Locked(s, Owned(t)), t, Sender(SFlag, s.writing, false))
    ensures run[4] == s
  {
    var h, m := s.writing, Locked(s, Owned(t));
    OneStep(run, 2, m, t, Sender(SFlag, h, false), NoEffect, Sender(SLeave, h, false), insist);
    LastStep(run, 3, m, t, Sender(SLeave, h, false), SetLock(h, Unlocked), insist);
  }

  // One that takes the flag finds the half current still, and looks whether something waits.
  lemma SendLooks(run: seq<State>, s: State, t: nat, insist: bool)
    requires Enabled(s, Send(t)) && s.locks.Get(s.writing) == Unlocked && !s.flag
    requires IsSolo(run, t, insist) && |run| > 5
    requires run[2] == At(Locked(s, Owned(t)), t, Sender(SFlag, s.writing, false))
    ensures var next := if s.halves.Get(s.writing).promised == 0 then SClear else SSwap;
      run[5] == At(Locked(s, Owned(t)).(flag := true), t, Sender(next, s.writing, false))
  {
    var h, m := s.writing, Locked(s, Owned(t));
    var flagged, next := m.(flag := true), if s.halves.Get(s.writing).promised == 0 then SClear else SSwap;
    OneStep(run, 2, m, t, Sender(SFlag, h, false), SetFlag(true), Sender(SCheck, h, false), insist);
    OneStep(run, 3, flagged, t, Sender(SCheck, h, false), NoEffect, Sender(SEmpty, h, false), insist);
    OneStep(run, 4, flagged, t, Sender(SEmpty, h, false), NoEffect, Sender(next, h, false), insist);
  }

  // If nothing does it clears the flag again.
  lemma SendNothing(run: seq<State>, s: State, t: nat, insist: bool)
    requires Enabled(s, Send(t)) && s.locks.Get(s.writing) == Unlocked && !s.flag
    requires IsSolo(run, t, insist) && |run| > 7
    requires run[5] == At(Locked(s, Owned(t)).(flag := true), t, Sender(SClear, s.writing, false))
    ensures run[7] == s
  {
    var h, m := s.writing, Locked(s, Owned(t));
    OneStep(run, 5, m.(flag := true), t, Sender(SClear, h, false), SetFlag(false), Sender(SLeave, h, false), insist);
    LastStep(run, 6, m, t, Sender(SLeave, h, false), SetLock(h, Unlocked), insist);
  }

  lemma SendSwaps(run: seq<State>, s: State, t: nat, insist: bool)
    requires Enabled(s, Send(t)) && s.locks.Get(s.writing) == Unlocked && IsSolo(run, t, insist) && |run| > 9
    requires run[5] == At(Locked(s, Owned(t)).(flag := true), t, Sender(SSwap, s.writing, false))
    ensures run[9] == Sent(s)
  {
    var h, o, m := s.writing, s.sending, Locked(s, Owned(t)).(flag := true);
    var stored := Perform(m, SetWriting(o));
    var swapped := Perform(stored, SetSending(h));
    OneStep(run, 5, m, t, Sender(SSwap, h, false), NoEffect, Sender(SStore, h, o), insist);
    OneStep(run, 6, m, t, Sender(SStore, h, o), SetWriting(o), Sender(SStoreSend, h, o), insist);
    OneStep(run, 7, stored, t, Sender(SStoreSend, h, o), SetSending(h), Sender(SGive, h, o), insist);
    LastStep(run, 8, swapped, t, Sender(SGive, h, o), StartSend(h), insist);
    assert Perform(swapped, StartSend(h)) == Sent(s);
  }

  /** A sender alone on a half nobody has locked starts a send exactly when nobody has the flag and something waits in
      that half; then the two halves change places, and otherwise it leaves everything as it was. */
  lemma SendAlone(s: State, t: nat, insist: bool)
    requires Enabled(s, Send(t)) && s.locks.Get(s.writing) == Unlocked
    ensures var waits := s.halves.Get(s.writing).promised > 0;
      Steps(Apply(s, Send(t)), t, insist, if s.flag then 4 else if waits then 9 else 7)
        == if !s.flag && waits then Sent(s) else s
  {
    var waits := s.halves.Get(s.writing).promised > 0;
    var run := SoloRun(Apply(s, Send(t)), t, insist, if s.flag then 4 else if waits then 9 else 7);
    SendTakesLock(run, s, t, insist);
    if s.flag {
      SendRefused(run, s, t, insist);
    } else {
      SendLooks(run, s, t, insist);
      if waits { SendSwaps(run, s, t, insist); } else { SendNothing(run, s, t, insist); }
    }
  }

  /** A completion alone empties the half in flight, counts its bytes as sent and clears the flag. */
  lemma CompleteAlone(s: State, t: nat, choice: bool)
    requires Enabled(s, Complete(t))
    ensures Steps(Apply(s, Complete(t)), t, choice, 3) == Delivered(s)
  {
    var h, m := s.sending, s.(wire := false);
    var run := SoloRun(Apply(s, Complete(t)), t, choice, 3);
    OneStep(run, 0, m, t, Completion(CLoad, false), NoEffect, Completion(CClear, h), choice);
    OneStep(run, 1, m, t, Completion(CClear, h), Empty(h), Completion(CFlag, h), choice);
    LastStep(run, 2, Perform(m, Empty(h)), t, Completion(CFlag, h), SetFlag(false), choice);
  }

  /** From any state of a run in which nothing is under way, a sender and the completion of its send bring every byte
      ever written out: what can be sent is never stuck. */
  lemma QuietCanBeSent(run: seq<State>, actions: seq<Action>, t: nat, choice: bool)
    requires IsRun(run, actions) && IsQuiet(run[|actions|]) && t < |run[|actions|].threads|
    requires run[|actions|].completed != run[|actions|].written
    ensures var s := run[|actions|];
      var sent := Steps(Apply(s, Send(t)), t, choice, 9);
      && Enabled(sent, Complete(t))
      && var end := Steps(Apply(sent, Complete(t)), t, choice, 3);
         IsQuiet(end) && !end.flag && end.completed == end.written == s.written
  {
    var s := run[|actions|];
    RunsKeepInv(run, actions, |actions|);
    FlagIsHeldInRuns(run, actions, |actions|);
    QuietMeansSentOrWaiting(run, actions, |actions|);
    QuietIsUnlocked(s);
    SendAlone(s, t, choice);
    CompleteAlone(Sent(s), t, choice);
  }

  lemma QuietIsUnlocked(s: State)
    requires Inv(s) && FlagIsHeld(s) && IsQuiet(s) && s.completed != s.written
    requires s.completed + s.halves.Get(s.writing).content == s.written
    ensures s.locks.Get(s.writing) == Unlocked && !s.flag && s.halves.Get(s.writing).promised > 0
    ensures s.writing != s.sending
  {
    var lock := s.locks.Get(s.writing);
    assert !SomebodyCopies(s, s.writing);
    assert lock == Unlocked || LockAgrees(lock, s.threads[lock.holder], lock.holder, s.writing);
  }
}
