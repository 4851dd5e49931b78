/** A thread that runs alone finishes its `push` or `pop`: from any state the other threads may have
    left behind, after a number of accesses that is known in advance and at most 20. */
module MsqueProgress {
  import opened Wrappers
  import opened Msque
  import opened MsqueFifo

  function Lag(s: State): int
    requires s.end in s.rank
  {
    |s.order| - 1 - s.rank[s.end]
  }

  // Accesses left from the check at line 77 of msque.h when the hazard is current.
  function FromCheckEnd(lag: int): int { 7 + 5 * lag }

  function PushSteps(s: State, th: Thread): int
    requires th.Pushing? && s.end in s.rank
  {
    var current := th.hazard == s.end;
    var again := FromCheckEnd(Lag(s));
    match th.pc
    case LoadEnd => 1 + again
    case CheckEnd => if current then again else 2 + again
    case LoadNext => if current then again - 1 else 3 + again
    case RecheckEnd =>
      if !current then 2 + again
      else if th.next != NULL then 3 + FromCheckEnd(0)
      else if NextOf(s, th.hazard) == NULL then 5 else 3 + again
    case HelpEnd => if current then 2 + FromCheckEnd(0) else 2 + again
    case Link => if NextOf(s, th.hazard) == NULL then 4 else 2 + again
    case SwingEnd => 3
    case Release => 2
    case CountUp => 1
  }

  // Accesses left from the check at line 116 when the hazard is current.
  function FromCheckBegin(s: State): int {
    if NextOf(s, s.begin) == NULL then 5 else if s.begin != s.end then 10 else 16
  }

  function PopSteps(s: State, th: Thread): int
    requires th.Popping?
  {
    var current := th.first == s.begin;
    var again := FromCheckBegin(s);
    match th.qc
    case LoadBegin => 1 + again
    case CheckBegin => if current then again else 2 + again
    case SampleEnd => if current then again - 1 else 4 + again
    case LoadSecond =>
      if !current then 3 + again
      else if NextOf(s, s.begin) == NULL then 3
      else if th.end == th.first then 14 else 8
    case RecheckBegin => if !current then 2 + again else if th.end == th.first then 13 else 7
    case HelpEnd2 => if s.end == th.end then 12 else 2 + again
    case SwingBegin => if current then 6 else 1 + again
    case ReadData => 5
    case Retire => 4
    case CountDown => 3
    case ReleaseFirst => 2
    case ReleaseSecond => 1
  }

  /** How many accesses the thread still makes if nobody else moves and no compare-exchange fails
      without cause. */
  function StepsLeft(s: State, th: Thread): int
    requires s.end in s.rank
  {
    match th
    case Idle(_) => 0
    case Pushing(_, _, _, _, _) => PushSteps(s, th)
    case Popping(_, _, _, _, _) => PopSteps(s, th)
  }

  lemma PushStepCountsReading(s: State, th: Thread)
    requires Shape(s) && th.Pushing? && PushOk(s, th)
    requires th.pc == LoadEnd || th.pc == CheckEnd || th.pc == LoadNext || th.pc == RecheckEnd
    ensures var (e, th') := DecidePush(s, th, false);
      e.NoEffect? && StepsLeft(s, th') == StepsLeft(s, th) - 1
  {
    assert LinksOn(s, s.end);
  }

  lemma PushStepCountsHelping(s: State, th: Thread)
    requires Shape(s) && th.Pushing? && PushOk(s, th) && th.pc == HelpEnd
    ensures var (e, th') := DecidePush(s, th, false);
      StepsLeft(Perform(s, e), th') == StepsLeft(s, th) - 1
  {
    assert s.order[s.rank[th.hazard]] == th.hazard;
  }

  lemma PushStepCountsLinking(s: State, th: Thread)
    requires Shape(s) && th.Pushing? && PushOk(s, th) && th.pc == Link
    ensures var (e, th') := DecidePush(s, th, false);
      StepsLeft(Perform(s, e), th') == StepsLeft(s, th) - 1
  {
  }

  lemma PushStepCountsSwinging(s: State, th: Thread)
    requires Shape(s) && th.Pushing? && PushOk(s, th) && th.pc == SwingEnd
    ensures var (e, th') := DecidePush(s, th, false);
      Shape(Perform(s, e)) ==> StepsLeft(Perform(s, e), th') == StepsLeft(s, th) - 1
  {
  }

  lemma PushStepCounts(s: State, th: Thread)
    requires Shape(s) && th.Pushing? && PushOk(s, th)
    ensures var (e, th') := DecidePush(s, th, false);
      Shape(Perform(s, e)) && StepsLeft(Perform(s, e), th') == StepsLeft(s, th) - 1
  {
    PushDecides(s, th, false);
    PerformKeepsShape(s, th, DecidePush(s, th, false).0);
    match th.pc
    case LoadEnd | CheckEnd | LoadNext | RecheckEnd => PushStepCountsReading(s, th);
    case HelpEnd => PushStepCountsHelping(s, th);
    case Link => PushStepCountsLinking(s, th);
    case SwingEnd => PushStepCountsSwinging(s, th);
    case Release | CountUp =>
  }

  lemma PopStepCountsEarly(s: State, th: Thread)
    requires Shape(s) && th.Popping? && PopOk(s, th) && Early(th.qc)
    ensures var (e, th') := DecidePop(s, th, false);
      e.NoEffect? && StepsLeft(s, th') == StepsLeft(s, th) - 1
  {
    assert LinksOn(s, s.begin);
    if th.qc == LoadSecond { assert LinksOn(s, th.first) && s.order[s.rank[th.first]] == th.first; }
  }

  lemma PopStepCountsHelping(s: State, th: Thread)
    requires Shape(s) && th.Popping? && PopOk(s, th) && th.qc == HelpEnd2
    ensures var (e, th') := DecidePop(s, th, false);
      Shape(Perform(s, e)) && StepsLeft(Perform(s, e), th') == StepsLeft(s, th) - 1
  {
    var (e, th') := DecidePop(s, th, false);
    PopDecidesLate(s, th, false);
    PerformKeepsShape(s, th, e);
    assert LinksOn(s, s.begin) && s.order[s.rank[s.begin]] == s.begin;
    assert s.order[s.rank[th.first]] == th.first;
  }

  lemma PopStepCountsSwinging(s: State, th: Thread)
    requires Shape(s) && th.Popping? && PopOk(s, th) && th.qc == SwingBegin
    ensures var (e, th') := DecidePop(s, th, false);
      Shape(Perform(s, e)) && StepsLeft(Perform(s, e), th') == StepsLeft(s, th) - 1
  {
    assert Shape(Perform(s, DecidePop(s, th, false).0)) by {
      PopDecidesLate(s, th, false);
      PerformKeepsShape(s, th, DecidePop(s, th, false).0);
    }
  }

  lemma PopStepCountsCounting(s: State, th: Thread)
    requires Shape(s) && th.Popping? && PopOk(s, th) && (th.qc == Retire || th.qc == CountDown)
    ensures var (e, th') := DecidePop(s, th, false);
      Shape(Perform(s, e)) ==> StepsLeft(Perform(s, e), th') == StepsLeft(s, th) - 1
  {
  }

  lemma PopStepCountsLeaving(s: State, th: Thread)
    requires Shape(s) && th.Popping? && PopOk(s, th)
    requires th.qc == ReadData || th.qc == ReleaseFirst || th.qc == ReleaseSecond
    ensures var (e, th') := DecidePop(s, th, false);
      e.NoEffect? && StepsLeft(s, th') == StepsLeft(s, th) - 1
  {
  }

  lemma PopStepCountsLate(s: State, th: Thread)
    requires Shape(s) && th.Popping? && PopOk(s, th) && !Early(th.qc) && th.qc != HelpEnd2 && th.qc != SwingBegin
    ensures var (e, th') := DecidePop(s, th, false);
      Shape(Perform(s, e)) && StepsLeft(Perform(s, e), th') == StepsLeft(s, th) - 1
  {
    if th.qc == Retire || th.qc == CountDown {
      PopDecidesLate(s, th, false);
      PerformKeepsShape(s, th, DecidePop(s, th, false).0);
      PopStepCountsCounting(s, th);
    } else {
      PopStepCountsLeaving(s, th);
    }
  }

  lemma DecideCounts(s: State, th: Thread)
    requires Shape(s) && ThreadOk(s, th) && !th.Idle?
    ensures var (e, th') := Decide(s, th, false);
      Shape(Perform(s, e)) && StepsLeft(Perform(s, e), th') == StepsLeft(s, th) - 1
  {
    if th.Pushing? {
      PushStepCounts(s, th);
    } else if Early(th.qc) {
      PopStepCountsEarly(s, th);
    } else if th.qc == HelpEnd2 {
      PopStepCountsHelping(s, th);
    } else if th.qc == SwingBegin {
      PopStepCountsSwinging(s, th);
    } else {
      PopStepCountsLate(s, th);
    }
  }

  lemma SameMemorySameSteps(m: State, s: State, th: Thread)
    requires m.end in m.rank && s == m.(threads := s.threads)
    ensures StepsLeft(s, th) == StepsLeft(m, th)
  {
  }

  lemma StepsAreBounded(s: State, th: Thread)
    requires Shape(s)
    ensures 0 <= StepsLeft(s, th) <= 20
    ensures StepsLeft(s, th) == 0 <==> th.Idle?
  {
  }

  /** Each access of a thread running alone brings the end of its operation one access closer. */
  lemma StepCounts(s: State, t: nat)
    requires Inv(s) && t < |s.threads| && !s.threads[t].Idle?
    ensures var s' := StepThread(s, t, false);
      Inv(s') && StepsLeft(s', s'.threads[t]) == StepsLeft(s, s.threads[t]) - 1
  {
    var (e, th') := Decide(s, s.threads[t], false);
    StepKeepsInv(s, t, false);
    DecideCounts(s, s.threads[t]);
    SameMemorySameSteps(Perform(s, e), StepThread(s, t, false), th');
  }

  // What the queue holds and what the caller is told once thread `t` is done.
  ghost function Outcome(q: Fifo, t: nat): (seq<Value>, Option<Answer>)
    requires t < |q.phases|
  {
    match q.phases[t]
    case Resting(last) => (q.items, last)
    case WantsPush(v) => (q.items + [v], Some(Pushed))
    case WantsPop => if q.items == [] then ([], Some(WasEmpty)) else (q.items[1..], Some(Popped(q.items[0])))
    case Done(a) => (q.items, Some(a))
  }

  lemma MovesKeepsOutcome(q: Fifo, q': Fifo, t: nat)
    requires t < |q.phases| && Moves(q, q', t)
    ensures t < |q'.phases| && Outcome(q', t) == Outcome(q, t)
  {
  }

  /** Runs thread `t` alone until its operation returns.  The operation takes effect exactly once, on the
      queue as it was found, however far the others had come. */
  method RunAlone(start: State, t: nat) returns (s: State, steps: nat)
    requires Inv(start) && t < |start.threads|
    ensures Inv(s) && |s.threads| == |start.threads| && s.threads[t].Idle?
    ensures forall u | 0 <= u < |s.threads| && u != t :: s.threads[u] == start.threads[u]
    ensures steps == StepsLeft(start, start.threads[t]) <= 20
    ensures (Queued(s, s.begin), s.threads[t].last) == Outcome(Abs(start), t)
  {
    s, steps := start, 0;
    StepsAreBounded(s, s.threads[t]);
    while !s.threads[t].Idle?
      invariant Inv(s) && |s.threads| == |start.threads|
      invariant forall u | 0 <= u < |s.threads| && u != t :: s.threads[u] == start.threads[u]
      invariant steps + StepsLeft(s, s.threads[t]) == StepsLeft(start, start.threads[t])
      invariant Outcome(Abs(s), t) == Outcome(Abs(start), t)
      decreases StepsLeft(s, s.threads[t])
    {
      StepsAreBounded(s, s.threads[t]);
      StepCounts(s, t);
      StepRefines(s, t, false);
      MovesKeepsOutcome(Abs(s), Abs(StepThread(s, t, false)), t);
      s, steps := StepThread(s, t, false), steps + 1;
      StepsAreBounded(s, s.threads[t]);
    }
  }
}
