/** The step machine of `Msque` refines a queue whose operations are atomic.

    A push takes effect when its node is linked, a pop when it swings `_begin`, and a pop that
    finds nothing when it reads a null `_next`; every other step is invisible. */
module MsqueFifo {
  import opened Wrappers
  import opened Msque

  // ---------------------------------------------------------------- the atomic queue

  datatype Phase =
    | Resting(last: Option<Answer>)
    | WantsPush(value: Value)
    | WantsPop
    | Done(answer: Answer)

  datatype Fifo = Fifo(items: seq<Value>, phases: seq<Phase>)

  ghost predicate BeginsAs(q: Fifo, q': Fifo, t: nat, p: Phase) {
    t < |q.phases| && q.phases[t].Resting? && q' == q.(phases := q.phases[t := p])
  }

  ghost predicate Begins(q: Fifo, q': Fifo, t: nat) {
    BeginsAs(q, q', t, WantsPop) || exists v :: BeginsAs(q, q', t, WantsPush(v))
  }

  /** The instant at which the operation of thread `t` happens. */
  ghost predicate Happens(q: Fifo, q': Fifo, t: nat) {
    && t < |q.phases|
    && match q.phases[t]
       case WantsPush(v) => q' == Fifo(q.items + [v], q.phases[t := Done(Pushed)])
       case WantsPop =>
         if q.items == [] then q' == q.(phases := q.phases[t := Done(WasEmpty)])
         else q' == Fifo(q.items[1..], q.phases[t := Done(Popped(q.items[0]))])
       case _ => false
  }

  ghost predicate Returns(q: Fifo, q': Fifo, t: nat) {
    && t < |q.phases| && q.phases[t].Done?
    && q' == q.(phases := q.phases[t := Resting(Some(q.phases[t].answer))])
  }

  /** Thread `t` lets its operation happen, returns, or does nothing visible. */
  ghost predicate Moves(q: Fifo, q': Fifo, t: nat) {
    q' == q || Happens(q, q', t) || Returns(q, q', t)
  }

  ghost predicate FifoNext(q: Fifo, q': Fifo) {
    q' == q || exists t :: Begins(q, q', t) || Happens(q, q', t) || Returns(q, q', t)
  }

  /** What an action of the machine does to the atomic queue: a call begins the operation it asks for, with the value
      it is given; an access of a thread is a move of that thread; a reclaimer does nothing. */
  ghost predicate Does(q: Fifo, q': Fifo, a: Action) {
    match a
    case StartPush(t, v, _) => BeginsAs(q, q', t, WantsPush(v))
    case StartPop(t) => BeginsAs(q, q', t, WantsPop)
    case Advance(t, _) => Moves(q, q', t)
    case _ => q' == q
  }

  lemma DoesIsNext(q: Fifo, q': Fifo, a: Action)
    requires Does(q, q', a)
    ensures FifoNext(q, q')
  {
    match a
    case StartPush(t, v, _) => assert Begins(q, q', t);
    case StartPop(t) => assert Begins(q, q', t);
    case _ =>
  }

  // ---------------------------------------------------------------- abstraction

  /** The values met on the way from `n` along `_next` until it is null. */
  ghost function Queued(s: State, n: Node): seq<Value>
    requires Shape(s) && n in s.rank
    decreases |s.order| - s.rank[n]
  {
    if s.cells[n].next == NULL then []
    else
      assert LinksOn(s, n);
      [s.cells[s.cells[n].next].data] + Queued(s, s.cells[n].next)
  }

  ghost function PhaseOf(s: State, th: Thread): Phase {
    match th
    case Idle(last) => Resting(last)
    case Pushing(pc, v, _, _, _) => if BeforeLink(pc) then WantsPush(v) else Done(Pushed)
    case Popping(qc, _, g, _, answer) =>
      if Early(qc) || qc == HelpEnd2 || qc == SwingBegin then WantsPop
      else if qc == ReadData then (if g in s.cells then Done(Popped(s.cells[g].data)) else WantsPop)
      else Done(answer)
  }

  ghost function Phases(s: State): seq<Phase> {
    seq(|s.threads|, t requires 0 <= t < |s.threads| => PhaseOf(s, s.threads[t]))
  }

  ghost function Abs(s: State): Fifo
    requires Shape(s)
  {
    Fifo(Queued(s, s.begin), Phases(s))
  }

  // ---------------------------------------------------------------- what effects do to the queue

  lemma {:induction false} QueuedSame(s: State, s': State, n: Node)
    requires Shape(s) && Shape(s') && n in s.rank && s'.rank == s.rank && s'.order == s.order
    requires forall m | m in s.rank :: s'.cells[m] == s.cells[m]
    ensures Queued(s', n) == Queued(s, n)
    decreases |s.order| - s.rank[n]
  {
    if s.cells[n].next != NULL {
      assert LinksOn(s, n);
      QueuedSame(s, s', s.cells[n].next);
    }
  }

  lemma {:induction false} QueuedAppends(s: State, at: Node, node: Node, n: Node)
    requires Shape(s) && at == s.end && s.rank[at] + 1 == |s.order| && n in s.rank
    requires node in s.cells && node !in s.rank && s.cells[node].next == NULL
    ensures var s' := Perform(s, LinkNode(at, node));
      Shape(s') && Queued(s', n) == Queued(s, n) + [s.cells[node].data]
    decreases |s.order| - s.rank[n]
  {
    var s' := Perform(s, LinkNode(at, node));
    LinkKeepsShape(s, at, node);
    assert LinksOn(s, n) && LinksOn(s', n);
    if n == at {
      assert s'.cells[n].next == node && Queued(s', node) == [];
    } else {
      assert s.order[s.rank[n]] == n && s.order[s.rank[at]] == at;
      QueuedAppends(s, at, node, s.cells[n].next);
    }
  }

  lemma QueuedDrops(s: State, to: Node)
    requires Shape(s) && Follows(s, s.begin, to)
    ensures s.cells[s.begin].next == to && Queued(s, s.begin) == [s.cells[to].data] + Queued(s, to)
  {
    assert LinksOn(s, s.begin);
    assert s.order[s.rank[to]] == to && s.order[s.rank[s.cells[s.begin].next]] == s.cells[s.begin].next;
  }

  // The contents after an effect, from the contents before it.
  lemma EffectOnItems(s: State, th: Thread, e: Effect)
    requires Shape(s) && EffectOk(s, th, e)
    ensures Shape(Perform(s, e))
    ensures var before, after := Queued(s, s.begin), Queued(Perform(s, e), Perform(s, e).begin);
      match e
      case LinkNode(_, node) => after == before + [s.cells[node].data]
      case MoveBegin(to) => before == [s.cells[to].data] + after
      case _ => after == before
  {
    var s' := Perform(s, e);
    PerformKeepsShape(s, th, e);
    match e
    case LinkNode(at, node) => QueuedAppends(s, at, node, s.begin);
    case MoveBegin(to) => QueuedDrops(s, to); QueuedSame(s, s', to);
    case _ => QueuedSame(s, s', s.begin);
  }

  // A pop that reads a null `_next` stands at the last node, and so does `_begin`.
  lemma NullSecondMeansEmpty(s: State, th: Thread)
    requires Shape(s) && ThreadOk(s, th) && th.Popping? && th.qc == LoadSecond && NextOf(s, th.first) == NULL
    ensures Queued(s, s.begin) == []
  {
    assert LinksOn(s, th.first) && LinksOn(s, s.begin);
    assert s.order[s.rank[th.first]] == th.first && s.order[s.rank[s.begin]] == s.begin;
  }

  // ---------------------------------------------------------------- simulation

  // How the phase of the stepping thread follows from what it did.
  ghost predicate PhaseStep(s: State, e: Effect, p: Phase, p': Phase, items: seq<Value>)
  {
    match e
    case LinkNode(_, node) => node in s.cells && p == WantsPush(s.cells[node].data) && p' == Done(Pushed)
    case MoveBegin(to) => to in s.cells && p == WantsPop && p' == Done(Popped(s.cells[to].data))
    case _ => p' == p || (p == WantsPop && items == [] && p' == Done(WasEmpty))
              || (p.Done? && p' == Resting(Some(p.answer)))
  }

  lemma PushPhase(s: State, th: Thread, weak: bool)
    requires Shape(s) && th.Pushing? && PushOk(s, th)
    ensures var (e, th') := DecidePush(s, th, weak);
      PhaseStep(s, e, PhaseOf(s, th), PhaseOf(Perform(s, e), th'), Queued(s, s.begin))
  {
  }

  lemma PopPhaseEarly(s: State, th: Thread, weak: bool)
    requires Shape(s) && th.Popping? && PopOk(s, th) && Early(th.qc)
    ensures var (e, th') := DecidePop(s, th, weak);
      PhaseStep(s, e, PhaseOf(s, th), PhaseOf(Perform(s, e), th'), Queued(s, s.begin))
  {
    if th.qc == LoadSecond {
      if NextOf(s, th.first) == NULL { NullSecondMeansEmpty(s, th); }
    }
  }

  lemma PopPhaseSwinging(s: State, th: Thread, weak: bool)
    requires Shape(s) && th.Popping? && PopOk(s, th) && (th.qc == HelpEnd2 || th.qc == SwingBegin)
    ensures var (e, th') := DecidePop(s, th, weak);
      PhaseStep(s, e, PhaseOf(s, th), PhaseOf(Perform(s, e), th'), Queued(s, s.begin))
  {
  }

  lemma PopPhaseLate(s: State, th: Thread, weak: bool)
    requires Shape(s) && th.Popping? && PopOk(s, th) && !Early(th.qc)
    ensures var (e, th') := DecidePop(s, th, weak);
      PhaseStep(s, e, PhaseOf(s, th), PhaseOf(Perform(s, e), th'), Queued(s, s.begin))
  {
    if th.qc == HelpEnd2 || th.qc == SwingBegin { PopPhaseSwinging(s, th, weak); }
  }

  lemma OtherPhase(s: State, s': State, th: Thread)
    requires Shape(s) && Shape(s') && Grows(s, s') && ThreadOk(s, th)
    ensures PhaseOf(s', th) == PhaseOf(s, th)
  {
  }

  // Only the stepping thread changes phase.
  lemma InstallPhases(s: State, s': State, t: nat, th': Thread)
    requires Shape(s) && AllOk(s) && Shape(s') && Grows(s, s') && t < |s.threads|
    requires s'.threads == s.threads[t := th']
    ensures Phases(s') == Phases(s)[t := PhaseOf(s', th')]
  {
    forall u | 0 <= u < |s.threads| && u != t
      ensures PhaseOf(s', s.threads[u]) == PhaseOf(s, s.threads[u])
    {
      OtherPhase(s, s', s.threads[u]);
    }
  }

  lemma EffectRefines(q: Fifo, q': Fifo, s: State, t: nat, e: Effect, p': Phase)
    requires t < |q.phases| && q'.phases == q.phases[t := p']
    requires PhaseStep(s, e, q.phases[t], p', q.items)
    requires match e
      case LinkNode(_, node) => q'.items == q.items + [s.cells[node].data]
      case MoveBegin(to) => q.items == [s.cells[to].data] + q'.items
      case _ => q'.items == q.items
    ensures Moves(q, q', t)
  {
    if e.MoveBegin? {
      assert q.items[1..] == q'.items;
      assert Happens(q, q', t);
    } else if e.LinkNode? {
      assert Happens(q, q', t);
    } else if p' == q.phases[t] {
      assert q'.phases == q.phases;
    } else {
      assert Happens(q, q', t) || Returns(q, q', t);
    }
  }

  lemma InstallRefines(s: State, t: nat, e: Effect, th': Thread)
    requires Inv(s) && t < |s.threads| && EffectOk(s, s.threads[t], e)
    requires Shape(Install(s, t, e, th')) && Grows(s, Install(s, t, e, th'))
    requires PhaseStep(s, e, PhaseOf(s, s.threads[t]), PhaseOf(Perform(s, e), th'), Queued(s, s.begin))
    ensures Moves(Abs(s), Abs(Install(s, t, e, th')), t)
  {
    var m, s' := Perform(s, e), Install(s, t, e, th');
    EffectOnItems(s, s.threads[t], e);
    QueuedSame(m, s', m.begin);
    InstallPhases(s, s', t, th');
    assert PhaseOf(s', th') == PhaseOf(m, th') && Abs(s').phases == Abs(s).phases[t := PhaseOf(m, th')];
    EffectRefines(Abs(s), Abs(s'), s, t, e, PhaseOf(m, th'));
  }

  lemma StepRefines(s: State, t: nat, weak: bool)
    requires Inv(s) && t < |s.threads|
    ensures Shape(StepThread(s, t, weak)) && Moves(Abs(s), Abs(StepThread(s, t, weak)), t)
  {
    var th := s.threads[t];
    var (e, th') := Decide(s, th, weak);
    StepKeepsThreads(s, t, weak);
    Decides(s, th, weak);
    assert ThreadOk(s, th);
    if th.Pushing? { PushPhase(s, th, weak); }
    if th.Popping? {
      if Early(th.qc) { PopPhaseEarly(s, th, weak); } else { PopPhaseLate(s, th, weak); }
    }
    InstallRefines(s, t, e, th');
  }

  lemma StartRefines(s: State, t: nat, s': State, th': Thread)
    requires Inv(s) && Starts(s, t, s', th') && Shape(s') && Grows(s, s')
    ensures BeginsAs(Abs(s), Abs(s'), t, PhaseOf(s', th'))
  {
    var q, q' := Abs(s), Abs(s');
    QueuedSame(s, s', s.begin);
    forall u | 0 <= u < |s.threads| && u != t
      ensures PhaseOf(s', s.threads[u]) == PhaseOf(s, s.threads[u])
    {
      OtherPhase(s, s', s.threads[u]);
    }
    assert q'.phases == q.phases[t := PhaseOf(s', th')];
  }

  lemma ReclaimersInvisible(s: State, s': State)
    requires Shape(s) && Shape(s') && s' == s.(scans := s'.scans, freed := s'.freed)
    ensures Abs(s') == Abs(s)
  {
    QueuedSame(s, s', s.begin);
    forall th
      ensures PhaseOf(s', th) == PhaseOf(s, th)
    {
    }
  }

  lemma StartDoes(s: State, a: Action)
    requires Inv(s) && Enabled(s, a) && (a.StartPush? || a.StartPop?) && Inv(Apply(s, a))
    ensures Does(Abs(s), Abs(Apply(s, a)), a)
  {
    StartRefines(s, a.t, Apply(s, a), Apply(s, a).threads[a.t]);
  }

  /** Every action of the machine is one step of the atomic queue, the one it stands for, or no step at all. */
  lemma ApplyRefines(s: State, a: Action)
    requires Inv(s) && Enabled(s, a)
    ensures Inv(Apply(s, a)) && Does(Abs(s), Abs(Apply(s, a)), a)
  {
    ApplyKeepsInv(s, a);
    match a
    case StartPush(_, _, _) | StartPop(_) => StartDoes(s, a);
    case Advance(t, weak) => StepRefines(s, t, weak);
    case _ => ReclaimersInvisible(s, Apply(s, a));
  }

  /** Seen through `Abs`, every run of any number of threads is a run of the atomic queue. */
  lemma RunsRefine(run: seq<State>, actions: seq<Action>, i: nat)
    requires IsRun(run, actions) && i < |actions|
    ensures Inv(run[0]) && Inv(run[i]) && Inv(run[i + 1])
    ensures Abs(run[0]).items == []
    ensures Does(Abs(run[i]), Abs(run[i + 1]), actions[i]) && FifoNext(Abs(run[i]), Abs(run[i + 1]))
  {
    RunsKeepInv(run, actions, 0);
    RunsKeepInv(run, actions, i);
    ApplyRefines(run[i], actions[i]);
    DoesIsNext(Abs(run[i]), Abs(run[i + 1]), actions[i]);
  }

  // ---------------------------------------------------------------- the counter

  /** The length by ranks is the number of values met along `_next`. */
  lemma {:induction false} QueuedLength(s: State, n: Node)
    requires Shape(s) && n in s.rank
    ensures |Queued(s, n)| == |s.order| - 1 - s.rank[n]
    decreases |s.order| - s.rank[n]
  {
    assert LinksOn(s, n);
    if s.cells[n].next != NULL { QueuedLength(s, s.cells[n].next); }
  }

  /** When no operation is in progress the counter is the number of values in the list, modulo 2^32. */
  lemma QuiescentCountsQueued(s: State)
    requires Inv(s) && forall t | 0 <= t < |s.threads| :: s.threads[t].Idle?
    ensures s.size == |Queued(s, s.begin)| % WORD
  {
    QueuedLength(s, s.begin);
    QuiescentIsExact(s);
  }

  // ---------------------------------------------------------------- order and exactly once

  // The value of a push of thread `t` that happens in this step, or of a pop: what its answer carries.
  function PushedBy(q: Fifo, q': Fifo, t: nat): seq<Value> {
    if t < |q.phases| && t < |q'.phases| && q.phases[t].WantsPush? && q'.phases[t] == Done(Pushed)
    then [q.phases[t].value] else []
  }

  function PoppedBy(q: Fifo, q': Fifo, t: nat): seq<Value> {
    if t < |q.phases| && t < |q'.phases| && q.phases[t].WantsPop? && q'.phases[t].Done?
       && q'.phases[t].answer.Popped?
    then [q'.phases[t].answer.value] else []
  }

  // By any of the first n threads.
  function PushedByFirst(q: Fifo, q': Fifo, n: nat): seq<Value> {
    if n == 0 then [] else PushedByFirst(q, q', n - 1) + PushedBy(q, q', n - 1)
  }

  function PoppedByFirst(q: Fifo, q': Fifo, n: nat): seq<Value> {
    if n == 0 then [] else PoppedByFirst(q, q', n - 1) + PoppedBy(q, q', n - 1)
  }

  // The values pushed and popped in one step of the atomic queue.
  function Entered(q: Fifo, q': Fifo): seq<Value> { PushedByFirst(q, q', |q.phases|) }

  function Left(q: Fifo, q': Fifo): seq<Value> { PoppedByFirst(q, q', |q.phases|) }

  // A thread whose phase stays pushes and pops nothing.
  lemma {:induction false} OneThreadMoves(q: Fifo, q': Fifo, t: nat, n: nat)
    requires |q'.phases| == |q.phases| && n <= |q.phases|
    requires forall u | 0 <= u < n && u != t :: q'.phases[u] == q.phases[u]
    ensures PushedByFirst(q, q', n) == (if t < n then PushedBy(q, q', t) else [])
    ensures PoppedByFirst(q, q', n) == (if t < n then PoppedBy(q, q', t) else [])
  {
    if n > 0 { OneThreadMoves(q, q', t, n - 1); }
  }

  function AllEntered(h: seq<Fifo>): seq<Value> {
    if |h| < 2 then [] else AllEntered(h[..|h| - 1]) + Entered(h[|h| - 2], h[|h| - 1])
  }

  function AllLeft(h: seq<Fifo>): seq<Value> {
    if |h| < 2 then [] else AllLeft(h[..|h| - 1]) + Left(h[|h| - 2], h[|h| - 1])
  }

  lemma StepConserves(q: Fifo, q': Fifo)
    requires FifoNext(q, q')
    ensures Left(q, q') + q'.items == q.items + Entered(q, q')
  {
    if q' == q {
      OneThreadMoves(q, q', |q.phases|, |q.phases|);
    } else {
      var t: nat :| Begins(q, q', t) || Happens(q, q', t) || Returns(q, q', t);
      OneThreadMoves(q, q', t, |q.phases|);
      StepConservesBy(q, q', t);
    }
  }

  lemma StepConservesBy(q: Fifo, q': Fifo, t: nat)
    requires Begins(q, q', t) || Happens(q, q', t) || Returns(q, q', t)
    ensures PoppedBy(q, q', t) + q'.items == q.items + PushedBy(q, q', t)
  {
    if Happens(q, q', t) && q.phases[t].WantsPop? && q.items != [] {
      assert q.items == [q.items[0]] + q.items[1..];
    }
  }

  lemma Chain(left: seq<Value>, items: seq<Value>, start: seq<Value>, entered: seq<Value>,
              l: seq<Value>, items': seq<Value>, e: seq<Value>)
    requires left + items == start + entered && l + items' == items + e
    ensures (left + l) + items' == start + (entered + e)
  {
    calc {
      (left + l) + items';
      left + (l + items');
      left + (items + e);
      (left + items) + e;
      (start + entered) + e;
      start + (entered + e);
    }
  }

  /** In every history of the atomic queue the values the pops answered, in the order in which they happened,
      followed by what is still inside, are what was inside at first followed by the values pushed: first in,
      first out, each value exactly once. */
  lemma {:induction false} FifoConserves(h: seq<Fifo>)
    requires h != [] && forall i | 0 < i < |h| :: FifoNext(h[i - 1], h[i])
    ensures AllLeft(h) + h[|h| - 1].items == h[0].items + AllEntered(h)
  {
    if |h| > 1 {
      var p, q, q' := h[..|h| - 1], h[|h| - 2], h[|h| - 1];
      assert p[|p| - 1] == q;
      FifoConserves(p);
      StepConserves(q, q');
      Chain(AllLeft(p), q.items, h[0].items, AllEntered(p), Left(q, q'), q'.items, Entered(q, q'));
    }
  }

  ghost function AbsRun(run: seq<State>): seq<Fifo>
    requires forall i | 0 <= i < |run| :: Shape(run[i])
  {
    seq(|run|, i requires 0 <= i < |run| => Abs(run[i]))
  }

  /** Over any run of the concurrent queue the values that pops have answered so far are, in order, a prefix of
      the values pushed so far, and the rest is what the list holds. */
  lemma PoppedIsPrefixOfPushed(run: seq<State>, actions: seq<Action>)
    requires IsRun(run, actions)
    ensures forall i | 0 <= i < |run| :: Shape(run[i])
    ensures var h := AbsRun(run);
      AllLeft(h) + Queued(run[|run| - 1], run[|run| - 1].begin) == AllEntered(h)
  {
    forall i | 0 <= i < |run|
      ensures Shape(run[i])
    {
      RunsKeepInv(run, actions, i);
    }
    var h := AbsRun(run);
    forall i | 0 < i < |h|
      ensures FifoNext(h[i - 1], h[i])
    {
      RunsRefine(run, actions, i - 1);
    }
    FifoConserves(h);
    assert h[0].items == [];
    assert [] + AllEntered(h) == AllEntered(h);
  }
}
