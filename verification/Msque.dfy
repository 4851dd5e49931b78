/** The lock-free queue of container/msque.h as a step machine.

    Any number of threads run `push` and `pop`; every step performs at most one
    access to shared memory.  What a thread does with the value it read is decided
    by `Decide`, what it does to shared memory is the `Effect` it returns.
    Node addresses are never handed out twice, and `__list` is fixed (no `clear`). */
module Msque {
  import opened Wrappers
  import opened Tallies

  type Value(0, ==, !new)
  type Node = int          // an address; 0 is the null pointer

  const NULL: Node := 0
  const WORD := 0x1_0000_0000

  datatype Cell = Cell(data: Value, next: Node)

  datatype Answer = Pushed | Popped(value: Value) | WasEmpty

  // Each program counter names the access that comes next; the line is the one in msque.h.
  datatype PushPc =
    | LoadEnd       // 75, 78, 85, 91, 99: hazard = _end
    | CheckEnd      // 77
    | LoadNext      // 82
    | RecheckEnd    // 84
    | HelpEnd       // 90
    | Link          // 95
    | SwingEnd      // 102
    | Release       // 104
    | CountUp       // 106

  datatype PopPc =
    | LoadBegin     // 114, 117, 130, 136: hazard = _begin
    | CheckBegin    // 116
    | SampleEnd     // 121
    | LoadSecond    // 122
    | RecheckBegin  // 129
    | HelpEnd2      // 135
    | SwingBegin    // 140
    | ReadData      // 144
    | Retire        // 145
    | CountDown     // 147
    | ReleaseFirst  // 150
    | ReleaseSecond // 151

  // `hazard`, `first` and `second` are the published hazard slots; `next` and `end` are plain locals.
  datatype Thread =
    | Idle(last: Option<Answer>)
    | Pushing(pc: PushPc, value: Value, node: Node, hazard: Node, next: Node)
    | Popping(qc: PopPc, first: Node, second: Node, end: Node, answer: Answer)

  // A reclaimer that holds a list of retired nodes and walks all hazard slots.
  datatype Scan =
    | NoScan
    | Scanning(candidates: set<Node>, visited: set<(nat, bool)>, collected: set<Node>)

  // `order` and `rank` are bookkeeping that no thread reads: the nodes in the order in which they
  // were linked, and where in that order a node is.
  datatype State = State(
    cells: map<Node, Cell>, begin: Node, end: Node, size: nat,
    retired: seq<Node>, freed: set<Node>, scans: seq<Scan>,
    threads: seq<Thread>, order: seq<Node>, rank: map<Node, int>)

  // ---------------------------------------------------------------- steps

  datatype Effect =
    | NoEffect
    | LinkNode(at: Node, node: Node)
    | MoveEnd(to: Node)
    | MoveBegin(to: Node)
    | RetireNode(node: Node)
    | AddSize(delta: int)

  function NextOf(s: State, n: Node): Node {
    if n in s.cells then s.cells[n].next else NULL
  }

  /** One step of `push`.  `weak` makes a weak compare-exchange fail although it could
      succeed.  A failing compare-exchange on `_end` stores what it saw in the hazard slot. */
  function DecidePush(s: State, th: Thread, weak: bool): (Effect, Thread)
    requires th.Pushing?
  {
    match th.pc
    case LoadEnd => (NoEffect, th.(hazard := s.end, pc := CheckEnd))
    case CheckEnd => (NoEffect, th.(pc := if th.hazard != s.end then LoadEnd else LoadNext))
    case LoadNext => (NoEffect, th.(next := NextOf(s, th.hazard), pc := RecheckEnd))
    case RecheckEnd =>
      (NoEffect, th.(pc := if th.hazard != s.end then LoadEnd else if th.next != NULL then HelpEnd else Link))
    case HelpEnd =>
      if s.end == th.hazard && !weak then (MoveEnd(th.next), th.(pc := LoadEnd))
      else (NoEffect, th.(hazard := s.end, pc := LoadEnd))
    case Link =>
      if NextOf(s, th.hazard) == NULL && !weak then (LinkNode(th.hazard, th.node), th.(pc := SwingEnd))
      else (NoEffect, th.(pc := LoadEnd))
    case SwingEnd =>
      if s.end == th.hazard && !weak then (MoveEnd(th.node), th.(pc := Release))
      else (NoEffect, th.(hazard := s.end, pc := Release))
    case Release => (NoEffect, th.(hazard := NULL, pc := CountUp))
    case CountUp => (AddSize(1), Idle(Some(Pushed)))
  }

  /** One step of `pop`; the compare-exchange on `_begin` is the strong one. */
  function DecidePop(s: State, th: Thread, weak: bool): (Effect, Thread)
    requires th.Popping?
  {
    match th.qc
    case LoadBegin => (NoEffect, th.(first := s.begin, qc := CheckBegin))
    case CheckBegin => (NoEffect, th.(qc := if th.first != s.begin then LoadBegin else SampleEnd))
    case SampleEnd => (NoEffect, th.(end := s.end, qc := LoadSecond))
    case LoadSecond =>
      var next := NextOf(s, th.first);
      if next == NULL then (NoEffect, th.(second := next, answer := WasEmpty, qc := ReleaseFirst))
      else (NoEffect, th.(second := next, qc := RecheckBegin))
    case RecheckBegin =>
      (NoEffect, th.(qc := if th.first != s.begin then LoadBegin
                           else if th.end == th.first then HelpEnd2 else SwingBegin))
    case HelpEnd2 =>
      if s.end == th.end && !weak then (MoveEnd(th.second), th.(qc := LoadBegin))
      else (NoEffect, th.(end := s.end, qc := LoadBegin))
    case SwingBegin =>
      if s.begin == th.first then (MoveBegin(th.second), th.(qc := ReadData))
      else (NoEffect, th.(first := s.begin, qc := CheckBegin))
    case ReadData =>
      (NoEffect, if th.second in s.cells then th.(answer := Popped(s.cells[th.second].data), qc := Retire)
                 else th.(qc := Retire))
    case Retire => (RetireNode(th.first), th.(qc := CountDown))
    case CountDown => (AddSize(-1), th.(qc := ReleaseFirst))
    case ReleaseFirst => (NoEffect, th.(first := NULL, qc := ReleaseSecond))
    case ReleaseSecond => (NoEffect, Idle(Some(th.answer)))
  }

  function Decide(s: State, th: Thread, weak: bool): (Effect, Thread) {
    match th
    case Idle(_) => (NoEffect, th)
    case Pushing(_, _, _, _, _) => DecidePush(s, th, weak)
    case Popping(_, _, _, _, _) => DecidePop(s, th, weak)
  }

  function Perform(s: State, e: Effect): State {
    match e
    case NoEffect => s
    case LinkNode(at, node) =>
      if at in s.cells then
        s.(cells := s.cells[at := s.cells[at].(next := node)],
           order := s.order + [node], rank := s.rank[node := |s.order|])
      else s
    case MoveEnd(to) => s.(end := to)
    case MoveBegin(to) => s.(begin := to)
    case RetireNode(n) => s.(retired := s.retired + [n])
    case AddSize(d) => s.(size := (s.size + d) % WORD)
  }

  function Slot(th: Thread, second: bool): Node {
    match th
    case Idle(_) => NULL
    case Pushing(_, _, _, h, _) => if second then NULL else h
    case Popping(_, f, g, _, _) => if second then g else f
  }

  datatype Action =
    | StartPush(t: nat, value: Value, node: Node)
    | StartPop(t: nat)
    | Advance(t: nat, weak: bool)
    | StartScan(k: nat, candidates: set<Node>)
    | Collect(k: nat, t: nat, second: bool)
    | Reclaim(k: nat, node: Node)
    | EndScan(k: nat)

  ghost predicate Enabled(s: State, a: Action) {
    match a
    case StartPush(t, _, node) => t < |s.threads| && s.threads[t].Idle? && node != NULL && node !in s.cells
    case StartPop(t) => t < |s.threads| && s.threads[t].Idle?
    case Advance(t, _) => t < |s.threads| && !s.threads[t].Idle?
    case StartScan(k, candidates) =>
      && k < |s.scans| && s.scans[k].NoScan?
      && (forall n | n in candidates :: n in s.retired && n !in s.freed)
      && (forall j | 0 <= j < |s.scans| && s.scans[j].Scanning? :: candidates !! s.scans[j].candidates)
    case Collect(k, t, _) => k < |s.scans| && s.scans[k].Scanning? && t < |s.threads|
    case Reclaim(k, node) =>
      && k < |s.scans| && s.scans[k].Scanning? && node in s.scans[k].candidates && node !in s.scans[k].collected
      && (forall t, b :: 0 <= t < |s.threads| ==> (t, b) in s.scans[k].visited)
    case EndScan(k) => k < |s.scans| && s.scans[k].Scanning?
  }

  function StepThread(s: State, t: nat, weak: bool): State
    requires t < |s.threads|
  {
    var (e, th) := Decide(s, s.threads[t], weak);
    Perform(s, e).(threads := s.threads[t := th])
  }

  ghost function Apply(s: State, a: Action): State
    requires Enabled(s, a)
  {
    match a
    case StartPush(t, v, node) =>
      s.(cells := s.cells[node := Cell(v, NULL)],
         threads := s.threads[t := Pushing(LoadEnd, v, node, NULL, NULL)])
    case StartPop(t) => s.(threads := s.threads[t := Popping(LoadBegin, NULL, NULL, NULL, WasEmpty)])
    case Advance(t, weak) => StepThread(s, t, weak)
    case StartScan(k, c) => s.(scans := s.scans[k := Scanning(c, {}, {})])
    case Collect(k, t, b) =>
      var sc := s.scans[k];
      s.(scans := s.scans[k := sc.(visited := sc.visited + {(t, b)},
                                   collected := sc.collected + {Slot(s.threads[t], b)})])
    case Reclaim(k, n) =>
      var sc := s.scans[k];
      s.(freed := s.freed + {n}, scans := s.scans[k := sc.(candidates := sc.candidates - {n})])
    case EndScan(k) => s.(scans := s.scans[k := NoScan])
  }

  /** What `get_list` leaves behind: one dummy node that is both first and last. */
  ghost predicate Init(s: State) {
    && s.begin != NULL && s.end == s.begin && s.cells.Keys == {s.begin} && s.cells[s.begin].next == NULL
    && s.size == 0 && s.retired == [] && s.freed == {}
    && (forall t | 0 <= t < |s.threads| :: s.threads[t] == Idle(None))
    && (forall k | 0 <= k < |s.scans| :: s.scans[k] == NoScan)
    && s.rank == map[s.begin := 0] && s.order == [s.begin]
  }

  // ---------------------------------------------------------------- invariant

  /** The linked nodes form one list: ranks are unique, so it is acyclic; `_next` leads from each
      rank to the one after it and is null at the end; `_begin` is not past `_end`, and `_end` is
      the last node or its predecessor. */
  ghost predicate Shape(s: State) {
    && NULL !in s.cells
    && s.begin in s.rank && s.end in s.rank
    && s.rank[s.begin] <= s.rank[s.end] < |s.order| <= s.rank[s.end] + 2
    && (forall n | n in s.rank :: n in s.cells && 0 <= s.rank[n] < |s.order| && s.order[s.rank[n]] == n)
    && (forall n {:trigger s.cells[n]} | n in s.rank && n in s.cells :: LinksOn(s, n))
  }

  ghost predicate LinksOn(s: State, n: Node)
    requires n in s.rank && n in s.cells
  {
    if s.rank[n] + 1 == |s.order| then s.cells[n].next == NULL else Follows(s, n, s.cells[n].next)
  }

  predicate BeforeLink(pc: PushPc) {
    pc == LoadEnd || pc == CheckEnd || pc == LoadNext || pc == RecheckEnd || pc == HelpEnd || pc == Link
  }

  ghost predicate Follows(s: State, a: Node, b: Node) {
    a in s.rank && b in s.rank && s.rank[b] == s.rank[a] + 1
  }

  ghost predicate PushOk(s: State, th: Thread)
    requires th.Pushing? && Shape(s)
  {
    && th.node in s.cells && s.cells[th.node].data == th.value
    && (BeforeLink(th.pc) ==> th.node !in s.rank && s.cells[th.node].next == NULL)
    && (th.pc != LoadEnd && th.pc != Release && th.pc != CountUp
        ==> th.hazard in s.rank && s.rank[th.hazard] <= s.rank[s.end])
    && (th.pc == RecheckEnd ==> th.next == NULL || Follows(s, th.hazard, th.next))
    && (th.pc == HelpEnd ==> Follows(s, th.hazard, th.next))
    && (th.pc == SwingEnd ==> Follows(s, th.hazard, th.node))
  }

  // Where the locals of `pop` are known to name linked nodes.
  predicate HasFirst(qc: PopPc) {
    !(qc == LoadBegin || qc == CountDown || qc == ReleaseFirst || qc == ReleaseSecond)
  }

  predicate HasEnd(qc: PopPc) {
    qc == LoadSecond || qc == RecheckBegin || qc == HelpEnd2 || qc == SwingBegin
  }

  predicate HasSecond(qc: PopPc) {
    qc == RecheckBegin || qc == HelpEnd2 || qc == SwingBegin || qc == ReadData
  }

  ghost predicate PopOk(s: State, th: Thread)
    requires th.Popping? && Shape(s)
  {
    var qc := th.qc;
    && (HasFirst(qc) ==> th.first in s.rank && s.rank[th.first] <= s.rank[s.begin])
    && (HasEnd(qc) ==> th.end in s.rank && s.rank[th.first] <= s.rank[th.end] <= s.rank[s.end])
    && (HasSecond(qc) ==> Follows(s, th.first, th.second))
    && (qc == HelpEnd2 ==> th.end == th.first)
    && (qc == SwingBegin ==> th.end != th.first)
    && (qc == ReadData || qc == Retire ==> s.rank[th.first] < s.rank[s.begin])
    && (qc == Retire || qc == CountDown ==> th.answer.Popped?)
    && (qc == ReleaseFirst || qc == ReleaseSecond ==> !th.answer.Pushed?)
  }

  ghost predicate ThreadOk(s: State, th: Thread)
    requires Shape(s)
  {
    (th.Pushing? ==> PushOk(s, th)) && (th.Popping? ==> PopOk(s, th))
  }

  // The node a pusher has allocated and not yet linked.
  function Private(th: Thread): Node {
    if th.Pushing? && BeforeLink(th.pc) then th.node else NULL
  }

  // The node a popper has unlinked and not yet retired.
  function Holds(th: Thread): Node {
    if th.Popping? && (th.qc == ReadData || th.qc == Retire) then th.first else NULL
  }

  ghost predicate Apart(s: State) {
    forall t, u | 0 <= t < |s.threads| && 0 <= u < |s.threads| && t != u ::
      && (Private(s.threads[t]) != NULL ==> Private(s.threads[t]) != Private(s.threads[u]))
      && (Holds(s.threads[t]) != NULL ==> Holds(s.threads[t]) != Holds(s.threads[u]))
  }

  /** Every node behind `_begin` is retired exactly once or held by the popper about to retire it. */
  ghost predicate Retirement(s: State)
    requires Shape(s)
  {
    && (forall i, j | 0 <= i < j < |s.retired| :: s.retired[i] != s.retired[j])
    && (forall n | n in s.retired :: Passed(s, n))
    && (forall t | 0 <= t < |s.threads| :: Holds(s.threads[t]) !in s.retired)
    && (forall n | Passed(s, n) && n !in s.retired ::
          exists t :: 0 <= t < |s.threads| && Holds(s.threads[t]) == n)
    && (forall n | n in s.freed :: n in s.retired)
  }

  // `_begin` has moved past the node.
  ghost predicate Passed(s: State, n: Node)
    requires Shape(s)
  {
    n in s.rank && s.rank[n] < s.rank[s.begin]
  }

  // The node in a hazard slot once the check that follows its publication has passed.
  function Guard(th: Thread, second: bool): Node {
    match th
    case Idle(_) => NULL
    case Pushing(pc, _, _, h, _) =>
      if !second && (pc == LoadNext || pc == RecheckEnd || pc == HelpEnd || pc == Link || pc == SwingEnd) then h
      else NULL
    case Popping(qc, f, g, _, _) =>
      if second then (if qc == HelpEnd2 || qc == SwingBegin || qc == ReadData then g else NULL)
      else if qc == SampleEnd || qc == LoadSecond || qc == RecheckBegin || qc == HelpEnd2 || qc == SwingBegin
              || qc == ReadData || qc == Retire then f
      else NULL
  }

  ghost predicate Covered(sc: Scan, t: nat, b: bool, n: Node) {
    sc.Scanning? && n in sc.candidates && (t, b) in sc.visited ==> n in sc.collected
  }

  /** No guarded node is reclaimed, and no scan that passed its slot has missed it. */
  ghost predicate Guarded(s: State) {
    && (forall k | 0 <= k < |s.scans| && s.scans[k].Scanning? ::
          forall n | n in s.scans[k].candidates :: n in s.retired && n !in s.freed)
    && (forall t, b | 0 <= t < |s.threads| && Guard(s.threads[t], b) != NULL ::
          Guard(s.threads[t], b) !in s.freed)
    && (forall t, b, k | 0 <= t < |s.threads| && 0 <= k < |s.scans| && Guard(s.threads[t], b) != NULL ::
          Covered(s.scans[k], t, b, Guard(s.threads[t], b)))
    && (forall j, k | 0 <= j < |s.scans| && 0 <= k < |s.scans| && j != k
          && s.scans[j].Scanning? && s.scans[k].Scanning? :: s.scans[j].candidates !! s.scans[k].candidates)
  }

  ghost predicate AllOk(s: State)
    requires Shape(s)
  {
    forall t | 0 <= t < |s.threads| :: ThreadOk(s, s.threads[t])
  }

  ghost predicate Inv(s: State) {
    Shape(s) && AllOk(s) && Apart(s) && Retirement(s) && Guarded(s) && SizeExact(s)
  }

  // How far the counter is off because of one thread.
  function Owes(th: Thread): int {
    if th.Pushing? && !BeforeLink(th.pc) then 1
    else if th.Popping? && (th.qc == ReadData || th.qc == Retire || th.qc == CountDown) then -1
    else 0
  }

  function Owed(ts: seq<Thread>): int {
    Tally(ts, Owes)
  }

  function Length(s: State): int
    requires s.begin in s.rank
  {
    |s.order| - 1 - s.rank[s.begin]
  }

  /** The 32-bit counter plus linked-but-uncounted pushes minus swung-but-uncounted pops is the length. */
  ghost predicate SizeExact(s: State)
    requires s.begin in s.rank
  {
    s.size < WORD && (s.size + Owed(s.threads)) % WORD == Length(s) % WORD
  }

  // ---------------------------------------------------------------- one step keeps the invariant

  /** What a thread may do to shared memory. */
  ghost predicate EffectOk(s: State, th: Thread, e: Effect)
    requires Shape(s)
  {
    match e
    case NoEffect => true
    case LinkNode(at, node) =>
      && at == s.end && s.rank[s.end] + 1 == |s.order|
      && node == Private(th) && node in s.cells && node !in s.rank && s.cells[node].next == NULL
    case MoveEnd(to) => Follows(s, s.end, to)
    case MoveBegin(to) => Follows(s, s.begin, to) && s.begin != s.end
    case RetireNode(n) => n == Holds(th) && n != NULL
    case AddSize(_) => true
  }

  // Only the last node has a null `_next`, and `_end` is not behind the hazard.
  lemma PushDecides(s: State, th: Thread, weak: bool)
    requires Shape(s) && th.Pushing? && PushOk(s, th)
    ensures var (e, th') := DecidePush(s, th, weak);
      EffectOk(s, th, e) && (e.NoEffect? ==> ThreadOk(s, th'))
  {
  }

  // `_end` was sampled after `_begin` stood at `first`, so if it was another node it is a later one.
  lemma SwingKeepsBehindEnd(s: State, th: Thread)
    requires Shape(s) && th.Popping? && PopOk(s, th) && th.qc == SwingBegin && s.begin == th.first
    ensures s.begin != s.end
  {
    assert s.order[s.rank[th.first]] == th.first && s.order[s.rank[th.end]] == th.end;
  }

  predicate Early(qc: PopPc) {
    qc == LoadBegin || qc == CheckBegin || qc == SampleEnd || qc == LoadSecond || qc == RecheckBegin
  }

  lemma PopDecidesEarly(s: State, th: Thread, weak: bool)
    requires Shape(s) && th.Popping? && PopOk(s, th) && Early(th.qc)
    ensures var (e, th') := DecidePop(s, th, weak); e.NoEffect? && ThreadOk(s, th')
  {
  }

  lemma PopDecidesLate(s: State, th: Thread, weak: bool)
    requires Shape(s) && th.Popping? && PopOk(s, th) && !Early(th.qc)
    ensures var (e, th') := DecidePop(s, th, weak);
      EffectOk(s, th, e) && (e.NoEffect? ==> ThreadOk(s, th'))
  {
    if th.qc == SwingBegin {
      if s.begin == th.first { SwingKeepsBehindEnd(s, th); }
    }
  }

  lemma Decides(s: State, th: Thread, weak: bool)
    requires Shape(s) && ThreadOk(s, th)
    ensures var (e, th') := Decide(s, th, weak);
      EffectOk(s, th, e) && (e.NoEffect? ==> ThreadOk(s, th'))
  {
    if th.Pushing? {
      PushDecides(s, th, weak);
    } else if th.Popping? {
      if Early(th.qc) { PopDecidesEarly(s, th, weak); } else { PopDecidesLate(s, th, weak); }
    }
  }

  /** History only grows; data never changes. */
  ghost predicate Grows(s: State, s': State)
    requires Shape(s) && Shape(s')
  {
    && (forall n | n in s.rank :: n in s'.rank && s'.rank[n] == s.rank[n])
    && s.rank[s.begin] <= s'.rank[s'.begin] && s.rank[s.end] <= s'.rank[s'.end]
    && (forall n | n in s.cells :: n in s'.cells && s'.cells[n].data == s.cells[n].data)
  }

  lemma LinkKeepsShape(s: State, at: Node, node: Node)
    requires Shape(s) && at == s.end && s.rank[at] + 1 == |s.order|
    requires node in s.cells && node !in s.rank && s.cells[node].next == NULL
    ensures var s' := Perform(s, LinkNode(at, node)); Shape(s') && Grows(s, s')
  {
    var s' := Perform(s, LinkNode(at, node));
    forall n | n in s'.rank && n in s'.cells
      ensures LinksOn(s', n)
    {
      if n != node && n != at { assert LinksOn(s, n); }
    }
  }

  lemma PerformKeepsShape(s: State, th: Thread, e: Effect)
    requires Shape(s) && EffectOk(s, th, e)
    ensures Shape(Perform(s, e)) && Grows(s, Perform(s, e))
  {
    if e.LinkNode? { LinkKeepsShape(s, e.at, e.node); }
  }

  /** A thread that did not move still satisfies its assertion. */
  lemma OthersKeepOk(s: State, s': State, th: Thread)
    requires Shape(s) && Shape(s') && Grows(s, s') && ThreadOk(s, th)
    requires Private(th) != NULL ==> Private(th) !in s'.rank && s'.cells[Private(th)].next == NULL
    ensures ThreadOk(s', th)
  {
    if th.Pushing? {
    } else if th.Popping? {
    }
  }

  lemma PusherKeepsOk(s: State, th: Thread, weak: bool)
    requires Shape(s) && th.Pushing? && PushOk(s, th)
    ensures var (e, th') := DecidePush(s, th, weak);
      Shape(Perform(s, e)) && ThreadOk(Perform(s, e), th')
  {
    var (e, th') := DecidePush(s, th, weak);
    PushDecides(s, th, weak);
    PerformKeepsShape(s, th, e);
    if e.LinkNode? {
      assert Follows(Perform(s, e), th.hazard, th.node);
    }
  }

  lemma PopperKeepsOk(s: State, th: Thread, weak: bool)
    requires Shape(s) && th.Popping? && PopOk(s, th)
    ensures var (e, th') := DecidePop(s, th, weak);
      Shape(Perform(s, e)) && ThreadOk(Perform(s, e), th')
  {
    var (e, th') := DecidePop(s, th, weak);
    if Early(th.qc) {
      PopDecidesEarly(s, th, weak);
    } else {
      PopDecidesLate(s, th, weak);
      PerformKeepsShape(s, th, e);
    }
  }

  /** The thread that moved satisfies its assertion at the new program counter. */
  lemma StepperKeepsOk(s: State, th: Thread, weak: bool)
    requires Shape(s) && ThreadOk(s, th)
    ensures var (e, th') := Decide(s, th, weak);
      Shape(Perform(s, e)) && ThreadOk(Perform(s, e), th')
  {
    if th.Pushing? { PusherKeepsOk(s, th, weak); } else if th.Popping? { PopperKeepsOk(s, th, weak); }
  }

  lemma StepKeepsThreads(s: State, t: nat, weak: bool)
    requires Inv(s) && t < |s.threads|
    ensures var s' := StepThread(s, t, weak); Shape(s') && Grows(s, s') && AllOk(s')
  {
    var th := s.threads[t];
    var (e, th') := Decide(s, th, weak);
    var m, s' := Perform(s, e), StepThread(s, t, weak);
    Decides(s, th, weak);
    PerformKeepsShape(s, th, e);
    StepperKeepsOk(s, th, weak);
    forall u | 0 <= u < |s.threads| && u != t
      ensures ThreadOk(m, s.threads[u])
    {
      OthersKeepOk(s, m, s.threads[u]);
    }
    SameMemorySameOk(m, s');
  }

  lemma SameMemorySameOk(m: State, s: State)
    requires Shape(m) && s == m.(threads := s.threads, scans := s.scans, freed := s.freed)
    ensures Shape(s)
    ensures forall th :: ThreadOk(m, th) <==> ThreadOk(s, th)
  {
  }

  function Install(s: State, t: nat, e: Effect, th: Thread): State
    requires t < |s.threads|
  {
    Perform(s, e).(threads := s.threads[t := th])
  }

  // Who holds which private or unlinked node after a step.
  ghost predicate Claims(s: State, th: Thread, e: Effect, th': Thread) {
    && (Private(th') == Private(th) || Private(th') == NULL)
    && (e.MoveBegin? ==> Holds(th) == NULL)
    && (Holds(th') == if e.MoveBegin? then s.begin else if e.RetireNode? then NULL else Holds(th))
    && (e.RetireNode? ==> e.node == Holds(th))
    && (e.LinkNode? ==> e.node == Private(th))
  }

  lemma StepClaims(s: State, th: Thread, weak: bool)
    ensures var (e, th') := Decide(s, th, weak); Claims(s, th, e, th')
  {
  }

  lemma InstallKeepsApart(s: State, t: nat, e: Effect, th': Thread)
    requires Shape(s) && AllOk(s) && Apart(s) && t < |s.threads| && Claims(s, s.threads[t], e, th')
    ensures Apart(Install(s, t, e, th'))
  {
    forall u | 0 <= u < |s.threads| && u != t
      ensures Holds(s.threads[u]) != NULL ==> Passed(s, Holds(s.threads[u]))
    {
      assert ThreadOk(s, s.threads[u]);
    }
  }

  // The only node `_begin` can newly pass is the one it stood at.
  lemma NewlyPassed(s: State, th: Thread, e: Effect, n: Node)
    requires Shape(s) && EffectOk(s, th, e) && Shape(Perform(s, e))
    ensures Passed(Perform(s, e), n) <==> Passed(s, n) || (e.MoveBegin? && n == s.begin)
  {
    if e.MoveBegin? && n in s.rank {
      assert s.order[s.rank[s.begin]] == s.begin && s.order[s.rank[n]] == n;
    }
  }

  lemma InstallKeepsHolder(s: State, t: nat, e: Effect, th': Thread, n: Node)
    requires Shape(s) && Retirement(s) && t < |s.threads|
    requires Claims(s, s.threads[t], e, th') && n in s.rank
    requires Passed(s, n) || (e.MoveBegin? && n == s.begin)
    ensures var s' := Install(s, t, e, th');
      n in s'.retired || exists u :: 0 <= u < |s'.threads| && Holds(s'.threads[u]) == n
  {
    var s' := Install(s, t, e, th');
    if !Passed(s, n) {
      assert Holds(s'.threads[t]) == n;
    } else if n !in s.retired {
      var u :| 0 <= u < |s.threads| && Holds(s.threads[u]) == n;
      if u == t && e.RetireNode? {
        assert s'.retired[|s.retired|] == n;
      } else {
        assert Holds(s'.threads[u]) == n;
      }
    }
  }

  lemma InstallKeepsRetirement(s: State, t: nat, e: Effect, th': Thread)
    requires Shape(s) && AllOk(s) && Apart(s) && Retirement(s) && t < |s.threads|
    requires EffectOk(s, s.threads[t], e) && Claims(s, s.threads[t], e, th')
    requires Shape(Install(s, t, e, th'))
    ensures Retirement(Install(s, t, e, th'))
  {
    var s' := Install(s, t, e, th');
    forall n
      ensures Passed(s', n) <==> Passed(s, n) || (e.MoveBegin? && n == s.begin)
    {
      PerformKeepsShape(s, s.threads[t], e);
      NewlyPassed(s, s.threads[t], e, n);
    }
    forall n | Passed(s', n) && n !in s'.retired
      ensures exists u :: 0 <= u < |s'.threads| && Holds(s'.threads[u]) == n
    {
      InstallKeepsHolder(s, t, e, th', n);
    }
    if e.RetireNode? {
      assert ThreadOk(s, s.threads[t]);
    }
  }

  // A slot becomes guarded only by a check that finds its node not yet behind `_begin`.
  lemma PushGuardIsFresh(s: State, th: Thread, weak: bool)
    requires Shape(s) && th.Pushing?
    ensures var n := Guard(DecidePush(s, th, weak).1, false);
      n == NULL || n == Guard(th, false) || !Passed(s, n)
  {
  }

  lemma PopGuardIsFresh(s: State, th: Thread, weak: bool, second: bool)
    requires Shape(s) && th.Popping? && PopOk(s, th)
    ensures var n := Guard(DecidePop(s, th, weak).1, second);
      n == NULL || n == Guard(th, second) || !Passed(s, n)
  {
  }

  lemma GuardIsFresh(s: State, th: Thread, weak: bool, second: bool)
    requires Shape(s) && ThreadOk(s, th)
    ensures var n := Guard(Decide(s, th, weak).1, second);
      n == NULL || n == Guard(th, second) || !Passed(s, n)
  {
    if th.Pushing? && !second { PushGuardIsFresh(s, th, weak); }
    if th.Popping? { PopGuardIsFresh(s, th, weak, second); }
  }

  ghost predicate GuardOk(s: State, t: nat, b: bool, n: Node) {
    n != NULL ==> n !in s.freed && forall k | 0 <= k < |s.scans| :: Covered(s.scans[k], t, b, n)
  }

  // A node `_begin` has not passed is neither reclaimed nor wanted by a scan.
  lemma FreshIsOk(s: State, t: nat, b: bool, n: Node)
    requires Shape(s) && Retirement(s) && Guarded(s) && !Passed(s, n)
    ensures GuardOk(s, t, b, n)
  {
  }

  lemma StepKeepsGuarded(s: State, t: nat, weak: bool)
    requires Inv(s) && t < |s.threads|
    ensures Guarded(StepThread(s, t, weak))
  {
    var s' := StepThread(s, t, weak);
    forall b
      ensures GuardOk(s, t, b, Guard(s'.threads[t], b))
    {
      StepperIsGuarded(s, t, weak, b);
    }
    StepLeavesScans(s, s.threads[t], weak);
    SameScansSameGuards(s, s', t);
  }

  lemma StepperIsGuarded(s: State, t: nat, weak: bool, b: bool)
    requires Inv(s) && t < |s.threads|
    ensures GuardOk(s, t, b, Guard(Decide(s, s.threads[t], weak).1, b))
  {
    var n := Guard(Decide(s, s.threads[t], weak).1, b);
    assert ThreadOk(s, s.threads[t]);
    GuardIsFresh(s, s.threads[t], weak, b);
    if !Passed(s, n) { FreshIsOk(s, t, b, n); }
  }

  lemma StepLeavesScans(s: State, th: Thread, weak: bool)
    ensures var s' := Perform(s, Decide(s, th, weak).0);
      s'.scans == s.scans && s'.freed == s.freed && s.retired <= s'.retired
  {
  }

  lemma SameScansSameGuards(s: State, s': State, t: nat)
    requires Guarded(s) && t < |s.threads| == |s'.threads|
    requires s'.scans == s.scans && s'.freed == s.freed && s.retired <= s'.retired
    requires forall u | 0 <= u < |s.threads| && u != t :: s'.threads[u] == s.threads[u]
    requires forall b :: GuardOk(s, t, b, Guard(s'.threads[t], b))
    ensures Guarded(s')
  {
  }

  function Debt(e: Effect): int {
    match e
    case LinkNode(_, _) => 1
    case MoveBegin(_) => -1
    case AddSize(d) => -d
    case _ => 0
  }

  // A thread's debt changes exactly when it links, swings or counts.
  lemma DebtFollowsEffect(s: State, th: Thread, weak: bool)
    ensures var (e, th') := Decide(s, th, weak); Owes(th') - Owes(th) == Debt(e)
  {
  }

  lemma SameModulo(a: int, b: int, q: int)
    requires a == b + q * WORD
    ensures a % WORD == b % WORD
  {
  }

  lemma EffectMovesLength(s: State, th: Thread, e: Effect)
    requires Shape(s) && EffectOk(s, th, e)
    ensures Perform(s, e).begin in Perform(s, e).rank
    ensures Length(Perform(s, e)) == Length(s) + (if e.AddSize? then 0 else Debt(e))
  {
  }

  // Counter, debt and length stay congruent when two of them move.
  lemma Balance(size: int, size': int, owed: int, length: int, count: int, change: int)
    requires (size + owed) % WORD == length % WORD
    requires size' == (size + count) % WORD
    ensures (size' + (owed + change - count)) % WORD == (length + change) % WORD
  {
    var q := (size + owed) / WORD - length / WORD;
    assert size + owed == length + q * WORD;
    SameModulo(size' + (owed + change - count), length + change, q - (size + count) / WORD);
  }

  lemma SizeStaysExact(s: State, s': State, t: nat, th': Thread, count: int, change: int)
    requires s.begin in s.rank && s'.begin in s'.rank && SizeExact(s)
    requires t < |s.threads| && s'.threads == s.threads[t := th']
    requires s'.size == (s.size + count) % WORD && Length(s') == Length(s) + change
    requires Owes(th') - Owes(s.threads[t]) == change - count
    ensures SizeExact(s')
  {
    TallyUpdate(s.threads, t, th', Owes);
    Balance(s.size, s'.size, Owed(s.threads), Length(s), count, change);
  }

  lemma InstallKeepsSize(s: State, t: nat, e: Effect, th': Thread)
    requires Shape(s) && SizeExact(s) && t < |s.threads|
    requires EffectOk(s, s.threads[t], e) && Owes(th') - Owes(s.threads[t]) == Debt(e)
    ensures Perform(s, e).begin in Perform(s, e).rank && SizeExact(Install(s, t, e, th'))
  {
    EffectMovesLength(s, s.threads[t], e);
    var count, change := if e.AddSize? then e.delta else 0, if e.AddSize? then 0 else Debt(e);
    SizeStaysExact(s, Install(s, t, e, th'), t, th', count, change);
  }

  lemma StepKeepsInv(s: State, t: nat, weak: bool)
    requires Inv(s) && t < |s.threads|
    ensures Inv(StepThread(s, t, weak))
  {
    var (e, th') := Decide(s, s.threads[t], weak);
    StepKeepsThreads(s, t, weak);
    Decides(s, s.threads[t], weak);
    StepClaims(s, s.threads[t], weak);
    InstallKeepsApart(s, t, e, th');
    InstallKeepsRetirement(s, t, e, th');
    StepKeepsGuarded(s, t, weak);
    DebtFollowsEffect(s, s.threads[t], weak);
    InstallKeepsSize(s, t, e, th');
  }

  // ---------------------------------------------------------------- every action keeps the invariant

  lemma OwedIdle(ts: seq<Thread>)
    requires forall t | 0 <= t < |ts| :: ts[t].Idle?
    ensures Owed(ts) == 0
  {
    TallyWithin(ts, Owes, 0, 0);
  }

  lemma InitHasInv(s: State)
    requires Init(s)
    ensures Inv(s)
  {
    OwedIdle(s.threads);
  }

  // A fresh node changes nothing for anybody else.
  lemma AllocateKeepsOk(s: State, s': State, th: Thread)
    requires Shape(s) && ThreadOk(s, th) && s'.cells.Keys >= s.cells.Keys && s'.rank == s.rank && s'.order == s.order
    requires s'.begin == s.begin && s'.end == s.end
    requires NULL !in s'.cells && forall n | n in s.cells :: s'.cells[n] == s.cells[n]
    ensures Shape(s') && ThreadOk(s', th)
  {
    forall n | n in s'.rank && n in s'.cells
      ensures LinksOn(s', n)
    {
      assert LinksOn(s, n);
    }
    assert Grows(s, s');
    if Private(th) != NULL { assert Private(th) in s.cells; }
    OthersKeepOk(s, s', th);
  }

  // An idle thread starts an operation; `cells` may hold a new private node.
  ghost predicate Starts(s: State, t: nat, s': State, th': Thread) {
    && t < |s.threads| && s.threads[t].Idle?
    && s' == s.(cells := s'.cells, threads := s.threads[t := th'])
    && NULL !in s'.cells && s'.cells.Keys >= s.cells.Keys && (forall n | n in s.cells :: s'.cells[n] == s.cells[n])
    && Private(th') !in s.cells && Holds(th') == NULL && Guard(th', false) == Guard(th', true) == NULL && Owes(th') == 0
  }

  lemma StartKeepsThreads(s: State, t: nat, s': State, th': Thread)
    requires Shape(s) && AllOk(s) && Apart(s) && Starts(s, t, s', th')
    requires Shape(s') ==> ThreadOk(s', th')
    ensures Shape(s') && AllOk(s') && Apart(s')
  {
    AllocateKeepsOk(s, s', s.threads[t]);
    forall u | 0 <= u < |s.threads| && u != t
      ensures ThreadOk(s', s.threads[u])
      ensures Private(s.threads[u]) != NULL ==> Private(s.threads[u]) in s.cells
    {
      AllocateKeepsOk(s, s', s.threads[u]);
    }
  }

  lemma StartKeepsRetirement(s: State, t: nat, s': State, th': Thread)
    requires Shape(s) && Retirement(s) && Starts(s, t, s', th') && Shape(s')
    ensures Retirement(s')
  {
    forall n | Passed(s', n) && n !in s'.retired
      ensures exists u :: 0 <= u < |s'.threads| && Holds(s'.threads[u]) == n
    {
      assert Passed(s, n);
      var u :| 0 <= u < |s.threads| && Holds(s.threads[u]) == n;
      assert Holds(s'.threads[u]) == n;
    }
  }

  lemma StartKeepsInv(s: State, t: nat, s': State, th': Thread)
    requires Inv(s) && Starts(s, t, s', th')
    requires Shape(s') ==> ThreadOk(s', th')
    ensures Inv(s')
  {
    StartKeepsThreads(s, t, s', th');
    StartKeepsRetirement(s, t, s', th');
    StartKeepsGuarded(s, t, s', th');
    StartKeepsSize(s, t, s', th');
  }

  lemma StartKeepsGuarded(s: State, t: nat, s': State, th': Thread)
    requires Guarded(s) && Starts(s, t, s', th')
    ensures Guarded(s')
  {
    SameScansSameGuards(s, s', t);
  }

  lemma StartKeepsSize(s: State, t: nat, s': State, th': Thread)
    requires s.begin in s.rank && SizeExact(s) && Starts(s, t, s', th')
    ensures SizeExact(s')
  {
    TallyUpdate(s.threads, t, th', Owes);
  }

  lemma ScanKeepsGuarded(s: State, a: Action)
    requires Guarded(s) && Enabled(s, a) && (a.StartScan? || a.Collect? || a.EndScan?)
    ensures Guarded(Apply(s, a))
  {
    forall t, b | 0 <= t < |s.threads| && Guard(s.threads[t], b) != NULL
      ensures Guard(s.threads[t], b) == Slot(s.threads[t], b)
    {
    }
  }

  lemma ReclaimKeepsGuarded(s: State, k: nat, node: Node)
    requires Guarded(s) && Enabled(s, Reclaim(k, node))
    ensures Guarded(Apply(s, Reclaim(k, node)))
  {
    forall t, b | 0 <= t < |s.threads| && Guard(s.threads[t], b) != NULL
      ensures Guard(s.threads[t], b) != node
    {
      assert (t, b) in s.scans[k].visited;
      assert Covered(s.scans[k], t, b, Guard(s.threads[t], b));
    }
  }

  lemma ReclaimersKeepInv(s: State, a: Action)
    requires Inv(s) && Enabled(s, a) && (a.StartScan? || a.Collect? || a.EndScan? || a.Reclaim?)
    ensures Inv(Apply(s, a))
  {
    var s' := Apply(s, a);
    assert forall n | n in s'.freed :: n in s.retired;
    SameMemoryKeepsRest(s, s');
    assert Guarded(s') by {
      if a.Reclaim? { ReclaimKeepsGuarded(s, a.k, a.node); } else { ScanKeepsGuarded(s, a); }
    }
  }

  // All but the guards is told from the memory and the threads.
  lemma SameMemoryKeepsRest(m: State, s: State)
    requires s == m.(scans := s.scans, freed := s.freed) && forall n | n in s.freed :: n in m.retired
    requires Shape(m) && AllOk(m) && Apart(m) && Retirement(m) && SizeExact(m)
    ensures Shape(s) && AllOk(s) && Apart(s) && Retirement(s) && SizeExact(s)
  {
    SameMemorySameOk(m, s);
  }

  /** Every action of every thread and of every reclaimer keeps the invariant. */
  lemma ApplyKeepsInv(s: State, a: Action)
    requires Inv(s) && Enabled(s, a)
    ensures Inv(Apply(s, a))
  {
    match a
    case StartPush(t, v, node) =>
      StartKeepsInv(s, t, Apply(s, a), Pushing(LoadEnd, v, node, NULL, NULL));
    case StartPop(t) =>
      StartKeepsInv(s, t, Apply(s, a), Popping(LoadBegin, NULL, NULL, NULL, WasEmpty));
    case Advance(t, weak) => StepKeepsInv(s, t, weak);
    case _ => ReclaimersKeepInv(s, a);
  }

  /** `run` is an execution: it starts in the state of `get_list` and each action was enabled. */
  ghost predicate IsRun(run: seq<State>, actions: seq<Action>) {
    && |run| == |actions| + 1 && Init(run[0])
    && forall i | 0 <= i < |actions| :: Enabled(run[i], actions[i]) && run[i + 1] == Apply(run[i], actions[i])
  }

  /** The queue shape, the retirement discipline, the hazard discipline and the exact size
      hold in every state of every run, whatever the interleaving. */
  lemma {:induction false} RunsKeepInv(run: seq<State>, actions: seq<Action>, i: nat)
    requires IsRun(run, actions) && i < |run|
    ensures Inv(run[i])
  {
    if i == 0 {
      InitHasInv(run[0]);
    } else {
      RunsKeepInv(run, actions, i - 1);
      ApplyKeepsInv(run[i - 1], actions[i - 1]);
    }
  }

  // ---------------------------------------------------------------- what the invariant buys

  // The node whose field the next step of a thread reads or compares.
  function Reads(th: Thread): Node {
    if th.Pushing? && (th.pc == LoadNext || th.pc == Link) then th.hazard
    else if th.Popping? && th.qc == LoadSecond then th.first
    else if th.Popping? && th.qc == ReadData then th.second
    else NULL
  }

  // The node a compare-exchange that comes next expects to find.
  function Expects(th: Thread): Node {
    if th.Pushing? && (th.pc == HelpEnd || th.pc == SwingEnd) then th.hazard
    else if th.Popping? && th.qc == HelpEnd2 then th.end
    else if th.Popping? && th.qc == SwingBegin then th.first
    else NULL
  }

  /** No step of push or pop reads a reclaimed node, and no compare-exchange on `_begin` or `_end`
      expects one; neither end of the queue ever refers to a retired node. */
  lemma NeverReadsReclaimed(s: State, t: nat)
    requires Inv(s) && t < |s.threads|
    ensures Reads(s.threads[t]) != NULL ==> Reads(s.threads[t]) in s.cells && Reads(s.threads[t]) !in s.freed
    ensures Expects(s.threads[t]) != NULL ==> Expects(s.threads[t]) !in s.freed
    ensures s.begin !in s.retired && s.end !in s.retired
  {
    var th := s.threads[t];
    assert ThreadOk(s, th);
    assert Guard(th, false) != NULL ==> Guard(th, false) !in s.freed;
    assert Guard(th, true) != NULL ==> Guard(th, true) !in s.freed;
  }

  /** A compare-exchange whose expected node has been retired fails, whatever the thread. */
  lemma StaleSwingFails(s: State, t: nat, weak: bool)
    requires Inv(s) && t < |s.threads| && Expects(s.threads[t]) in s.retired
    ensures var e := Decide(s, s.threads[t], weak).0; !e.MoveBegin? && !e.MoveEnd?
  {
    NeverReadsReclaimed(s, t);
  }

  /** When no operation is in progress, every node before `_begin` has been retired, none twice, and the
      counter is the number of queued values modulo 2^32. */
  lemma QuiescentIsExact(s: State)
    requires Inv(s) && forall t | 0 <= t < |s.threads| :: s.threads[t].Idle?
    ensures forall n | n in s.rank :: n in s.retired <==> s.rank[n] < s.rank[s.begin]
    ensures forall i, j | 0 <= i < j < |s.retired| :: s.retired[i] != s.retired[j]
    ensures s.size == Length(s) % WORD
  {
    OwedIdle(s.threads);
    assert forall n | n in s.rank && s.rank[n] < s.rank[s.begin] :: Passed(s, n);
  }
}
