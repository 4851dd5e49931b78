/** The list of hazard slots of container/detail/_hazard_ptr.h: `acquire`, `release` and the scan of `retire`, one
    shared access a step.  A client is one use of a slot; a thread that holds two slots is two clients. */
module HazardSlots {
  const NIL := -1
  const NULL := 0

  // `active` is 1 in the source when the slot is free to take.
  datatype Slot = Slot(active: bool, hazard: int, next: int)

  datatype Client =
    | Idle
    | Walking(at: int)          // acquire is at this slot, or past the last (89)
    | MovingOn(at: int)         // the slot was taken, about to load its next (89)
    | Linking(id: nat, behind: int)  // a new slot is the head, about to store its next (101)
    | Holding(id: nat)
    | Releasing(id: nat)        // the slot is cleared, about to store `_active` (108)

  // `top` is the slot the scan began at, `low` the lowest it has read, or one above `top`; it is about to read the
  // slot at `at`, or, if `read`, to load that slot's next.  It frees those of `candidates` it has not collected.
  datatype Scan =
    | NoScan
    | Scan(at: int, read: bool, top: nat, low: nat, candidates: set<int>, collected: set<int>)

  datatype State = State(slots: seq<Slot>, head: nat, clients: seq<Client>, scans: seq<Scan>, retired: set<int>,
                         freed: set<int>)

  datatype Access =
    | Acquire          // loads _head
    | Try              // exchanges `_active`
    | Next
    | Push             // exchanges _head
    | Link
    | Publish(p: int)  // a pointer that is then found not to have been passed yet
    | Clear
    | GiveBack

  datatype Action =
    | Use(c: nat, access: Access)
    | Retire(p: int)
    | Begin(k: nat, candidates: set<int>)
    | Read(k: nat)
    | Step(k: nat)     // loads next
    | End(k: nat)

  // The slot a client has to itself.
  function Own(c: Client): (id: int)
    ensures id == NIL || id >= 0
  {
    if c.Linking? || c.Holding? || c.Releasing? then c.id else NIL
  }

  predicate IsSlot(s: State, at: int) { 0 <= at < |s.slots| }

  predicate ClientEnabled(s: State, c: nat, access: Access) {
    c < |s.clients| &&
    var cl := s.clients[c];
    match access
    case Acquire => cl == Idle
    case Try => cl.Walking? && IsSlot(s, cl.at)
    case Next => cl.MovingOn? && IsSlot(s, cl.at)
    case Push => cl == Walking(NIL)
    case Link => cl.Linking? && IsSlot(s, cl.id)
    case Publish(p) => cl.Holding? && IsSlot(s, cl.id) && p != NULL && p !in s.retired
    case Clear => cl.Holding? && IsSlot(s, cl.id)
    case GiveBack => cl.Releasing? && IsSlot(s, cl.id)
  }

  predicate Enabled(s: State, a: Action) {
    match a
    case Use(c, access) => ClientEnabled(s, c, access)
    case Retire(p) => p != NULL
    case Begin(k, candidates) => k < |s.scans| && s.scans[k] == NoScan && candidates <= s.retired
    case Read(k) => k < |s.scans| && s.scans[k].Scan? && IsSlot(s, s.scans[k].at) && !s.scans[k].read
    case Step(k) => k < |s.scans| && s.scans[k].Scan? && IsSlot(s, s.scans[k].at) && s.scans[k].read
    case End(k) => k < |s.scans| && s.scans[k].Scan? && s.scans[k].at == NIL
  }

  function WithClient(s: State, c: nat, to: Client): State
    requires c < |s.clients|
  {
    s.(clients := s.clients[c := to])
  }

  function WithSlot(s: State, at: int, slot: Slot): State
    requires IsSlot(s, at)
  {
    s.(slots := s.slots[at := slot])
  }

  function ClientStep(s: State, c: nat, access: Access): State
    requires ClientEnabled(s, c, access)
  {
    var cl := s.clients[c];
    match access
    case Acquire => WithClient(s, c, Walking(s.head))
    case Try =>
      if s.slots[cl.at].active then
        WithClient(WithSlot(s, cl.at, s.slots[cl.at].(active := false)), c, Holding(cl.at))
      else WithClient(s, c, MovingOn(cl.at))
    case Next => WithClient(s, c, Walking(s.slots[cl.at].next))
    case Push =>
      WithClient(s.(slots := s.slots + [Slot(false, NULL, NIL)], head := |s.slots|), c, Linking(|s.slots|, s.head))
    case Link => WithClient(WithSlot(s, cl.id, s.slots[cl.id].(next := cl.behind)), c, Holding(cl.id))
    case Publish(p) => WithSlot(s, cl.id, s.slots[cl.id].(hazard := p))
    case Clear => WithClient(WithSlot(s, cl.id, s.slots[cl.id].(hazard := NULL)), c, Releasing(cl.id))
    case GiveBack => WithClient(WithSlot(s, cl.id, s.slots[cl.id].(active := true)), c, Idle)
  }

  function WithScan(s: State, k: nat, to: Scan): State
    requires k < |s.scans|
  {
    s.(scans := s.scans[k := to])
  }

  function Apply(s: State, a: Action): State
    requires Enabled(s, a)
  {
    match a
    case Use(c, access) => ClientStep(s, c, access)
    case Retire(p) => s.(retired := s.retired + {p})
    case Begin(k, candidates) => WithScan(s, k, Scan(s.head, false, s.head, s.head + 1, candidates, {}))
    case Read(k) =>
      var sc := s.scans[k];
      WithScan(s, k, sc.(read := true, low := sc.at, collected := sc.collected + {s.slots[sc.at].hazard}))
    case Step(k) => WithScan(s, k, s.scans[k].(at := s.slots[s.scans[k].at].next, read := false))
    case End(k) => WithScan(s, k, NoScan).(freed := s.freed + (s.scans[k].candidates - s.scans[k].collected))
  }

  // One free slot, nobody in it.
  predicate Init(s: State) {
    && s.slots == [Slot(true, NULL, NIL)] && s.head == 0 && s.retired == s.freed == {}
    && (forall c | 0 <= c < |s.clients| :: s.clients[c] == Idle)
    && (forall k | 0 <= k < |s.scans| :: s.scans[k] == NoScan)
  }

  // ---------------------------------------------------------------- the list

  // A slot that is the head or behind it and does not point on yet.
  ghost predicate HalfLinked(s: State, id: int) {
    exists c :: 0 <= c < |s.clients| && s.clients[c].Linking? && s.clients[c].id == id
  }

  predicate ClientOk(s: State, cl: Client) {
    && (cl.Walking? ==> NIL <= cl.at < |s.slots|) && (cl.MovingOn? ==> IsSlot(s, cl.at))
    && (Own(cl) != NIL ==> Own(cl) < |s.slots| && !s.slots[Own(cl)].active)
    && (cl.Linking? ==> cl.id > 0 && cl.behind == cl.id - 1 && s.slots[cl.id] == Slot(false, NULL, NIL))
    && (cl.Releasing? ==> s.slots[cl.id].hazard == NULL)
  }

  /** Each slot leads to the one pushed before it, but for those whose client is about to say so; a slot that is not
      free has one client and no other. */
  ghost predicate ListOk(s: State) {
    && s.head == |s.slots| - 1
    && s.slots[0].next == NIL
    && (forall id: nat | 0 < id < |s.slots| :: s.slots[id].next == if HalfLinked(s, id) then NIL else id - 1)
    && (forall id: nat | id < |s.slots| && s.slots[id].active :: s.slots[id].hazard == NULL)
    && (forall c | 0 <= c < |s.clients| :: ClientOk(s, s.clients[c]))
    && (forall c, d | 0 <= c < d < |s.clients| && Own(s.clients[c]) != NIL :: Own(s.clients[c]) != Own(s.clients[d]))
  }

  /** Whoever holds a slot with `p` in it is guarding `p`. */
  predicate Guards(s: State, c: nat, p: int) {
    && c < |s.clients| && s.clients[c].Holding? && IsSlot(s, s.clients[c].id) && p != NULL
    && s.slots[s.clients[c].id].hazard == p
  }

  predicate ScanOk(s: State, sc: Scan) {
    sc.Scan? ==>
      && sc.top < |s.slots| && sc.low <= sc.top + 1 && NIL <= sc.at && sc.candidates <= s.retired
      && (sc.at >= 0 ==> sc.low == if sc.read then sc.at else sc.at + 1)
      && (sc.read || sc.at == NIL ==> sc.low <= sc.top) && (sc.at == NIL ==> !sc.read)
  }

  // What is guarded and up for being freed has been collected, if the scan has come to its slot.
  ghost predicate Collects(s: State, sc: Scan) {
    sc.Scan? ==> forall c: nat, p | Guards(s, c, p) && p in sc.candidates ::
      s.clients[c].id <= sc.top && (sc.low <= s.clients[c].id ==> p in sc.collected)
  }

  ghost predicate ScansOk(s: State) {
    && s.freed <= s.retired
    && forall k | 0 <= k < |s.scans| :: ScanOk(s, s.scans[k]) && Collects(s, s.scans[k])
  }

  ghost predicate Inv(s: State) { ListOk(s) && ScansOk(s) }

  lemma InitHasInv(s: State)
    requires Init(s)
    ensures Inv(s)
  {
  }

  // Only clients that push or link change which slots are half linked.
  lemma SameHalfLinked(s: State, s': State, c: nat)
    requires c < |s.clients| && |s'.clients| == |s.clients| && s'.clients == s.clients[c := s'.clients[c]]
    requires !s.clients[c].Linking? && !s'.clients[c].Linking?
    ensures forall id :: HalfLinked(s', id) <==> HalfLinked(s, id)
  {
    forall id
      ensures HalfLinked(s', id) <==> HalfLinked(s, id)
    {
      if d :| 0 <= d < |s.clients| && s.clients[d].Linking? && s.clients[d].id == id {
        assert s'.clients[d] == s.clients[d];
      }
      if d :| 0 <= d < |s'.clients| && s'.clients[d].Linking? && s'.clients[d].id == id {
        assert s'.clients[d] == s.clients[d];
      }
    }
  }

  lemma WalkKeepsList(s: State, a: Action)
    requires ListOk(s) && Enabled(s, a) && a.Use? && (a.access.Acquire? || a.access.Try? || a.access.Next?)
    ensures ListOk(Apply(s, a))
  {
    SameHalfLinked(s, Apply(s, a), a.c);
  }

  lemma UseKeepsList(s: State, a: Action)
    requires ListOk(s) && Enabled(s, a) && a.Use? && (a.access.Publish? || a.access.Clear? || a.access.GiveBack?)
    ensures ListOk(Apply(s, a))
  {
    SameHalfLinked(s, Apply(s, a), a.c);
  }

  lemma PushKeepsList(s: State, c: nat)
    requires ListOk(s) && Enabled(s, Use(c, Push))
    ensures ListOk(Apply(s, Use(c, Push)))
  {
    var s', n := Apply(s, Use(c, Push)), |s.slots|;
    assert s'.clients[c] == Linking(n, s.head);
    forall id: nat | 0 < id < n
      ensures HalfLinked(s', id) <==> HalfLinked(s, id)
    {
      if d :| 0 <= d < |s.clients| && s.clients[d].Linking? && s.clients[d].id == id {
        assert s'.clients[d] == s.clients[d];
      }
      if d :| 0 <= d < |s'.clients| && s'.clients[d].Linking? && s'.clients[d].id == id {
        assert s'.clients[d] == s.clients[d];
      }
    }
  }

  lemma LinkKeepsList(s: State, c: nat)
    requires ListOk(s) && Enabled(s, Use(c, Link))
    ensures ListOk(Apply(s, Use(c, Link)))
  {
    var s', own := Apply(s, Use(c, Link)), s.clients[c].id;
    assert ClientOk(s, s.clients[c]);
    forall id: nat | 0 < id < |s.slots|
      ensures HalfLinked(s', id) <==> HalfLinked(s, id) && id != own
    {
      if d :| 0 <= d < |s.clients| && s.clients[d].Linking? && s.clients[d].id == id && id != own {
        assert s'.clients[d] == s.clients[d];
      }
      if d :| 0 <= d < |s'.clients| && s'.clients[d].Linking? && s'.clients[d].id == id {
        assert d != c && s'.clients[d] == s.clients[d] && Own(s.clients[d]) == id;
      }
    }
  }

  // What scans and retiring do leaves the list as it is.
  lemma SameListKeepsList(s: State, s': State)
    requires ListOk(s) && s' == s.(scans := s'.scans, retired := s'.retired, freed := s'.freed)
    ensures ListOk(s')
  {
    assert forall id :: HalfLinked(s', id) <==> HalfLinked(s, id);
  }

  lemma ApplyKeepsList(s: State, a: Action)
    requires ListOk(s) && Enabled(s, a)
    ensures ListOk(Apply(s, a))
  {
    if a.Use? {
      match a.access
      case Acquire | Try | Next => WalkKeepsList(s, a);
      case Publish(_) | Clear | GiveBack => UseKeepsList(s, a);
      case Push => PushKeepsList(s, a.c);
      case Link => LinkKeepsList(s, a.c);
    } else {
      SameListKeepsList(s, Apply(s, a));
    }
  }

  // ---------------------------------------------------------------- the scans

  // What is guarded after an access of a client was guarded before, unless it has not been retired.
  lemma GuardsAreOld(s: State, a: Action, d: nat, p: int)
    requires ListOk(s) && Enabled(s, a) && !a.Retire? && Guards(Apply(s, a), d, p) && p in s.retired
    ensures Guards(s, d, p) && Apply(s, a).clients[d].id == s.clients[d].id
  {
    assert ClientOk(s, s.clients[d]);
  }

  lemma OthersKeepScans(s: State, a: Action)
    requires Inv(s) && Enabled(s, a) && (a.Use? || a.Retire?)
    ensures ScansOk(Apply(s, a))
  {
    var s' := Apply(s, a);
    forall k | 0 <= k < |s'.scans|
      ensures ScanOk(s', s'.scans[k]) && Collects(s', s'.scans[k])
    {
      var sc := s.scans[k];
      assert ScanOk(s, sc) && Collects(s, sc);
      forall d: nat, p | sc.Scan? && Guards(s', d, p) && p in sc.candidates
        ensures s'.clients[d].id <= sc.top && (sc.low <= s'.clients[d].id ==> p in sc.collected)
      {
        if a.Retire? { assert Guards(s, d, p); } else { GuardsAreOld(s, a, d, p); }
      }
    }
  }

  lemma ScanKeepsScans(s: State, a: Action)
    requires Inv(s) && Enabled(s, a) && !a.Use? && !a.Retire?
    ensures ScansOk(Apply(s, a))
  {
    var s' := Apply(s, a);
    assert ScanOk(s, s.scans[a.k]) && Collects(s, s.scans[a.k]);
    forall d: nat, p
      ensures Guards(s', d, p) <==> Guards(s, d, p)
    {
    }
    forall k | 0 <= k < |s'.scans|
      ensures ScanOk(s', s'.scans[k]) && Collects(s', s'.scans[k])
    {
      assert ScanOk(s, s.scans[k]) && Collects(s, s.scans[k]);
    }
  }

  /** Every access of every client and every scan keeps all of this. */
  lemma ApplyKeepsInv(s: State, a: Action)
    requires Inv(s) && Enabled(s, a)
    ensures Inv(Apply(s, a))
  {
    ApplyKeepsList(s, a);
    if a.Use? || a.Retire? { OthersKeepScans(s, a); } else { ScanKeepsScans(s, a); }
  }

  // ---------------------------------------------------------------- what a scan misses

  // A scan loads the null next of a slot that is not the last of the list.
  ghost predicate Cuts(s: State, a: Action) {
    a.Step? && a.k < |s.scans| && s.scans[a.k].Scan? && HalfLinked(s, s.scans[a.k].at)
  }

  /** A scan leaves the list at its last slot, or exactly if it loads the next of a slot whose client has not stored
      it yet; otherwise it goes to the slot below. */
  lemma ScanEndsIff(s: State, k: nat)
    requires Inv(s) && Enabled(s, Step(k))
    ensures var at, at' := s.scans[k].at, Apply(s, Step(k)).scans[k].at;
      && (at' == NIL <==> at == 0 || Cuts(s, Step(k)))
      && (at' != NIL ==> at' == at - 1)
  {
    forall c | 0 <= c < |s.clients| && s.clients[c].Linking?
      ensures s.clients[c].id != 0
    {
      assert ClientOk(s, s.clients[c]);
    }
  }

  /** What a scan frees although somebody guards it is guarded in a slot below where it left the list. */
  lemma FreedAboveIsUnguarded(s: State, k: nat, c: nat, p: int)
    requires Inv(s) && Enabled(s, End(k)) && Guards(s, c, p) && p in s.scans[k].candidates
    requires p !in s.scans[k].collected
    ensures s.clients[c].id < s.scans[k].low
  {
    assert Collects(s, s.scans[k]);
  }

  // Nothing that is guarded has been freed.
  ghost predicate Safe(s: State) {
    forall c: nat, p | Guards(s, c, p) :: p !in s.freed
  }

  // Every scan that has left the list has come to its last slot.
  predicate Thorough(s: State) {
    forall k | 0 <= k < |s.scans| && s.scans[k].Scan? && s.scans[k].at == NIL :: s.scans[k].low == 0
  }

  lemma UncutStaysThorough(s: State, a: Action)
    requires Inv(s) && Thorough(s) && Enabled(s, a) && !Cuts(s, a)
    ensures Thorough(Apply(s, a))
  {
    if a.Step? {
      ScanEndsIff(s, a.k);
      assert ScanOk(s, s.scans[a.k]);
    }
  }

  lemma ThoroughStaysSafe(s: State, a: Action)
    requires Inv(s) && Thorough(s) && Safe(s) && Enabled(s, a)
    ensures Safe(Apply(s, a))
  {
    var s' := Apply(s, a);
    forall c: nat, p | Guards(s', c, p)
      ensures p !in s'.freed
    {
      if p in s.retired {
        if a.Retire? { assert Guards(s, c, p); } else { GuardsAreOld(s, a, c, p); }
        if a.End? { assert Collects(s, s.scans[a.k]); }
      }
    }
  }

  ghost predicate IsRun(run: seq<State>, actions: seq<Action>) {
    && |run| == |actions| + 1 && Init(run[0])
    && forall i | 0 <= i < |actions| :: Enabled(run[i], actions[i]) && run[i + 1] == Apply(run[i], actions[i])
  }

  lemma {:induction false} RunsKeepInv(run: seq<State>, actions: seq<Action>, i: nat)
    requires IsRun(run, actions) && i < |run|
    ensures Inv(run[i])
  {
    if i == 0 {
      InitHasInv(run[0]);
    } else {
      RunsKeepInv(run, actions, i - 1);
      ApplyKeepsInv(run[i - 1], actions[i - 1]);
    }
  }

  /** As long as no scan loads the next of a half-linked slot, no run frees anything that is guarded. */
  lemma {:induction false} UncutRunsAreSafe(run: seq<State>, actions: seq<Action>, i: nat)
    requires IsRun(run, actions) && i < |run|
    requires forall j | 0 <= j < |actions| :: !Cuts(run[j], actions[j])
    ensures Safe(run[i]) && Thorough(run[i])
  {
    if i > 0 {
      UncutRunsAreSafe(run, actions, i - 1);
      RunsKeepInv(run, actions, i - 1);
      UncutStaysThorough(run[i - 1], actions[i - 1]);
      ThoroughStaysSafe(run[i - 1], actions[i - 1]);
    }
  }

  // ---------------------------------------------------------------- slots come back

  ghost predicate IsOwned(s: State, id: nat) {
    exists c :: 0 <= c < |s.clients| && Own(s.clients[c]) == id
  }

  // A slot that is not free is some client's.
  ghost predicate NoneLost(s: State) {
    forall id: nat | id < |s.slots| && !s.slots[id].active :: IsOwned(s, id)
  }

  lemma ApplyLosesNone(s: State, a: Action)
    requires ListOk(s) && NoneLost(s) && Enabled(s, a)
    ensures NoneLost(Apply(s, a))
  {
    var s' := Apply(s, a);
    forall id: nat | id < |s'.slots| && !s'.slots[id].active
      ensures IsOwned(s', id)
    {
      if id < |s.slots| && !s.slots[id].active {
        assert IsOwned(s, id);
        var d :| 0 <= d < |s.clients| && Own(s.clients[d]) == id;
        assert Own(s'.clients[d]) == id;
      } else {
        assert Own(s'.clients[a.c]) == id;
      }
    }
  }

  /** In every state of every run a slot is free exactly if no client has it: what is released can be taken again, and
      when no client has a slot all of them are free and empty. */
  lemma {:induction false} FreeIffNobodyHas(run: seq<State>, actions: seq<Action>, i: nat, id: nat)
    requires IsRun(run, actions) && i < |run| && id < |run[i].slots|
    ensures NoneLost(run[i])
    ensures run[i].slots[id].active <==> !IsOwned(run[i], id)
    ensures run[i].slots[id].active ==> run[i].slots[id].hazard == NULL
  {
    RunsKeepInv(run, actions, i);
    if i > 0 {
      RunsKeepInv(run, actions, i - 1);
      FreeIffNobodyHas(run, actions, i - 1, 0);
      ApplyLosesNone(run[i - 1], actions[i - 1]);
    }
    forall c | 0 <= c < |run[i].clients|
      ensures ClientOk(run[i], run[i].clients[c])
    {
    }
  }

  /** A client guards what it publishes, until it publishes something else or clears its slot; no other access of
      anybody ends it. */
  lemma GuardStands(s: State, a: Action, c: nat, p: int)
    requires Inv(s) && Enabled(s, a)
    requires a == Use(c, Publish(p))
      || (Guards(s, c, p) && (a.Use? && a.c == c ==> !a.access.Publish? && !a.access.Clear?))
    ensures Guards(Apply(s, a), c, p)
  {
    if a.Use? {
      assert ClientOk(s, s.clients[c]) && ClientOk(s, s.clients[a.c]);
      assert a.c != c ==> Own(s.clients[a.c]) == NIL || Own(s.clients[a.c]) != Own(s.clients[c]);
    }
  }

  // ---------------------------------------------------------------- alone

  // No slot is between the two stores that link it.
  ghost predicate AllLinked(s: State) {
    forall c | 0 <= c < |s.clients| :: !s.clients[c].Linking?
  }

  // A client goes on until it has a slot, with nobody else moving.
  function Acquired(s: State, c: nat): State
    requires c < |s.clients| && s.clients[c].Walking? && NIL <= s.clients[c].at < |s.slots|
    requires forall id: nat | id < |s.slots| :: NIL <= s.slots[id].next < id
    decreases s.clients[c].at
  {
    if s.clients[c].at == NIL then Apply(Apply(s, Use(c, Push)), Use(c, Link))
    else
      var s' := Apply(s, Use(c, Try));
      if s'.clients[c].Holding? then s' else Acquired(Apply(s', Use(c, Next)), c)
  }

  // Among the slots up to `at` the one pushed last that is free, if any.
  predicate IsLastFree(s: State, id: nat, at: int) {
    id <= at < |s.slots| && s.slots[id].active && forall k | id < k <= at :: !s.slots[k].active
  }

  predicate NoneFree(s: State, at: int) {
    at < |s.slots| && forall k | 0 <= k <= at :: !s.slots[k].active
  }

  lemma LinkedGoDown(s: State)
    requires ListOk(s) && AllLinked(s)
    ensures forall id: nat | id < |s.slots| :: s.slots[id].next == id - 1
  {
    forall id: nat | 0 < id < |s.slots|
      ensures !HalfLinked(s, id)
    {
    }
  }

  // The client has taken the free slot `id`.
  function WithTaken(s: State, c: nat, id: nat): State
    requires c < |s.clients| && id < |s.slots|
  {
    WithClient(WithSlot(s, id, s.slots[id].(active := false)), c, Holding(id))
  }

  // It has pushed a slot of its own before the others.
  function WithNew(s: State, c: nat): State
    requires c < |s.clients|
  {
    var n := |s.slots|;
    WithClient(s.(slots := s.slots + [Slot(false, NULL, n - 1)], head := n), c, Holding(n))
  }

  lemma PushAlone(s: State, c: nat)
    requires c < |s.clients| && s.clients[c] == Walking(NIL) && s.head == |s.slots| - 1
    ensures Enabled(Apply(s, Use(c, Push)), Use(c, Link))
    ensures Apply(Apply(s, Use(c, Push)), Use(c, Link)) == WithNew(s, c)
  {
    var n, s' := |s.slots|, Apply(s, Use(c, Push));
    assert s' == WithClient(s.(slots := s.slots + [Slot(false, NULL, NIL)], head := n), c, Linking(n, n - 1));
    assert s'.slots[n := Slot(false, NULL, n - 1)] == s.slots + [Slot(false, NULL, n - 1)];
    assert s'.clients[c := Holding(n)] == s.clients[c := Holding(n)];
  }

  lemma {:induction false} AcquireFrom(s: State, c: nat, at: int)
    requires c < |s.clients| && s.clients[c] == Walking(at) && NIL <= at < |s.slots|
    requires (forall id: nat | id < |s.slots| :: s.slots[id].next == id - 1) && s.head == |s.slots| - 1
    ensures forall id: nat | IsLastFree(s, id, at) :: Acquired(s, c) == WithTaken(s, c, id)
    ensures NoneFree(s, at) ==> Acquired(s, c) == WithNew(s, c)
    decreases at
  {
    if at == NIL {
      PushAlone(s, c);
    } else if !s.slots[at].active {
      var s' := Apply(Apply(s, Use(c, Try)), Use(c, Next));
      assert s' == WithClient(s, c, Walking(at - 1));
      AcquireFrom(s', c, at - 1);
      assert NoneFree(s, at) ==> NoneFree(s', at - 1);
      forall id: nat | IsLastFree(s, id, at)
        ensures IsLastFree(s', id, at - 1)
      {
      }
    }
  }

  /** With nobody else moving and every slot linked, `acquire` takes the last pushed of the free slots and nothing else
      changes; if there is none it pushes a new one before the others, all of which stay as they are. */
  lemma AcquireAlone(s: State, c: nat)
    requires ListOk(s) && AllLinked(s) && Enabled(s, Use(c, Acquire))
    ensures forall id: nat | id < |s.slots| :: s.slots[id].next == id - 1
    ensures forall id: nat | IsLastFree(s, id, |s.slots| - 1) ::
      Acquired(Apply(s, Use(c, Acquire)), c) == WithTaken(s, c, id)
    ensures NoneFree(s, |s.slots| - 1) ==> Acquired(Apply(s, Use(c, Acquire)), c) == WithNew(s, c)
  {
    var s' := Apply(s, Use(c, Acquire));
    LinkedGoDown(s);
    AcquireFrom(s', c, s.head);
    assert NoneFree(s, s.head) ==> NoneFree(s', s.head);
    forall id: nat | IsLastFree(s, id, s.head)
      ensures Acquired(s', c) == WithTaken(s, c, id)
    {
      assert IsLastFree(s', id, s.head);
    }
  }

  // A scan goes on until it is done, with nobody else moving.
  function Scanned(s: State, k: nat): State
    requires k < |s.scans| && s.scans[k].Scan? && !s.scans[k].read && NIL <= s.scans[k].at < |s.slots|
    requires forall id: nat | id < |s.slots| :: NIL <= s.slots[id].next < id
    decreases s.scans[k].at
  {
    if s.scans[k].at == NIL then Apply(s, End(k)) else Scanned(Apply(Apply(s, Read(k)), Step(k)), k)
  }

  // What the slots up to `at` have in them.
  function Hazards(s: State, at: int): set<int>
    requires at < |s.slots|
  {
    set id: nat | id <= at :: s.slots[id].hazard
  }

  lemma {:induction false} ScanFrom(s: State, k: nat, at: int)
    requires k < |s.scans| && s.scans[k].Scan? && s.scans[k].at == at && !s.scans[k].read && NIL <= at < |s.slots|
    requires forall id: nat | id < |s.slots| :: s.slots[id].next == id - 1
    ensures Scanned(s, k) == s.(scans := s.scans[k := NoScan],
      freed := s.freed + (s.scans[k].candidates - (s.scans[k].collected + Hazards(s, at))))
    decreases at
  {
    if at >= 0 {
      var s' := Apply(Apply(s, Read(k)), Step(k));
      ScanFrom(s', k, at - 1);
      assert Hazards(s, at) == Hazards(s, at - 1) + {s.slots[at].hazard};
    }
  }

  /** With nobody else moving and every slot linked, a scan frees of its candidates all that are in no slot, and no
      others. */
  lemma ScanAlone(s: State, k: nat, candidates: set<int>)
    requires ListOk(s) && AllLinked(s) && Enabled(s, Begin(k, candidates))
    ensures forall id: nat | id < |s.slots| :: s.slots[id].next == id - 1
    ensures Scanned(Apply(s, Begin(k, candidates)), k)
      == s.(freed := s.freed + (candidates - Hazards(s, |s.slots| - 1)))
  {
    var s' := Apply(s, Begin(k, candidates));
    LinkedGoDown(s);
    ScanFrom(s', k, s.head);
    assert s'.scans[k := NoScan] == s.scans && {} + Hazards(s', s.head) == Hazards(s, s.head);
  }

  ghost predicate Reachable(s: State) {
    exists run: seq<State>, actions: seq<Action> :: IsRun(run, actions) && run[|run| - 1] == s
  }

  lemma ReachNext(s: State, a: Action)
    requires Reachable(s) && Enabled(s, a)
    ensures Reachable(Apply(s, a))
  {
    var run: seq<State>, actions: seq<Action> :| IsRun(run, actions) && run[|run| - 1] == s;
    assert IsRun(run + [Apply(s, a)], actions + [a]);
  }

  // The first slot is taken.
  lemma FirstTaken() returns (s: State)
    ensures Reachable(s)
    ensures s == State([Slot(false, NULL, NIL)], 0, [Holding(0), Idle], [NoScan], {}, {})
  {
    s := State([Slot(true, NULL, NIL)], 0, [Idle, Idle], [NoScan], {}, {});
    assert IsRun([s], []);
    ReachNext(s, Use(0, Acquire));
    s := Apply(s, Use(0, Acquire));
    assert s == State([Slot(true, NULL, NIL)], 0, [Walking(0), Idle], [NoScan], {}, {});
    ReachNext(s, Use(0, Try));
    s := Apply(s, Use(0, Try));
  }

  // A pointer is guarded in it and then retired.
  lemma GuardedAndRetired() returns (s: State)
    ensures Reachable(s)
    ensures s == State([Slot(false, 5, NIL)], 0, [Holding(0), Idle], [NoScan], {5}, {})
  {
    s := FirstTaken();
    ReachNext(s, Use(0, Publish(5)));
    s := Apply(s, Use(0, Publish(5)));
    assert s == State([Slot(false, 5, NIL)], 0, [Holding(0), Idle], [NoScan], {}, {});
    ReachNext(s, Retire(5));
    s := Apply(s, Retire(5));
  }

  // Another client has found the slot taken, and no other.
  lemma NoneLeft() returns (s: State)
    ensures Reachable(s)
    ensures s == State([Slot(false, 5, NIL)], 0, [Holding(0), Walking(NIL)], [NoScan], {5}, {})
  {
    s := GuardedAndRetired();
    ReachNext(s, Use(1, Acquire));
    s := Apply(s, Use(1, Acquire));
    assert s == State([Slot(false, 5, NIL)], 0, [Holding(0), Walking(0)], [NoScan], {5}, {});
    ReachNext(s, Use(1, Try));
    s := Apply(s, Use(1, Try));
    assert s == State([Slot(false, 5, NIL)], 0, [Holding(0), MovingOn(0)], [NoScan], {5}, {});
    ReachNext(s, Use(1, Next));
    s := Apply(s, Use(1, Next));
  }

  // It pushes one and pauses, and a scan reads that.
  lemma HalfLinkedRead() returns (s: State)
    ensures Reachable(s)
    ensures s == State([Slot(false, 5, NIL), Slot(false, NULL, NIL)], 1, [Holding(0), Linking(1, 0)],
                       [Scan(1, true, 1, 1, {5}, {NULL})], {5}, {})
  {
    s := NoneLeft();
    ReachNext(s, Use(1, Push));
    s := Apply(s, Use(1, Push));
    assert s == State([Slot(false, 5, NIL), Slot(false, NULL, NIL)], 1, [Holding(0), Linking(1, 0)], [NoScan], {5}, {});
    ReachNext(s, Begin(0, {5}));
    s := Apply(s, Begin(0, {5}));
    ReachNext(s, Read(0));
    s := Apply(s, Read(0));
    assert s.scans[0].collected == {NULL};
  }

  /** Without that it is false: a scan that meets the new slot in between frees what the first slot guards. */
  lemma GuardedMayBeFreed() returns (s: State)
    ensures Reachable(s) && Guards(s, 0, 5) && 5 in s.freed
  {
    s := HalfLinkedRead();
    ReachNext(s, Step(0));
    s := Apply(s, Step(0));
    assert s == State([Slot(false, 5, NIL), Slot(false, NULL, NIL)], 1, [Holding(0), Linking(1, 0)],
                      [Scan(NIL, false, 1, 1, {5}, {NULL})], {5}, {});
    ReachNext(s, End(0));
    s := Apply(s, End(0));
  }

  /** Two clients never have the same slot. */
  lemma SlotsAreExclusive(run: seq<State>, actions: seq<Action>, i: nat, c: nat, d: nat)
    requires IsRun(run, actions) && i < |run| && c < d < |run[i].clients|
    requires Own(run[i].clients[c]) != NIL
    ensures Own(run[i].clients[c]) != Own(run[i].clients[d])
  {
    RunsKeepInv(run, actions, i);
  }
}
