/** The lock protocol of `write_buff` (async_net/sock_buff.cpp, the Win32 branch) between any number of
    writers, senders and completions, one shared access a step.

    A half is what the source calls a `buffex`; here it is the bytes it holds and how many it has promised
    (`slide` is raised before the bytes are copied).  How the bytes lie in buffers is in `WriteBuff`. */
module SendProtocol {
  type Byte(==, !new)
  type Data = seq<Byte>

  // boost::shared_mutex as used here: an upgrader excludes upgraders and unique owners.
  datatype Lock = Unlocked | Upgraded(holder: nat) | Owned(holder: nat)

  datatype Half = Half(content: Data, promised: nat)

  // One per half; the halves are told apart by a bool.
  datatype LockPair = LockPair(left: Lock, right: Lock) {
    function Get(h: bool): Lock { if h then right else left }

    function Put(h: bool, x: Lock): LockPair { if h then LockPair(left, x) else LockPair(x, right) }
  }

  datatype HalfPair = HalfPair(left: Half, right: Half) {
    function Get(h: bool): Half { if h then right else left }

    function Put(h: bool, x: Half): HalfPair { if h then HalfPair(left, x) else HalfPair(x, right) }
  }

  // The access of `write` that comes next; the line is the one in sock_buff.cpp.
  datatype Writing =
    | WLoad        // 130
    | WTry         // 132
    | WCheck       // 133
    | WBack        // 134
    | WSlide       // 141
    | WReserve     // 175, or 146 when the buffer is too small
    | WCopy        // 176
    | WOverflow    // 148-168, alone on the half
    | WCopyAlone   // 169
    | WDowngrade   // 171
    | WRelease     // 182

  // The same for `send_buff`.
  datatype Sending =
    | SLoad        // 214
    | SLock        // 215
    | SInsist      // 219
    | SWait        // 220
    | SFlag        // 228
    | SCheck       // 232
    | SEmpty       // 238
    | SClear       // 233, 242
    | SSwap        // 246, the load of send_buff_
    | SStore       // 246, the store to write_buff_
    | SStoreSend   // 252, after put_buff
    | SLeave       // return false: the lock goes
    | SGive        // return true: the lock goes and the send is started

  // The same for `clear`.
  datatype Clearing = CLoad | CClear | CFlag

  datatype Thread =
    | Off
    | Writer(w: Writing, data: Data, h: bool, seen: nat)
    | Sender(s: Sending, h: bool, other: bool)
    | Completion(c: Clearing, h: bool)

  // `wire`: a send has been started and its completion is yet to be handled.  `completed` and `written`
  // are bookkeeping: the bytes of completed sends and of all writes, in the order they were copied.
  datatype State = State(
    locks: LockPair, halves: HalfPair, writing: bool, sending: bool, flag: bool, wire: bool,
    threads: seq<Thread>, completed: Data, written: Data)

  datatype Effect =
    | NoEffect
    | SetLock(h: bool, lock: Lock)
    | Promise(h: bool, more: nat)
    | Append(h: bool, data: Data)
    | SetFlag(to: bool)
    | SetWriting(to: bool)
    | SetSending(to: bool)
    | Empty(h: bool)
    | StartSend(h: bool)

  // ---------------------------------------------------------------- steps

  /** One step of `write`; `fits` says whether the buffer has room, which is not modelled here. */
  function DecideWrite(s: State, t: nat, th: Thread, fits: bool): (Effect, Thread)
    requires th.Writer?
  {
    var h := th.h;
    match th.w
    case WLoad => (NoEffect, th.(h := s.writing, w := WTry))
    case WTry =>
      if s.locks.Get(h) == Unlocked then (SetLock(h, Upgraded(t)), th.(w := WCheck)) else (NoEffect, th.(w := WLoad))
    case WCheck => (NoEffect, th.(w := if h != s.writing then WBack else WSlide))
    case WBack => (SetLock(h, Unlocked), th.(w := WLoad))
    case WSlide => (NoEffect, th.(seen := s.halves.Get(h).promised, w := WReserve))
    case WReserve =>
      if !fits then (SetLock(h, Owned(t)), th.(w := WOverflow))
      else if s.halves.Get(h).promised == th.seen then (Promise(h, |th.data|), th.(w := WCopy))
      else (NoEffect, th.(seen := s.halves.Get(h).promised))
    case WCopy => (Append(h, th.data), th.(w := WRelease))
    case WOverflow => (Promise(h, |th.data|), th.(w := WCopyAlone))
    case WCopyAlone => (Append(h, th.data), th.(w := WDowngrade))
    case WDowngrade => (SetLock(h, Upgraded(t)), th.(w := WRelease))
    case WRelease => (SetLock(h, Unlocked), Off)
  }

  /** One step of `send_buff`; `insist` says that the segment table has grown past 8 entries, so that the
      sender waits for the lock instead of giving up. */
  function DecideSend(s: State, t: nat, th: Thread, insist: bool): (Effect, Thread)
    requires th.Sender?
  {
    var h := th.h;
    match th.s
    case SLoad => (NoEffect, th.(h := s.writing, s := SLock))
    case SLock =>
      if s.locks.Get(h) == Unlocked then (SetLock(h, Owned(t)), th.(s := SFlag))
      else (NoEffect, if insist then th.(s := SInsist) else Off)
    case SInsist => (NoEffect, if h == s.writing then th.(s := SWait) else Off)
    case SWait => if s.locks.Get(h) == Unlocked then (SetLock(h, Owned(t)), th.(s := SFlag)) else (NoEffect, th)
    case SFlag => if s.flag then (NoEffect, th.(s := SLeave)) else (SetFlag(true), th.(s := SCheck))
    case SCheck => (NoEffect, th.(s := if h != s.writing then SClear else SEmpty))
    case SEmpty => (NoEffect, th.(s := if s.halves.Get(h).promised == 0 then SClear else SSwap))
    case SClear => (SetFlag(false), th.(s := SLeave))
    case SSwap => (NoEffect, th.(other := s.sending, s := SStore))
    case SStore => (SetWriting(th.other), th.(s := SStoreSend))
    case SStoreSend => (SetSending(h), th.(s := SGive))
    case SLeave => (SetLock(h, Unlocked), Off)
    case SGive => (StartSend(h), Off)
  }

  function DecideClear(s: State, th: Thread): (Effect, Thread)
    requires th.Completion?
  {
    match th.c
    case CLoad => (NoEffect, th.(h := s.sending, c := CClear))
    case CClear => (Empty(th.h), th.(c := CFlag))
    case CFlag => (SetFlag(false), Off)
  }

  function Decide(s: State, t: nat, th: Thread, choice: bool): (Effect, Thread) {
    match th
    case Off => (NoEffect, Off)
    case Writer(_, _, _, _) => DecideWrite(s, t, th, choice)
    case Sender(_, _, _) => DecideSend(s, t, th, choice)
    case Completion(_, _) => DecideClear(s, th)
  }

  function Perform(s: State, e: Effect): State {
    match e
    case NoEffect => s
    case SetLock(h, lock) => s.(locks := s.locks.Put(h, lock))
    case Promise(h, n) => s.(halves := s.halves.Put(h, s.halves.Get(h).(promised := s.halves.Get(h).promised + n)))
    case Append(h, d) =>
      s.(halves := s.halves.Put(h, s.halves.Get(h).(content := s.halves.Get(h).content + d)), written := s.written + d)
    case SetFlag(to) => s.(flag := to)
    case SetWriting(to) => s.(writing := to)
    case SetSending(to) => s.(sending := to)
    case Empty(h) => s.(halves := s.halves.Put(h, Half([], 0)), completed := s.completed + s.halves.Get(h).content)
    case StartSend(h) => s.(locks := s.locks.Put(h, Unlocked), wire := true)
  }

  datatype Action = Write(t: nat, data: Data) | Send(t: nat) | Complete(t: nat) | Step(t: nat, choice: bool)

  predicate Enabled(s: State, a: Action) {
    && a.t < |s.threads|
    && (!a.Step? ==> s.threads[a.t] == Off)
    && (a.Complete? ==> s.wire)
  }

  function Install(s: State, t: nat, e: Effect, th: Thread): State
    requires t < |s.threads|
  {
    Perform(s, e).(threads := s.threads[t := th])
  }

  function Apply(s: State, a: Action): State
    requires Enabled(s, a)
  {
    match a
    case Write(t, d) => Install(s, t, NoEffect, Writer(WLoad, d, false, 0))
    case Send(t) => Install(s, t, NoEffect, Sender(SLoad, false, false))
    case Complete(t) => Install(s, t, NoEffect, Completion(CLoad, false)).(wire := false)
    case Step(t, choice) => var (e, th) := Decide(s, t, s.threads[t], choice); Install(s, t, e, th)
  }

  predicate Init(s: State) {
    && s.locks == LockPair(Unlocked, Unlocked) && s.halves == HalfPair(Half([], 0), Half([], 0))
    && s.writing != s.sending && !s.flag && !s.wire && s.completed == [] && s.written == []
    && forall t | 0 <= t < |s.threads| :: s.threads[t] == Off
  }

  // ---------------------------------------------------------------- invariant

  // The lock a thread holds, as its program counter tells.
  predicate Upgrades(th: Thread, h: bool) {
    th.Writer? && th.h == h &&
    (th.w.WCheck? || th.w.WBack? || th.w.WSlide? || th.w.WReserve? || th.w.WCopy? || th.w.WRelease?)
  }

  predicate Owns(th: Thread, h: bool) {
    || (th.Writer? && th.h == h && (th.w.WOverflow? || th.w.WCopyAlone? || th.w.WDowngrade?))
    || (th.Sender? && th.h == h && !(th.s.SLoad? || th.s.SLock? || th.s.SInsist? || th.s.SWait?))
  }

  predicate LockAgrees(lock: Lock, th: Thread, t: nat, h: bool) {
    && (Upgrades(th, h) <==> lock == Upgraded(t))
    && (Owns(th, h) <==> lock == Owned(t))
  }

  predicate LockInRange(lock: Lock, n: nat) {
    lock.Unlocked? || lock.holder < n
  }

  ghost predicate Locks(s: State) {
    forall h: bool ::
      && LockInRange(s.locks.Get(h), |s.threads|)
      && forall t: nat | t < |s.threads| :: LockAgrees(s.locks.Get(h), s.threads[t], t, h)
  }

  // A thread in charge of the send flag.
  predicate HasFlag(th: Thread) {
    || th.Completion?
    || (th.Sender? && (th.s.SCheck? || th.s.SEmpty? || th.s.SClear? || th.s.SSwap? || th.s.SStore?
                       || th.s.SStoreSend? || th.s.SGive?))
  }

  // Between the two stores of send_buff both pointers name the same half.
  predicate MidSwap(th: Thread) { th.Sender? && th.s.SStoreSend? }

  // A half has been taken out of writing and its completion has not yet emptied it.
  predicate Carries(th: Thread) {
    MidSwap(th) || (th.Sender? && th.s.SGive?) || (th.Completion? && !th.c.CFlag?)
  }

  /** At most one thread, or the wire, is in charge of the flag, and exactly then it is set. */
  ghost predicate FlagOk(s: State) {
    && (forall t, u | 0 <= t < |s.threads| && 0 <= u < |s.threads| && t != u ::
          !(HasFlag(s.threads[t]) && HasFlag(s.threads[u])))
    && (forall t | 0 <= t < |s.threads| && HasFlag(s.threads[t]) :: s.flag && !s.wire)
    && (s.wire ==> s.flag)
  }

  // A writer that has passed the recheck of line 133 and not yet let go.
  predicate WritesTo(th: Thread) {
    th.Writer? && !(th.w.WLoad? || th.w.WTry? || th.w.WCheck? || th.w.WBack?)
  }

  // What a thread knows about the two pointers.
  predicate KnowsPointers(s: State, th: Thread) {
    && (WritesTo(th) ==> s.writing == th.h)
    && (th.Sender? && (th.s.SEmpty? || th.s.SSwap? || th.s.SStore?) ==> s.writing == th.h)
    && (th.Sender? && th.s.SStore? ==> th.other == s.sending)
    && (MidSwap(th) ==> s.writing == s.sending != th.h)
    && (th.Sender? && th.s.SGive? ==> s.sending == th.h)
    && (th.Completion? && th.c.CClear? ==> s.sending == th.h)
  }

  ghost predicate Pointers(s: State) {
    && (forall t | 0 <= t < |s.threads| :: KnowsPointers(s, s.threads[t]))
    && (s.writing == s.sending ==> exists t :: 0 <= t < |s.threads| && MidSwap(s.threads[t]))
  }

  predicate Copying(th: Thread) {
    th.Writer? && (th.w.WCopy? || th.w.WCopyAlone?)
  }

  // What a thread knows about the bytes of its half.
  predicate KnowsPromise(s: State, th: Thread) {
    && (Copying(th) ==> s.halves.Get(th.h).promised == |s.halves.Get(th.h).content| + |th.data|)
    && (WritesTo(th) && !Copying(th) ==> s.halves.Get(th.h).promised == |s.halves.Get(th.h).content|)
    && (th.Writer? && th.w.WReserve? ==> s.halves.Get(th.h).promised == th.seen)
  }

  ghost predicate SomebodyCopies(s: State, h: bool) {
    exists t :: 0 <= t < |s.threads| && Copying(s.threads[t]) && s.threads[t].h == h
  }

  ghost predicate InFlight(s: State) {
    s.wire || exists t :: 0 <= t < |s.threads| && Carries(s.threads[t])
  }

  ghost predicate Promises(s: State) {
    && (forall t | 0 <= t < |s.threads| :: KnowsPromise(s, s.threads[t]))
    && (forall h: bool :: !SomebodyCopies(s, h) ==> s.halves.Get(h).promised == |s.halves.Get(h).content|)
    && (!InFlight(s) ==> s.halves.Get(!s.writing) == Half([], 0))
  }

  /** Completed bytes, then bytes in flight, then bytes waiting, are all bytes ever written, in order. */
  predicate Conserved(s: State) {
    s.completed + s.halves.Get(!s.writing).content + s.halves.Get(s.writing).content == s.written
  }

  ghost predicate Inv(s: State) {
    Locks(s) && FlagOk(s) && Pointers(s) && Promises(s) && Conserved(s)
  }

  lemma InitHasInv(s: State)
    requires Init(s)
    ensures Inv(s)
  {
  }

  // ---------------------------------------------------------------- locks

  // What an effect of thread t may do to a lock: take it when free, or change its own.
  predicate LockMoves(lock: Lock, lock': Lock, t: nat) {
    lock' == lock || ((lock.Unlocked? || lock.holder == t) && (lock'.Unlocked? || lock'.holder == t))
  }

  predicate LockStep(s: State, t: nat, e: Effect, th': Thread, h: bool) {
    var lock' := Perform(s, e).locks.Get(h);
    LockMoves(s.locks.Get(h), lock', t) && LockAgrees(lock', th', t, h)
  }

  // A lock changes hands only where the program counter says so.
  predicate LockEffect(s: State, t: nat, th: Thread, e: Effect, th': Thread)
    requires th != Off
  {
    match e
    case SetLock(h, lock) =>
      && h == th.h && LockAgrees(lock, th', t, h) && !Upgrades(th', !h) && !Owns(th', !h)
      && (lock == Unlocked || lock.holder == t) && (s.locks.Get(h) == Unlocked || Upgrades(th, h) || Owns(th, h))
    case StartSend(h) => h == th.h && Owns(th, h) && th' == Off
    case _ => forall h: bool :: (Upgrades(th', h) <==> Upgrades(th, h)) && (Owns(th', h) <==> Owns(th, h))
  }

  lemma WriteLocks(s: State, t: nat, th: Thread, fits: bool)
    requires th.Writer?
    ensures var (e, th') := DecideWrite(s, t, th, fits); th != Off && LockEffect(s, t, th, e, th')
  {
  }

  lemma SendLocks(s: State, t: nat, th: Thread, insist: bool)
    requires th.Sender?
    ensures var (e, th') := DecideSend(s, t, th, insist); th != Off && LockEffect(s, t, th, e, th')
  {
  }

  lemma LockEffectIsStep(s: State, t: nat, th: Thread, e: Effect, th': Thread, h: bool)
    requires th != Off && LockEffect(s, t, th, e, th')
    requires LockAgrees(s.locks.Get(h), th, t, h)
    ensures LockStep(s, t, e, th', h)
  {
  }

  lemma InstallKeepsLocks(s: State, t: nat, e: Effect, th': Thread)
    requires Locks(s) && t < |s.threads| && forall h: bool :: LockStep(s, t, e, th', h)
    ensures Locks(Install(s, t, e, th'))
  {
    forall h: bool, u: nat | u < |s.threads| && u != t
      ensures LockAgrees(Perform(s, e).locks.Get(h), s.threads[u], u, h)
    {
      assert LockAgrees(s.locks.Get(h), s.threads[u], u, h);
      assert LockMoves(s.locks.Get(h), Perform(s, e).locks.Get(h), t);
    }
    assert LockStep(s, t, e, th', false) && LockStep(s, t, e, th', true);
  }

  // ---------------------------------------------------------------- flag and pointers

  predicate FlagStep(s: State, th: Thread, e: Effect, th': Thread) {
    && (HasFlag(th') && !HasFlag(th) ==> e == SetFlag(true))
    && (HasFlag(th) && !HasFlag(th') ==> e == SetFlag(false) || e.StartSend?)
    && (e == SetFlag(true) ==> !s.flag && HasFlag(th'))
    && (e == SetFlag(false) || e.StartSend? ==> HasFlag(th) && !HasFlag(th'))
  }

  lemma DecideFlag(s: State, t: nat, th: Thread, choice: bool)
    ensures var (e, th') := Decide(s, t, th, choice); FlagStep(s, th, e, th')
  {
  }

  lemma InstallKeepsFlag(s: State, t: nat, e: Effect, th': Thread)
    requires FlagOk(s) && t < |s.threads| && FlagStep(s, s.threads[t], e, th')
    ensures FlagOk(Install(s, t, e, th'))
  {
  }

  // Two threads cannot both hold the lock of one half.
  lemma LockIsExclusive(s: State, t: nat, u: nat, h: bool)
    requires Locks(s) && t < |s.threads| && u < |s.threads| && t != u
    requires Upgrades(s.threads[t], h) || Owns(s.threads[t], h)
    ensures !Upgrades(s.threads[u], h) && !Owns(s.threads[u], h)
  {
    assert LockAgrees(s.locks.Get(h), s.threads[t], t, h);
    assert LockAgrees(s.locks.Get(h), s.threads[u], u, h);
  }

  // Why each effect is allowed.
  predicate EffectOk(s: State, th: Thread, e: Effect) {
    match e
    case Promise(h, n) => WritesTo(th) && !Copying(th) && h == th.h && n == |th.data|
    case Append(h, d) => Copying(th) && h == th.h && d == th.data
    case SetWriting(to) => th.Sender? && th.s.SStore? && to == th.other
    case SetSending(to) => MidSwap(th) && to == th.h
    case Empty(h) => th.Completion? && th.c.CClear? && h == th.h
    case _ => true
  }

  lemma DecideEffect(s: State, t: nat, th: Thread, choice: bool)
    ensures EffectOk(s, th, Decide(s, t, th, choice).0)
  {
  }

  lemma WriteKnowsPointers(s: State, t: nat, th: Thread, fits: bool)
    requires th.Writer? && KnowsPointers(s, th)
    ensures var (e, th') := DecideWrite(s, t, th, fits); KnowsPointers(Perform(s, e), th')
  {
  }

  lemma SendKnowsPointers(s: State, t: nat, th: Thread, insist: bool)
    requires th.Sender? && KnowsPointers(s, th) && (s.writing == s.sending ==> MidSwap(th) || !HasFlag(th))
    ensures var (e, th') := DecideSend(s, t, th, insist); KnowsPointers(Perform(s, e), th')
  {
  }

  // The pointers move only under a sender that holds both the flag and the lock of the current half.
  lemma OthersKnowPointers(s: State, t: nat, e: Effect, u: nat)
    requires Locks(s) && FlagOk(s) && Pointers(s) && t < |s.threads| && u < |s.threads| && t != u
    requires EffectOk(s, s.threads[t], e)
    ensures KnowsPointers(Perform(s, e), s.threads[u])
  {
    assert KnowsPointers(s, s.threads[u]) && KnowsPointers(s, s.threads[t]);
    if e.SetWriting? {
      LockIsExclusive(s, t, u, s.writing);
    }
  }

  lemma InstallKeepsPointers(s: State, t: nat, e: Effect, th': Thread)
    requires Locks(s) && FlagOk(s) && Pointers(s) && t < |s.threads|
    requires EffectOk(s, s.threads[t], e) && FlagStep(s, s.threads[t], e, th')
    requires KnowsPointers(Perform(s, e), th')
    requires e.SetWriting? ==> MidSwap(th')
    requires MidSwap(s.threads[t]) ==> e == SetSending(s.threads[t].h)
    ensures Pointers(Install(s, t, e, th'))
  {
    var s' := Install(s, t, e, th');
    forall u | 0 <= u < |s.threads| && u != t
      ensures KnowsPointers(s', s.threads[u])
    {
      OthersKnowPointers(s, t, e, u);
    }
    if s'.writing == s'.sending {
      assert KnowsPointers(s, s.threads[t]);
      if e.SetWriting? {
        assert MidSwap(s'.threads[t]);
      } else if !e.SetSending? {
        var u :| 0 <= u < |s.threads| && MidSwap(s.threads[u]);
        assert MidSwap(s'.threads[u]);
      }
    }
  }

  // ---------------------------------------------------------------- bytes

  // Between the recheck and the release a writer raises the promise by its bytes and then copies them.
  predicate PromiseStep(s: State, th: Thread, e: Effect, th': Thread)
    requires th.Writer?
  {
    && (Copying(th') ==> e == Promise(th.h, |th.data|) && th'.h == th.h && th'.data == th.data)
    && (Copying(th) ==> e == Append(th.h, th.data))
    && (WritesTo(th') ==> th'.h == th.h && (WritesTo(th) || th.w.WCheck?))
    && (th'.Writer? && th'.w.WReserve? ==> e == NoEffect && s.halves.Get(th.h).promised == th'.seen)
    && (e.Promise? ==> Copying(th'))
    && (e.Append? ==> Copying(th))
    && !e.Empty?
  }

  lemma WritePromiseStep(s: State, t: nat, th: Thread, fits: bool)
    requires th.Writer?
    requires th.w.WReserve? ==> s.halves.Get(th.h).promised == th.seen
    ensures var (e, th') := DecideWrite(s, t, th, fits); PromiseStep(s, th, e, th')
  {
  }

  lemma PromiseStepKnows(s: State, th: Thread, e: Effect, th': Thread)
    requires th.Writer? && KnowsPromise(s, th) && PromiseStep(s, th, e, th') && EffectOk(s, th, e)
    requires th.w.WCheck? ==> s.halves.Get(th.h).promised == |s.halves.Get(th.h).content|
    ensures KnowsPromise(Perform(s, e), th')
  {
  }

  // Writers work on the current half, one at a time; the completion works on the other.
  lemma OthersKnowPromise(s: State, t: nat, e: Effect, u: nat)
    requires Locks(s) && FlagOk(s) && Pointers(s) && Promises(s)
    requires t < |s.threads| && u < |s.threads| && t != u && EffectOk(s, s.threads[t], e)
    ensures KnowsPromise(Perform(s, e), s.threads[u])
  {
    assert KnowsPromise(s, s.threads[u]) && KnowsPointers(s, s.threads[u]) && KnowsPointers(s, s.threads[t]);
    if e.Promise? || e.Append? {
      LockIsExclusive(s, t, u, s.writing);
    }
  }

  // An effect that changes no half's bytes or promises leaves their equality alone; the others restore it.
  lemma InstallKeepsEquality(s: State, t: nat, e: Effect, th': Thread, h: bool)
    requires Promises(s) && t < |s.threads| && EffectOk(s, s.threads[t], e)
    requires s.threads[t].Writer? ==> PromiseStep(s, s.threads[t], e, th')
    requires !s.threads[t].Writer? ==> !th'.Writer? || e == NoEffect
    requires !SomebodyCopies(Install(s, t, e, th'), h)
    ensures var half := Perform(s, e).halves.Get(h); half.promised == |half.content|
  {
    var s' := Install(s, t, e, th');
    assert KnowsPromise(s, s.threads[t]);
    assert s'.threads[t] == th' && !(Copying(th') && th'.h == h);
    assert forall u | 0 <= u < |s.threads| && u != t :: s'.threads[u] == s.threads[u];
    if !(Copying(s.threads[t]) && s.threads[t].h == h) {
      OnlyStepperStopsCopying(s, s', t, h);
    }
  }

  lemma OnlyStepperStopsCopying(s: State, s': State, t: nat, h: bool)
    requires t < |s.threads| == |s'.threads| && !(Copying(s.threads[t]) && s.threads[t].h == h)
    requires forall u | 0 <= u < |s.threads| && u != t :: s'.threads[u] == s.threads[u]
    ensures SomebodyCopies(s, h) ==> SomebodyCopies(s', h)
  {
    if u :| 0 <= u < |s.threads| && Copying(s.threads[u]) && s.threads[u].h == h {
      assert s'.threads[u] == s.threads[u];
    }
  }

  predicate CarryStep(th: Thread, e: Effect, th': Thread) {
    && (Carries(th) && !Carries(th') ==> e.StartSend? || e.Empty?)
    && (e.SetWriting? ==> Carries(th'))
  }

  lemma DecideCarry(s: State, t: nat, th: Thread, choice: bool)
    ensures var (e, th') := Decide(s, t, th, choice); CarryStep(th, e, th')
  {
  }

  // The half that is not being written stays empty until a sender swaps, and is emptied before the next.
  lemma InstallKeepsIdleEmpty(s: State, t: nat, e: Effect, th': Thread)
    requires Pointers(s) && Promises(s) && FlagOk(s) && t < |s.threads| && EffectOk(s, s.threads[t], e)
    requires CarryStep(s.threads[t], e, th')
    requires !InFlight(Install(s, t, e, th'))
    ensures var m := Perform(s, e); m.halves.Get(!m.writing) == Half([], 0)
  {
    var s', m := Install(s, t, e, th'), Perform(s, e);
    assert s'.threads[t] == th' && !Carries(th');
    assert KnowsPointers(s, s.threads[t]);
    if e.Empty? {
      assert s.writing != s.sending;
    } else {
      FlightContinues(s, t, e, th');
    }
  }

  lemma FlightContinues(s: State, t: nat, e: Effect, th': Thread)
    requires t < |s.threads| && CarryStep(s.threads[t], e, th') && !e.Empty?
    ensures InFlight(s) ==> InFlight(Install(s, t, e, th'))
  {
    var s' := Install(s, t, e, th');
    if u :| 0 <= u < |s.threads| && Carries(s.threads[u]) {
      if u != t || !e.StartSend? { assert Carries(s'.threads[u]); }
    }
  }

  lemma StepperKnowsPromise(s: State, t: nat, e: Effect, th': Thread)
    requires Locks(s) && Promises(s) && t < |s.threads| && s.threads[t].Writer?
    requires EffectOk(s, s.threads[t], e) && PromiseStep(s, s.threads[t], e, th')
    ensures KnowsPromise(Perform(s, e), th')
  {
    var th := s.threads[t];
    if th.w.WCheck? {
      forall u | 0 <= u < |s.threads| && u != t
        ensures !(Copying(s.threads[u]) && s.threads[u].h == th.h)
      {
        LockIsExclusive(s, t, u, th.h);
      }
      assert !SomebodyCopies(s, th.h);
    }
    assert KnowsPromise(s, th);
    PromiseStepKnows(s, th, e, th');
  }

  lemma InstallKeepsPromises(s: State, t: nat, e: Effect, th': Thread)
    requires Locks(s) && FlagOk(s) && Pointers(s) && Promises(s) && t < |s.threads|
    requires EffectOk(s, s.threads[t], e) && CarryStep(s.threads[t], e, th')
    requires s.threads[t].Writer? ==> PromiseStep(s, s.threads[t], e, th')
    requires !s.threads[t].Writer? ==> !th'.Writer? || (e == NoEffect && th'.w.WLoad?)
    ensures Promises(Install(s, t, e, th'))
  {
    var th, s' := s.threads[t], Install(s, t, e, th');
    if th.Writer? { StepperKnowsPromise(s, t, e, th'); }
    forall u | 0 <= u < |s.threads| && u != t
      ensures KnowsPromise(s', s.threads[u])
    {
      OthersKnowPromise(s, t, e, u);
    }
    forall h: bool | !SomebodyCopies(s', h)
      ensures s'.halves.Get(h).promised == |s'.halves.Get(h).content|
    {
      InstallKeepsEquality(s, t, e, th', h);
    }
    if !InFlight(s') { InstallKeepsIdleEmpty(s, t, e, th'); }
  }

  lemma InstallKeepsConserved(s: State, t: nat, e: Effect, th': Thread)
    requires FlagOk(s) && Pointers(s) && Promises(s) && Conserved(s) && t < |s.threads|
    requires EffectOk(s, s.threads[t], e)
    ensures Conserved(Install(s, t, e, th'))
  {
    var s' := Install(s, t, e, th');
    assert KnowsPointers(s, s.threads[t]);
    match e
    case Append(h, d) =>
      assert s.completed + s.halves.Get(!h).content + (s.halves.Get(h).content + d)
          == (s.completed + s.halves.Get(!h).content + s.halves.Get(h).content) + d;
    case Empty(h) =>
      assert s.writing != s.sending;
      assert s'.completed + [] == s.completed + s.halves.Get(h).content;
    case SetWriting(to) =>
      assert !InFlight(s);
      assert s.completed + [] + s.halves.Get(s.writing).content == s.completed + s.halves.Get(s.writing).content + [];
    case _ =>
  }

  // ---------------------------------------------------------------- every run

  lemma StepKeepsInv(s: State, t: nat, choice: bool)
    requires Inv(s) && t < |s.threads|
    ensures var (e, th') := Decide(s, t, s.threads[t], choice); Inv(Install(s, t, e, th'))
  {
    var th := s.threads[t];
    var (e, th') := Decide(s, t, th, choice);
    DecideFlag(s, t, th, choice);
    DecideEffect(s, t, th, choice);
    StepKeepsLocks(s, t, choice);
    InstallKeepsFlag(s, t, e, th');
    StepKeepsPointers(s, t, choice);
    StepKeepsPromises(s, t, choice);
    InstallKeepsConserved(s, t, e, th');
  }

  lemma StepKeepsPromises(s: State, t: nat, choice: bool)
    requires Locks(s) && FlagOk(s) && Pointers(s) && Promises(s) && t < |s.threads|
    ensures var (e, th') := Decide(s, t, s.threads[t], choice); Promises(Install(s, t, e, th'))
  {
    var th := s.threads[t];
    var (e, th') := Decide(s, t, th, choice);
    DecideEffect(s, t, th, choice);
    DecideCarry(s, t, th, choice);
    assert KnowsPromise(s, th);
    DecidePromises(s, t, th, choice);
    InstallKeepsPromises(s, t, e, th');
  }

  lemma DecidePromises(s: State, t: nat, th: Thread, choice: bool)
    requires th.Writer? && th.w.WReserve? ==> s.halves.Get(th.h).promised == th.seen
    ensures var (e, th') := Decide(s, t, th, choice);
      if th.Writer? then PromiseStep(s, th, e, th') else !th'.Writer? || (e == NoEffect && th'.w.WLoad?)
  {
    if th.Writer? { WritePromiseStep(s, t, th, choice); }
  }

  lemma StepKeepsLocks(s: State, t: nat, choice: bool)
    requires Locks(s) && t < |s.threads|
    ensures var (e, th') := Decide(s, t, s.threads[t], choice); Locks(Install(s, t, e, th'))
  {
    var th := s.threads[t];
    var (e, th') := Decide(s, t, th, choice);
    if th != Off {
      if th.Writer? { WriteLocks(s, t, th, choice); }
      if th.Sender? { SendLocks(s, t, th, choice); }
      forall h: bool
        ensures LockStep(s, t, e, th', h)
      {
        assert LockAgrees(s.locks.Get(h), th, t, h);
        LockEffectIsStep(s, t, th, e, th', h);
      }
      InstallKeepsLocks(s, t, e, th');
    } else {
      assert Install(s, t, e, th') == s;
    }
  }

  lemma StepKeepsPointers(s: State, t: nat, choice: bool)
    requires Locks(s) && FlagOk(s) && Pointers(s) && t < |s.threads|
    ensures var (e, th') := Decide(s, t, s.threads[t], choice); Pointers(Install(s, t, e, th'))
  {
    var th := s.threads[t];
    var (e, th') := Decide(s, t, th, choice);
    DecideFlag(s, t, th, choice);
    DecideEffect(s, t, th, choice);
    assert KnowsPointers(s, th);
    if th.Writer? { WriteKnowsPointers(s, t, th, choice); }
    if th.Sender? {
      if s.writing == s.sending && HasFlag(th) {
        var u :| 0 <= u < |s.threads| && MidSwap(s.threads[u]);
        assert u == t;
      }
      SendKnowsPointers(s, t, th, choice);
    }
    InstallKeepsPointers(s, t, e, th');
  }

  predicate Starts(s: State, s': State, t: nat, th': Thread) {
    && t < |s.threads| && s.threads[t] == Off
    && s' == s.(threads := s.threads[t := th'], wire := s'.wire)
    && ((s'.wire == s.wire && !HasFlag(th')) || (s.wire && !s'.wire && th' == Completion(CLoad, false)))
    && !WritesTo(th') && !MidSwap(th') && (th'.Sender? ==> th'.s.SLoad?) && (th'.Writer? ==> th'.w.WLoad?)
  }

  lemma StartKeepsLocks(s: State, s': State, t: nat, th': Thread)
    requires Locks(s) && FlagOk(s) && Starts(s, s', t, th')
    ensures Locks(s') && FlagOk(s')
  {
    forall h: bool
      ensures LockStep(s, t, NoEffect, th', h)
    {
      assert LockAgrees(s.locks.Get(h), Off, t, h);
    }
    InstallKeepsLocks(s, t, NoEffect, th');
  }

  lemma StartKeepsPointers(s: State, s': State, t: nat, th': Thread)
    requires Pointers(s) && Starts(s, s', t, th')
    ensures Pointers(s')
  {
    StartKeepsWitnesses(s, s', t);
    assert s'.threads[t] == th';
  }

  lemma StartKeepsPromises(s: State, s': State, t: nat, th': Thread)
    requires Promises(s) && Starts(s, s', t, th')
    ensures Promises(s')
  {
    StartKeepsWitnesses(s, s', t);
    assert s'.threads[t] == th';
  }

  lemma StartKeepsInv(s: State, a: Action)
    requires Inv(s) && Enabled(s, a) && !a.Step?
    ensures Inv(Apply(s, a))
  {
    var s', t := Apply(s, a), a.t;
    StartKeepsLocks(s, s', t, s'.threads[t]);
    StartKeepsPointers(s, s', t, s'.threads[t]);
    StartKeepsPromises(s, s', t, s'.threads[t]);
  }

  lemma StartKeepsWitnesses(s: State, s': State, t: nat)
    requires t < |s.threads| == |s'.threads| && s.threads[t] == Off
    requires forall u | 0 <= u < |s.threads| && u != t :: s'.threads[u] == s.threads[u]
    ensures forall h: bool :: SomebodyCopies(s, h) ==> SomebodyCopies(s', h)
    ensures (exists u :: 0 <= u < |s.threads| && MidSwap(s.threads[u])) ==>
      exists u :: 0 <= u < |s'.threads| && MidSwap(s'.threads[u])
    ensures (exists u :: 0 <= u < |s.threads| && Carries(s.threads[u])) ==>
      exists u :: 0 <= u < |s'.threads| && Carries(s'.threads[u])
  {
    forall h: bool | SomebodyCopies(s, h)
      ensures SomebodyCopies(s', h)
    {
      var u :| 0 <= u < |s.threads| && Copying(s.threads[u]) && s.threads[u].h == h;
      assert Copying(s'.threads[u]) && s'.threads[u].h == h;
    }
    if u :| 0 <= u < |s.threads| && MidSwap(s.threads[u]) { assert MidSwap(s'.threads[u]); }
    if u :| 0 <= u < |s.threads| && Carries(s.threads[u]) { assert Carries(s'.threads[u]); }
  }

  /** Every step of every writer, sender and completion keeps the invariant. */
  lemma ApplyKeepsInv(s: State, a: Action)
    requires Inv(s) && Enabled(s, a)
    ensures Inv(Apply(s, a))
  {
    if a.Step? { StepKeepsInv(s, a.t, a.choice); } else { StartKeepsInv(s, a); }
  }

  ghost predicate IsRun(run: seq<State>, actions: seq<Action>) {
    && |run| == |actions| + 1 && Init(run[0])
    && forall i | 0 <= i < |actions| :: Enabled(run[i], actions[i]) && run[i + 1] == Apply(run[i], actions[i])
  }

  lemma {:induction false} RunsKeepInv(run: seq<State>, actions: seq<Action>, i: nat)
    requires IsRun(run, actions) && i < |run|
    ensures Inv(run[i])
  {
    if i == 0 {
      InitHasInv(run[0]);
    } else {
      RunsKeepInv(run, actions, i - 1);
      ApplyKeepsInv(run[i - 1], actions[i - 1]);
    }
  }

  /** In every state of every run: whoever is about to copy bytes works on the half that is current, alone;
      the compare-exchange of line 175 cannot fail; and the bytes of completed sends, of the send in flight
      and of the current half are exactly the bytes written so far, in order. */
  lemma CopiesGoToCurrentHalf(run: seq<State>, actions: seq<Action>, i: nat, t: nat, u: nat)
    requires IsRun(run, actions) && i < |run| && t < |run[i].threads| && u < |run[i].threads|
    requires WritesTo(run[i].threads[t])
    ensures run[i].threads[t].h == run[i].writing
    ensures WritesTo(run[i].threads[u]) ==> u == t
    ensures run[i].threads[t].w.WReserve? ==> run[i].threads[t].seen == run[i].halves.Get(run[i].writing).promised
    ensures Conserved(run[i])
  {
    RunsKeepInv(run, actions, i);
    var s := run[i];
    assert KnowsPointers(s, s.threads[t]) && KnowsPointers(s, s.threads[u]) && KnowsPromise(s, s.threads[t]);
    if t != u { LockIsExclusive(s, t, u, s.writing); }
  }

  /** A half that is not current is touched by no step except the completion that empties it; in
      particular a half being sent holds exactly the bytes it promised until its completion. */
  lemma HalfInFlightIsFrozen(run: seq<State>, actions: seq<Action>, i: nat)
    requires IsRun(run, actions) && i < |actions|
    ensures var s, s', h := run[i], run[i + 1], !run[i].writing;
      s'.halves.Get(h) == s.halves.Get(h)
      || (s.threads[actions[i].t] == Completion(CClear, h) && s'.completed == s.completed + s.halves.Get(h).content)
    ensures var half := run[i].halves.Get(!run[i].writing); half.promised == |half.content|
  {
    RunsKeepInv(run, actions, i);
    var s, a := run[i], actions[i];
    assert s.writing == s.sending ==> exists u :: 0 <= u < |s.threads| && MidSwap(s.threads[u]);
    assert KnowsPointers(s, s.threads[a.t]);
    if a.Step? { DecideEffect(s, a.t, s.threads[a.t], a.choice); }
    NobodyCopiesElsewhere(s);
  }

  lemma NobodyCopiesElsewhere(s: State)
    requires Inv(s)
    ensures !SomebodyCopies(s, !s.writing)
  {
    forall u | 0 <= u < |s.threads|
      ensures !(Copying(s.threads[u]) && s.threads[u].h == !s.writing)
    {
      assert KnowsPointers(s, s.threads[u]);
    }
  }

  /** When nothing is under way every written byte has been sent or waits in the current half. */
  lemma QuietMeansSentOrWaiting(run: seq<State>, actions: seq<Action>, i: nat)
    requires IsRun(run, actions) && i < |run| && !run[i].wire
    requires forall t | 0 <= t < |run[i].threads| :: run[i].threads[t] == Off
    ensures run[i].completed + run[i].halves.Get(run[i].writing).content == run[i].written
  {
    RunsKeepInv(run, actions, i);
    assert !InFlight(run[i]);
    assert run[i].completed + [] == run[i].completed;
  }
}
