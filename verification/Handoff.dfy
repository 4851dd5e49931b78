/** How a chunk passes from its owning micro heap to whoever frees its last block:
    `count` and `rec_flag` of pool/chunk.cpp and pool/mirco_mempage_heap.cpp, one atomic access a step.

    One life of one chunk, from being handed to a micro heap until it is recovered; one owner and any
    number of threads that free blocks. */
module Handoff {
  // Which retire decision the owner takes: lines 27-43, 44-57 or 67-82 of mirco_mempage_heap.cpp.
  datatype Kind = Fits | Grows | Small

  datatype Owner =
    | Using                   // the chunk is the micro heap's current one
    | Bumped                  // count raised, room not yet checked (chunk.cpp:61)
    | Deciding(kind: Kind)    // about to load count (29, 45, 68)
    | Offering(kind: Kind)    // about to store rec_flag = 1 (33, 48, 69)
    | Rechecking(kind: Kind)  // about to load count again (35, 50, 70)
    | Claiming(kind: Kind)    // about to exchange rec_flag (36, 51, 72)
    | Gone                    // the micro heap has another chunk

  // A live block is known by how many had been granted before it.  A freer between its decrement to zero and its
  // exchange remembers how many had been granted then.
  datatype Freer = Idle | AtClaim(stamp: nat)

  datatype Place = Active | Retired | Stored

  // `granted`, `offers`, `wins`, `recoveries` and `slipped` are bookkeeping no thread reads; `slipped` tells
  // whether an exchange has failed without cause since one last won and since the count last reached zero.
  datatype State = State(
    count: int, live: set<nat>, rec: int, place: Place, owner: Owner, freers: seq<Freer>,
    granted: nat, offers: nat, wins: nat, recoveries: nat, slipped: bool)

  datatype Action =
    | Malloc
    | Bump(fits: bool, kind: Kind)
    | Decide(weak: bool)            // the next access of the retire decision
    | Decrement(i: nat, b: nat)     // chunk.cpp:114
    | Claim(i: nat, weak: bool)     // chunk.cpp:116
    | Free(i: nat, b: nat)          // both at once

  predicate Enabled(s: State, a: Action) {
    match a
    case Malloc => s.owner == Using
    case Bump(_, _) => s.owner == Bumped
    case Decide(_) => s.owner.Deciding? || s.owner.Offering? || s.owner.Rechecking? || s.owner.Claiming?
    case Decrement(i, b) => i < |s.freers| && s.freers[i] == Idle && b in s.live
    case Claim(i, _) => i < |s.freers| && s.freers[i].AtClaim?
    case Free(i, b) => i < |s.freers| && s.freers[i] == Idle && b in s.live
  }

  function Recovered(s: State): State {
    s.(place := Stored, recoveries := s.recoveries + 1)
  }

  function Leave(s: State): State {
    s.(owner := Gone, place := if s.place == Active then Retired else s.place)
  }

  function OwnerStep(s: State, weak: bool): State {
    match s.owner
    case Deciding(kind) =>
      if s.count != 0 then s.(owner := Offering(kind))
      else if kind == Grows then Recovered(s).(owner := Gone)
      else s.(owner := Using)
    case Offering(kind) => s.(rec := 1, offers := s.offers + 1, owner := Rechecking(kind))
    case Rechecking(kind) => if s.count == 0 then s.(owner := Claiming(kind)) else Leave(s)
    case Claiming(kind) =>
      if s.rec == 1 && !weak then
        if kind == Grows then Recovered(s).(rec := 2, wins := s.wins + 1, owner := Gone, slipped := false)
        else s.(rec := 0, wins := s.wins + 1, owner := Using, slipped := false)
      else Leave(s).(slipped := s.slipped || s.rec == 1)
    case _ => s
  }

  function DecrementStep(s: State, i: nat, b: nat): State
    requires i < |s.freers|
  {
    s.(count := s.count - 1, live := s.live - {b},
       freers := s.freers[i := if s.count == 1 then AtClaim(s.granted) else Idle], slipped := s.slipped && s.count != 1)
  }

  function ClaimStep(s: State, i: nat, weak: bool): State
    requires i < |s.freers|
  {
    var s' := s.(freers := s.freers[i := Idle]);
    if s.rec == 1 && !weak then Recovered(s').(rec := 2, wins := s.wins + 1, slipped := false)
    else s'.(slipped := s.slipped || s.rec == 1)
  }

  function Apply(s: State, a: Action): State
    requires Enabled(s, a)
  {
    match a
    case Malloc => s.(count := s.count + 1, owner := Bumped)
    case Bump(fits, kind) =>
      if fits then s.(live := s.live + {s.granted}, granted := s.granted + 1, owner := Using)
      else s.(count := s.count - 1, owner := Deciding(kind))
    case Decide(weak) => OwnerStep(s, weak)
    case Decrement(i, b) => DecrementStep(s, i, b)
    case Claim(i, weak) => ClaimStep(s, i, weak)
    case Free(i, b) =>
      var s' := DecrementStep(s, i, b);
      if s'.freers[i].AtClaim? then ClaimStep(s', i, false) else s'
  }

  // What `_chunk` hands out.
  predicate Init(s: State) {
    && s.count == s.rec == 0 && s.live == {} && s.place == Active && s.owner == Using
    && (forall i | 0 <= i < |s.freers| :: s.freers[i] == Idle)
    && s.granted == s.offers == s.wins == s.recoveries == 0 && !s.slipped
  }

  ghost predicate IsRun(run: seq<State>, actions: seq<Action>) {
    && |run| == |actions| + 1 && Init(run[0])
    && forall i | 0 <= i < |actions| :: Enabled(run[i], actions[i]) && run[i + 1] == Apply(run[i], actions[i])
  }

  // ---------------------------------------------------------------- every interleaving

  predicate OwnerStands(s: State) {
    match s.owner
    case Gone => s.place != Active
    case Rechecking(_) => s.place != Retired
    case Claiming(_) => s.place != Retired && s.count == 0
    case _ => s.place == Active && s.rec == 0
  }

  predicate Inv(s: State) {
    && s.count == |s.live| + (if s.owner == Bumped then 1 else 0) && (forall b | b in s.live :: b < s.granted)
    && 0 <= s.rec <= 2
    && s.offers == s.wins + (if s.rec == 1 then 1 else 0)
    && s.recoveries == (if s.place == Stored then 1 else 0)
    && OwnerStands(s)
    && (s.place == Active && (s.owner.Rechecking? || s.owner.Claiming?) ==> s.rec == 1)
    && (s.place == Retired ==> s.rec == 1)
    && (s.place == Stored ==> s.rec != 1)
    && (s.slipped ==> s.rec == 1)
  }

  // A freer waits to claim whenever the owner has left, the offer stands and the count is zero.
  ghost predicate SomebodyClaims(s: State) {
    s.owner == Gone && s.rec == 1 && s.count == 0 && !s.slipped ==>
      exists i :: 0 <= i < |s.freers| && s.freers[i].AtClaim?
  }

  // Whatever is live was granted after any of the freers saw the count reach zero.
  ghost predicate StampsOk(s: State) {
    forall i | 0 <= i < |s.freers| && s.freers[i].AtClaim? ::
      s.freers[i].stamp <= s.granted && forall b | b in s.live :: s.freers[i].stamp <= b
  }

  lemma LiveAreCounted(s: State)
    requires Inv(s)
    ensures s.count == 0 ==> s.live == {}
  {
  }

  lemma ApplyKeepsInv(s: State, a: Action)
    requires Inv(s) && SomebodyClaims(s) && StampsOk(s) && Enabled(s, a)
    ensures Inv(Apply(s, a)) && StampsOk(Apply(s, a))
  {
    match a
    case Malloc =>
    case Bump(fits, kind) => BumpKeepsInv(s, fits, kind);
    case Decide(weak) => DecideKeepsInv(s, weak);
    case Decrement(i, b) => DecrementKeepsInv(s, i, b);
    case Claim(i, weak) => ClaimKeepsInv(s, i, weak);
    case Free(i, b) =>
      DecrementKeepsInv(s, i, b);
      if DecrementStep(s, i, b).freers[i].AtClaim? { ClaimKeepsInv(DecrementStep(s, i, b), i, false); }
  }

  lemma BumpKeepsInv(s: State, fits: bool, kind: Kind)
    requires Inv(s) && StampsOk(s) && s.owner == Bumped
    ensures Inv(Apply(s, Bump(fits, kind))) && StampsOk(Apply(s, Bump(fits, kind)))
  {
    assert s.granted !in s.live;
  }

  lemma DecideKeepsInv(s: State, weak: bool)
    requires Inv(s) && StampsOk(s) && Enabled(s, Decide(weak))
    ensures Inv(OwnerStep(s, weak)) && StampsOk(OwnerStep(s, weak))
  {
  }

  lemma ClaimKeepsInv(s: State, i: nat, weak: bool)
    requires Inv(s) && StampsOk(s) && Enabled(s, Claim(i, weak))
    ensures Inv(ClaimStep(s, i, weak)) && StampsOk(ClaimStep(s, i, weak))
  {
  }

  lemma DecrementKeepsInv(s: State, i: nat, b: nat)
    requires Inv(s) && StampsOk(s) && i < |s.freers| && s.freers[i] == Idle && b in s.live
    ensures Inv(DecrementStep(s, i, b)) && StampsOk(DecrementStep(s, i, b))
    ensures s.count == 1 ==> DecrementStep(s, i, b).live == {}
  {
    assert |s.live - {b}| == |s.live| - 1;
  }

  lemma ApplyKeepsClaims(s: State, a: Action)
    requires Inv(s) && SomebodyClaims(s) && Enabled(s, a)
    ensures SomebodyClaims(Apply(s, a))
  {
    var s' := Apply(s, a);
    if s'.owner == Gone && s'.rec == 1 && s'.count == 0 && !s'.slipped {
      if a.Decrement? {
        assert s'.freers[a.i].AtClaim?;
      }
    }
  }

  lemma {:induction false} RunsKeepInv(run: seq<State>, actions: seq<Action>, i: nat)
    requires IsRun(run, actions) && i < |run|
    ensures Inv(run[i]) && SomebodyClaims(run[i]) && StampsOk(run[i])
  {
    if i > 0 {
      RunsKeepInv(run, actions, i - 1);
      ApplyKeepsInv(run[i - 1], actions[i - 1]);
      ApplyKeepsClaims(run[i - 1], actions[i - 1]);
    }
  }

  /** Whatever the interleaving, every `rec_flag = 1` is answered at most once (all but a standing one
      exactly once), the chunk is recovered at most once, and after that its owner never grants from it. */
  lemma OneWinnerPerOffer(run: seq<State>, actions: seq<Action>, i: nat)
    requires IsRun(run, actions) && i < |run|
    ensures run[i].offers == run[i].wins + (if run[i].rec == 1 then 1 else 0)
    ensures run[i].recoveries <= 1
    ensures run[i].recoveries == 1 ==> run[i].owner.Rechecking? || run[i].owner.Claiming? || run[i].owner == Gone
  {
    RunsKeepInv(run, actions, i);
  }

  /** Once the owner has left and no freer is between its two accesses, a chunk without live blocks has been
      recovered if and only if no exchange has failed without cause since the count reached zero: then, and only
      then, the chunk is forgotten. */
  lemma ForgottenIffSlipped(run: seq<State>, actions: seq<Action>, i: nat)
    requires IsRun(run, actions) && i < |run|
    requires run[i].owner == Gone && run[i].live == {}
    requires forall k | 0 <= k < |run[i].freers| :: run[i].freers[k] == Idle
    ensures run[i].place == Stored <==> !run[i].slipped
    ensures run[i].recoveries == if run[i].slipped then 0 else 1
  {
    RunsKeepInv(run, actions, i);
  }

  predicate IsWeak(a: Action) { (a.Decide? || a.Claim?) && a.weak }

  lemma {:induction false} StrongNeverSlips(run: seq<State>, actions: seq<Action>, i: nat)
    requires IsRun(run, actions) && i < |run| && forall k | 0 <= k < |actions| :: !IsWeak(actions[k])
    ensures !run[i].slipped
  {
    if i > 0 { StrongNeverSlips(run, actions, i - 1); }
  }

  /** If no exchange ever fails without cause, such a chunk has been recovered, once. */
  lemma StrongNeverForget(run: seq<State>, actions: seq<Action>, i: nat)
    requires IsRun(run, actions) && i < |run| && forall k | 0 <= k < |actions| :: !IsWeak(actions[k])
    requires run[i].owner == Gone && run[i].live == {}
    requires forall k | 0 <= k < |run[i].freers| :: run[i].freers[k] == Idle
    ensures run[i].place == Stored && run[i].recoveries == 1
  {
    StrongNeverSlips(run, actions, i);
    ForgottenIffSlipped(run, actions, i);
  }

  /** A freer's claim that wins finds a live block if and only if one is live that was granted between the freer's two
      accesses; no other can be. */
  lemma WinningClaimIsEmptyIff(run: seq<State>, actions: seq<Action>, i: nat)
    requires IsRun(run, actions) && i < |actions| && actions[i].Claim?
    requires run[i + 1].place == Stored && run[i].place != Stored
    ensures run[i + 1].live == run[i].live && (run[i].live == {} <==> run[i].count == 0)
    ensures var seen, granted := run[i].freers[actions[i].i].stamp, run[i].granted;
      && (run[i].live != {} <==> exists b :: b in run[i].live && seen <= b < granted)
      && forall b | b in run[i].live :: seen <= b < granted
  {
    RunsKeepInv(run, actions, i);
    assert run[i + 1] == Apply(run[i], actions[i]);
    if b :| b in run[i].live { assert run[i].freers[actions[i].i].stamp <= b < run[i].granted; }
  }

  /** Every other recovery, by the owner or by a free in one step, finds no live block. */
  lemma OtherRecoveriesAreEmpty(run: seq<State>, actions: seq<Action>, i: nat)
    requires IsRun(run, actions) && i < |actions| && !actions[i].Claim?
    requires run[i + 1].place == Stored && run[i].place != Stored
    ensures run[i + 1].live == {}
  {
    RunsKeepInv(run, actions, i);
    assert run[i + 1] == Apply(run[i], actions[i]);
    LiveAreCounted(run[i]);
    if actions[i].Free? { DecrementKeepsInv(run[i], actions[i].i, actions[i].b); }
  }

  // ---------------------------------------------------------------- what the owner was asked for

  // The last request that did not fit, or -1.
  function LastRefused(actions: seq<Action>): (k: int)
    ensures -1 <= k < |actions| && (k >= 0 ==> actions[k].Bump? && !actions[k].fits)
    ensures forall j | k < j < |actions| :: !(actions[j].Bump? && !actions[j].fits)
  {
    if actions == [] then -1
    else
      var a := actions[|actions| - 1];
      if a.Bump? && !a.fits then |actions| - 1 else LastRefused(actions[..|actions| - 1])
  }

  predicate InDecision(o: Owner) { o.Deciding? || o.Offering? || o.Rechecking? || o.Claiming? }

  /** The decision an owner is taking is that of its last request that did not fit. */
  lemma {:induction false} KindIsAsked(run: seq<State>, actions: seq<Action>)
    requires IsRun(run, actions) && InDecision(run[|actions|].owner)
    ensures LastRefused(actions) >= 0 && run[|actions|].owner.kind == actions[LastRefused(actions)].kind
  {
    if actions != [] && InDecision(run[|actions| - 1].owner) {
      KindIsAsked(run[..|actions|], actions[..|actions| - 1]);
    }
  }

  /** An access of the decision keeps the chunk only for a request it can serve once empty, and recovers it only for one
      that needs a bigger chunk, in both cases only without live blocks; it retires the chunk exactly if blocks are
      live when it looks again, or if its exchange fails without cause. */
  lemma OwnerDecides(run: seq<State>, actions: seq<Action>, i: nat)
    requires IsRun(run, actions) && i < |actions| && actions[i].Decide?
    ensures LastRefused(actions[..i]) >= 0
    ensures var s, s', kind := run[i], run[i + 1], actions[LastRefused(actions[..i])].kind;
      && (s'.owner == Using ==> kind != Grows && s.live == {} && s'.place == Active && s'.rec == 0)
      && (s'.place == Stored && s.place != Stored ==> kind == Grows && s.live == {} && s'.owner == Gone)
      && (s'.place == Retired <==>
            || (s.owner.Rechecking? && s.place == Active && s.live != {})
            || (s.owner.Claiming? && s.place == Active && actions[i].weak))
  {
    RunsKeepInv(run, actions, i);
    KindIsAsked(run[..i + 1], actions[..i]);
    LiveAreCounted(run[i]);
  }

  /** With nobody else moving, a request that does not fit has the owner keep its chunk if no block is live and the
      chunk can serve the request, recover it if none is live and it cannot, and leave it on offer otherwise. */
  lemma DecidedAlone(s: State, kind: Kind)
    requires Inv(s) && s.owner == Bumped
    ensures var s' := Apply(s, Bump(false, kind));
      if s.live == {} then
        OwnerStep(s', false) == if kind == Grows then Recovered(s').(owner := Gone) else s'.(owner := Using)
      else
        OwnerStep(OwnerStep(OwnerStep(s', false), false), false)
          == s'.(owner := Gone, place := Retired, rec := 1, offers := s.offers + 1)
  {
    assert s.count == |s.live| + 1;
  }

  /** A free takes exactly its block, and recovers the chunk exactly if that was the last one and the chunk is on
      offer. */
  lemma FreeAlone(s: State, i: nat, b: nat)
    requires Inv(s) && Enabled(s, Free(i, b))
    ensures var s' := Apply(s, Free(i, b));
      && s'.live == s.live - {b} && s'.count == s.count - 1 && s'.freers == s.freers && s'.owner == s.owner
      && (s'.place == Stored && s.place != Stored <==> s.live == {b} && s.rec == 1)
      && s'.recoveries == s.recoveries + if s.live == {b} && s.rec == 1 then 1 else 0
  {
    assert |s.live - {b}| == |s.live| - 1;
    assert s.live == {b} <==> s.live - {b} == {};
  }

  // ---------------------------------------------------------------- decrement and claim as one step

  predicate Fused(a: Action) { !a.Decrement? && !a.Claim? }

  predicate EmptyOnceStored(s: State) {
    && (s.place == Stored ==> s.live == {})
    && (forall i | 0 <= i < |s.freers| :: s.freers[i] == Idle)
  }

  lemma FusedKeepsEmpty(s: State, a: Action)
    requires Inv(s) && EmptyOnceStored(s) && Enabled(s, a) && Fused(a)
    ensures EmptyOnceStored(Apply(s, a))
  {
    LiveAreCounted(s);
    if a.Free? { assert |s.live - {a.b}| == |s.live| - 1; }
  }

  /** If a free is one step, a recovered chunk has no live block, in every run. */
  lemma {:induction false} RecoveredIsEmpty(run: seq<State>, actions: seq<Action>, i: nat)
    requires IsRun(run, actions) && i < |run|
    requires forall k | 0 <= k < |actions| :: Fused(actions[k])
    ensures EmptyOnceStored(run[i])
  {
    if i > 0 {
      RecoveredIsEmpty(run, actions, i - 1);
      RunsKeepInv(run, actions, i - 1);
      FusedKeepsEmpty(run[i - 1], actions[i - 1]);
    }
  }

  ghost predicate Reachable(s: State) {
    exists run: seq<State>, actions: seq<Action> :: IsRun(run, actions) && run[|run| - 1] == s
  }

  lemma ReachNext(s: State, a: Action)
    requires Reachable(s) && Enabled(s, a)
    ensures Reachable(Apply(s, a))
  {
    var run: seq<State>, actions: seq<Action> :| IsRun(run, actions) && run[|run| - 1] == s;
    assert IsRun(run + [Apply(s, a)], actions + [a]);
  }

  // One chunk, one freer; the block the owner grants first is freed down to the pause.
  lemma PausedFreer() returns (s: State)
    ensures Reachable(s)
    ensures s == State(0, {}, 0, Active, Using, [AtClaim(1)], 1, 0, 0, 0, false)
  {
    s := State(0, {}, 0, Active, Using, [Idle], 0, 0, 0, 0, false);
    assert IsRun([s], []);
    ReachNext(s, Malloc);
    s := Apply(s, Malloc);
    ReachNext(s, Bump(true, Small));
    s := Apply(s, Bump(true, Small));
    ReachNext(s, Decrement(0, 0));
    s := Apply(s, Decrement(0, 0));
  }

  // The owner grants another block, finds no room for a third and offers the chunk.
  lemma OfferedWithPausedFreer() returns (s: State)
    ensures Reachable(s)
    ensures s == State(1, {1}, 1, Active, Rechecking(Small), [AtClaim(1)], 2, 1, 0, 0, false)
  {
    s := PausedFreer();
    ReachNext(s, Malloc);
    s := Apply(s, Malloc);
    ReachNext(s, Bump(true, Small));
    s := Apply(s, Bump(true, Small));
    ReachNext(s, Malloc);
    s := Apply(s, Malloc);
    ReachNext(s, Bump(false, Small));
    s := Apply(s, Bump(false, Small));
    ReachNext(s, Decide(false));
    s := Apply(s, Decide(false));
    ReachNext(s, Decide(false));
    s := Apply(s, Decide(false));
  }

  /** With the two accesses apart it is false: a freer that pauses after its decrement claims the chunk
      while a block granted meanwhile is live. */
  lemma RecoveredMayBeInUse() returns (s: State)
    ensures Reachable(s) && s.place == Stored && s.live == {1}
  {
    s := OfferedWithPausedFreer();
    ReachNext(s, Claim(0, false));
    s := Apply(s, Claim(0, false));
  }

  /** The exchanges are weak ones: one that fails without cause loses the chunk for good. */
  lemma SlippedClaimForgets() returns (s: State)
    ensures Reachable(s) && s.owner == Gone && s.live == {} && s.place == Retired && s.freers == [Idle] && s.slipped
  {
    s := OfferedWithPausedFreer();
    ReachNext(s, Claim(0, true));
    s := Apply(s, Claim(0, true));
    ReachNext(s, Decide(false));
    s := Apply(s, Decide(false));
    assert s == State(1, {1}, 1, Retired, Gone, [Idle], 2, 1, 0, 0, true);
    ReachNext(s, Decrement(0, 1));
    s := Apply(s, Decrement(0, 1));
    assert s == State(0, {}, 1, Retired, Gone, [AtClaim(2)], 2, 1, 0, 0, false);
    ReachNext(s, Claim(0, true));
    s := Apply(s, Claim(0, true));
  }
}
