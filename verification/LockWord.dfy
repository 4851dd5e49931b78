/** The reader/upgrader/writer lock of container/concurrent_interval_table.h: two counters and two
    sentinels packed into one 32-bit word.  Every step is one load or one compare-exchange of one
    client; clients release what they took, and a writer may bury the word as `erase` does. */
module LockWord {
  import opened Wrappers
  import opened Tallies

  const UPGRADE := 65536            // `upgradlock`: one upgrader, counted above the readers
  const TOMBSTONE := -2147483647
  const INT_MAX := 0x7fff_ffff

  // What `int` addition yields on a 32-bit machine.
  function Wrap(x: int): int {
    (x + 0x8000_0000) % 0x1_0000_0000 - 0x8000_0000
  }

  datatype Kind = Shared | Upgrade | Unique

  // `seen` is the loop's `_old_flag` once it has passed the loop's tests.
  datatype Client =
    | Free
    | Trying(kind: Kind, seen: Option<int>)
    | Holding(kind: Kind)
    | Releasing(kind: Kind, seen: Option<int>)

  datatype State = State(word: int, clients: seq<Client>)

  // ---------------------------------------------------------------- steps

  /** One load of `shared_lock`, `upgrad_lock` or `lock_unique`, with the tests that follow it. */
  function LoadToLock(word: int, kind: Kind): Client {
    if word == TOMBSTONE then Free
    else
      var again := match kind
        case Shared => word < 0 || word % UPGRADE == UPGRADE - 1
        case Upgrade => word < 0 || Wrap(word + UPGRADE) < 0
        case Unique => word != 0;
      Trying(kind, if again then None else Some(word))
  }

  function Locked(kind: Kind, seen: int): int {
    match kind
    case Shared => seen + 1
    case Upgrade => seen + UPGRADE
    case Unique => -1
  }

  /** One load of `unlock_shared` or `unlock_upgrad`; a client with nothing to release leaves. */
  function LoadToUnlock(word: int, kind: Kind): Client {
    if word < 0 then Releasing(kind, None)
    else if kind == Shared && word % UPGRADE == 0 then Free
    else if kind == Upgrade && word / UPGRADE == 0 then Free
    else Releasing(kind, Some(word))
  }

  /** One step of client `c`; `weak` makes a compare-exchange fail without cause. */
  function StepClient(word: int, c: Client, weak: bool): (int, Client) {
    match c
    case Free => (word, Free)
    case Trying(kind, None) => (word, LoadToLock(word, kind))
    case Trying(kind, Some(seen)) =>
      if word == seen && !weak then (Locked(kind, seen), Holding(kind)) else (word, Trying(kind, None))
    case Holding(kind) =>
      if kind == Unique then (Wrap(word + 1), Free) else (word, Releasing(kind, None))
    case Releasing(kind, None) => (word, LoadToUnlock(word, kind))
    case Releasing(kind, Some(seen)) =>
      if word == seen && !weak then (seen - (if kind == Shared then 1 else UPGRADE), Free)
      else (word, Releasing(kind, None))
  }

  datatype Action = Start(i: nat, kind: Kind) | Step(i: nat, weak: bool) | Bury(i: nat)

  predicate Enabled(s: State, a: Action) {
    && a.i < |s.clients|
    && match a
       case Start(i, _) => s.clients[i].Free?
       case Step(i, _) => !s.clients[i].Free?
       case Bury(i) => s.clients[i] == Holding(Unique)
  }

  function Apply(s: State, a: Action): State
    requires Enabled(s, a)
  {
    match a
    case Start(i, kind) => s.(clients := s.clients[i := Trying(kind, None)])
    case Bury(i) => State(TOMBSTONE, s.clients[i := Free])
    case Step(i, weak) =>
      var (word, c) := StepClient(s.word, s.clients[i], weak);
      State(word, s.clients[i := c])
  }

  // ---------------------------------------------------------------- invariant

  predicate Holds(c: Client, kind: Kind) {
    (c.Holding? || c.Releasing?) && c.kind == kind
  }

  function HoldingAs(kind: Kind): Client -> int { c => if Holds(c, kind) then 1 else 0 }

  function Holders(cs: seq<Client>, kind: Kind): int { Tally(cs, HoldingAs(kind)) }

  // A value a client goes on to exchange has passed the tests of its loop.
  predicate SeenOk(c: Client) {
    match c
    case Trying(Shared, Some(v)) => 0 <= v <= INT_MAX && v % UPGRADE < UPGRADE - 1
    case Trying(Upgrade, Some(v)) => 0 <= v <= INT_MAX - UPGRADE
    case Trying(Unique, Some(v)) => v == 0
    case Releasing(Shared, Some(v)) => 0 < v % UPGRADE && 0 <= v
    case Releasing(Upgrade, Some(v)) => UPGRADE <= v
    case Releasing(Unique, _) => false
    case _ => true
  }

  /** The word says exactly who holds the lock: nobody ever again, one writer alone, or so many
      readers and so many upgraders, each in its own 16 bits. */
  predicate WordOk(word: int, readers: int, upgraders: int, writers: int) {
    if word == TOMBSTONE then readers == upgraders == writers == 0
    else if word == -1 then writers == 1 && readers == upgraders == 0
    else writers == 0 && word == readers + UPGRADE * upgraders
         && 0 <= readers < UPGRADE && 0 <= upgraders <= INT_MAX / UPGRADE
  }

  ghost predicate Inv(s: State) {
    && (forall i | 0 <= i < |s.clients| :: SeenOk(s.clients[i]))
    && WordOk(s.word, Holders(s.clients, Shared), Holders(s.clients, Upgrade), Holders(s.clients, Unique))
  }

  lemma HoldersPositive(cs: seq<Client>, i: nat, kind: Kind)
    requires i < |cs| && Holds(cs[i], kind)
    ensures Holders(cs, kind) >= 1
  {
    TallyCovers(cs, i, HoldingAs(kind));
  }

  /** Initially the word is 0 and nobody holds anything. */
  lemma {:induction false} InitHasInv(cs: seq<Client>)
    requires forall i | 0 <= i < |cs| :: cs[i] == Free
    ensures Inv(State(0, cs))
  {
    NobodyHolds(cs, Shared);
    NobodyHolds(cs, Upgrade);
    NobodyHolds(cs, Unique);
  }

  lemma NobodyHolds(cs: seq<Client>, kind: Kind)
    requires forall i | 0 <= i < |cs| :: !Holds(cs[i], kind)
    ensures Holders(cs, kind) == 0
  {
    TallyWithin(cs, HoldingAs(kind), 0, 0);
  }

  // Taking one unit moves one field of the word and no other.
  lemma LockKeepsWord(word: int, c: Client, weak: bool, r: int, u: int, w: int)
    requires WordOk(word, r, u, w) && SeenOk(c) && c.Trying?
    ensures var (word', c') := StepClient(word, c, weak);
      && SeenOk(c')
      && WordOk(word', r + Change(c, c', Shared), u + Change(c, c', Upgrade), w + Change(c, c', Unique))
  {
  }

  // Giving it back does the same.
  lemma UnlockKeepsWord(word: int, c: Client, weak: bool, r: int, u: int, w: int)
    requires WordOk(word, r, u, w) && SeenOk(c) && (c.Holding? || c.Releasing?)
    requires (c.kind == Shared ==> r >= 1) && (c.kind == Upgrade ==> u >= 1) && (c.kind == Unique ==> w >= 1)
    ensures var (word', c') := StepClient(word, c, weak);
      && SeenOk(c')
      && WordOk(word', r + Change(c, c', Shared), u + Change(c, c', Upgrade), w + Change(c, c', Unique))
  {
    if c.kind != Unique { ReadFields(word, r, u, w); }
  }

  // With a reader or an upgrader inside, the word's two fields can be read off.
  lemma ReadFields(word: int, r: int, u: int, w: int)
    requires WordOk(word, r, u, w) && (r > 0 || u > 0)
    ensures word > 0 && word % UPGRADE == r && word / UPGRADE == u
  {
  }

  function Change(c: Client, c': Client, kind: Kind): int {
    (if Holds(c', kind) then 1 else 0) - (if Holds(c, kind) then 1 else 0)
  }

  /** Every step of every client keeps the word and the holders in agreement. */
  lemma ApplyKeepsInv(s: State, a: Action)
    requires Inv(s) && Enabled(s, a)
    ensures Inv(Apply(s, a))
  {
    var s', c := Apply(s, a), s.clients[a.i];
    forall kind
      ensures Holders(s'.clients, kind) == Holders(s.clients, kind) + Change(c, s'.clients[a.i], kind)
      ensures Holds(c, kind) ==> Holders(s.clients, kind) >= 1
    {
      TallyUpdate(s.clients, a.i, s'.clients[a.i], HoldingAs(kind));
      if Holds(c, kind) { HoldersPositive(s.clients, a.i, kind); }
    }
    if a.Step? {
      var r, u, w := Holders(s.clients, Shared), Holders(s.clients, Upgrade), Holders(s.clients, Unique);
      if c.Trying? { LockKeepsWord(s.word, c, a.weak, r, u, w); } else { UnlockKeepsWord(s.word, c, a.weak, r, u, w); }
    }
  }

  // ---------------------------------------------------------------- every run

  ghost predicate IsRun(run: seq<State>, actions: seq<Action>) {
    && |run| == |actions| + 1 && run[0].word == 0 && (forall i | 0 <= i < |run[0].clients| :: run[0].clients[i] == Free)
    && forall i | 0 <= i < |actions| :: Enabled(run[i], actions[i]) && run[i + 1] == Apply(run[i], actions[i])
  }

  lemma {:induction false} RunsKeepInv(run: seq<State>, actions: seq<Action>, i: nat)
    requires IsRun(run, actions) && i < |run|
    ensures Inv(run[i])
  {
    if i == 0 {
      InitHasInv(run[0].clients);
    } else {
      RunsKeepInv(run, actions, i - 1);
      ApplyKeepsInv(run[i - 1], actions[i - 1]);
    }
  }

  /** In every state of every run: the word is -1 exactly when a writer holds it, and then no other
      client holds anything; otherwise, unless buried, it is readers + 65536 * upgraders with both
      fields in range; counting never reaches the tombstone, which only `Bury` writes. */
  lemma WordTellsHolders(run: seq<State>, actions: seq<Action>, i: nat)
    requires IsRun(run, actions) && i < |run|
    ensures var s := run[i];
      var r, u, w := Holders(s.clients, Shared), Holders(s.clients, Upgrade), Holders(s.clients, Unique);
      && (s.word == -1 <==> w == 1)
      && (w > 0 ==> w == 1 && r == 0 && u == 0)
      && (s.word >= 0 ==> s.word % UPGRADE == r <= 65535 && s.word / UPGRADE == u <= 32767)
      && (s.word < 0 ==> s.word == -1 || s.word == TOMBSTONE)
    ensures run[i].word == TOMBSTONE ==> exists j :: 0 <= j < i && actions[j].Bury?
    ensures run[i].word == TOMBSTONE ==> forall k | 0 <= k < |run[i].clients| :: !run[i].clients[k].Holding?
  {
    RunsKeepInv(run, actions, i);
    if run[i].word == TOMBSTONE {
      BuriedByErase(run, actions, i);
      forall k | 0 <= k < |run[i].clients|
        ensures !run[i].clients[k].Holding?
      {
        BuriedMeansFree(run[i], k);
      }
    }
  }

  lemma BuriedMeansFree(s: State, k: nat)
    requires Inv(s) && s.word == TOMBSTONE && k < |s.clients|
    ensures !s.clients[k].Holding?
  {
    var c := s.clients[k];
    if Holds(c, Shared) { HoldersPositive(s.clients, k, Shared); }
    if Holds(c, Upgrade) { HoldersPositive(s.clients, k, Upgrade); }
    if Holds(c, Unique) { HoldersPositive(s.clients, k, Unique); }
  }

  lemma {:induction false} BuriedByErase(run: seq<State>, actions: seq<Action>, i: nat)
    requires IsRun(run, actions) && i < |run| && run[i].word == TOMBSTONE
    ensures exists j :: 0 <= j < i && actions[j].Bury?
  {
    if run[i - 1].word == TOMBSTONE {
      BuriedByErase(run, actions, i - 1);
    } else {
      assert Enabled(run[i - 1], actions[i - 1]) && run[i - 1 + 1] == Apply(run[i - 1], actions[i - 1]);
      RunsKeepInv(run, actions, i - 1);
      if actions[i - 1].Step? {
        var c := run[i - 1].clients[actions[i - 1].i];
        assert SeenOk(c);
        if c.Holding? { HoldersPositive(run[i - 1].clients, actions[i - 1].i, c.kind); }
      }
      assert actions[i - 1].Bury?;
    }
  }

  /** A writer excludes every other client. */
  lemma WriterIsAlone(s: State, i: nat, j: nat, kind: Kind)
    requires Inv(s) && i < |s.clients| && j < |s.clients| && i != j
    requires Holds(s.clients[i], Unique)
    ensures !Holds(s.clients[j], kind)
  {
    HoldersPositive(s.clients, i, Unique);
    TallyUpdate(s.clients, i, Free, HoldingAs(Unique));
    if Holds(s.clients[j], kind) {
      HoldersPositive(s.clients, j, kind);
      HoldersPositive(s.clients[i := Free], j, kind);
    }
  }

  /** A reader or upgrader that releases always finds its own unit: its first load leads to an exchange
      and never to the early exit, and the exchange takes that unit out and nothing else. */
  lemma ReleaseTakesOwnUnit(s: State, i: nat)
    requires Inv(s) && i < |s.clients| && s.clients[i].Releasing? && s.clients[i].seen == None
    ensures s.clients[i].kind != Unique
    ensures var kind := s.clients[i].kind;
      var (word, c) := StepClient(s.word, s.clients[i], false);
      var (word', c') := StepClient(word, c, false);
      && word == s.word && c == Releasing(kind, Some(s.word))
      && c' == Free && word' == s.word - (if kind == Shared then 1 else UPGRADE)
  {
    HoldersPositive(s.clients, i, s.clients[i].kind);
  }

  // ---------------------------------------------------------------- what was asked for

  // The action that client `i` last started with, or -1.
  function LastStart(actions: seq<Action>, i: nat): (k: int)
    ensures -1 <= k < |actions|
    ensures k >= 0 ==> actions[k].Start? && actions[k].i == i
    ensures forall j | k < j < |actions| :: !(actions[j].Start? && actions[j].i == i)
  {
    if actions == [] then -1
    else if actions[|actions| - 1].Start? && actions[|actions| - 1].i == i then |actions| - 1
    else LastStart(actions[..|actions| - 1], i)
  }

  // The kind it asked for is `kind`.
  predicate Asked(actions: seq<Action>, i: nat, kind: Kind) {
    var k := LastStart(actions, i);
    k >= 0 && actions[k].kind == kind
  }

  /** From its start until it is free again a client tries for, holds and releases the kind it asked for. */
  lemma {:induction false} KindIsAsked(run: seq<State>, actions: seq<Action>, i: nat)
    requires IsRun(run, actions) && i < |run[|run| - 1].clients|
    ensures var c := run[|run| - 1].clients[i]; !c.Free? ==> Asked(actions, i, c.kind)
  {
    if actions != [] {
      var n := |actions| - 1;
      assert Enabled(run[n], actions[n]) && run[n + 1] == Apply(run[n], actions[n]);
      assert IsRun(run[..n + 1], actions[..n]);
      KindIsAsked(run[..n + 1], actions[..n], i);
    }
  }

  /** Whoever asked to be the only one and has got in is the only one inside; whoever asked for less and has got in
      shares with others of those two kinds. */
  lemma AskedAloneIsAlone(run: seq<State>, actions: seq<Action>, i: nat, j: nat)
    requires IsRun(run, actions) && i < |run[|run| - 1].clients| && j < |run[|run| - 1].clients| && i != j
    requires Asked(actions, i, Unique)
    requires var c := run[|run| - 1].clients[i]; c.Holding? || c.Releasing?
    ensures var d := run[|run| - 1].clients[j]; !d.Holding? && !d.Releasing?
    ensures run[|run| - 1].word == -1
  {
    var s := run[|run| - 1];
    KindIsAsked(run, actions, i);
    RunsKeepInv(run, actions, |run| - 1);
    HoldersPositive(s.clients, i, Unique);
    if s.clients[j].Holding? || s.clients[j].Releasing? { WriterIsAlone(s, i, j, s.clients[j].kind); }
  }

  /** Who may join those inside. */
  ghost predicate LetsIn(s: State, kind: Kind) {
    var r, u, w := Holders(s.clients, Shared), Holders(s.clients, Upgrade), Holders(s.clients, Unique);
    s.word != TOMBSTONE &&
    match kind
    case Shared => w == 0 && r < UPGRADE - 1
    case Upgrade => w == 0 && u < INT_MAX / UPGRADE
    case Unique => r == u == w == 0
  }

  /** A client that nobody disturbs is inside two steps after its start if and only if those inside let it in, as the
      kind it asked for and as no other; it gives up if and only if the word is buried, and tries again otherwise. */
  lemma GetsInIff(s: State, i: nat, kind: Kind)
    requires Inv(s) && Enabled(s, Start(i, kind))
    ensures var s1 := Apply(Apply(s, Start(i, kind)), Step(i, false));
      && (s1.clients[i] == Free <==> s.word == TOMBSTONE)
      && (s.word != TOMBSTONE ==>
            var s2 := Apply(s1, Step(i, false));
            && (s2.clients[i] == Holding(kind) <==> LetsIn(s, kind))
            && (!LetsIn(s, kind) ==> s2.word == s.word && s2.clients[i].Trying? && s2.clients[i].kind == kind)
            && forall k | 0 <= k < |s.clients| && k != i :: s2.clients[k] == s.clients[k])
  {
    if s.word >= 0 { FieldsOfWord(s); }
  }

  lemma FieldsOfWord(s: State)
    requires Inv(s) && s.word >= 0
    ensures s.word % UPGRADE == Holders(s.clients, Shared) && s.word / UPGRADE == Holders(s.clients, Upgrade)
  {
  }

  /** A writer that lets go, alone as it is, leaves the word at 0 and nobody inside. */
  lemma WriterLeavesNobody(s: State, i: nat, weak: bool)
    requires Inv(s) && i < |s.clients| && s.clients[i] == Holding(Unique)
    ensures var s' := Apply(s, Step(i, weak));
      s'.clients[i] == Free && s'.word == 0 && forall kind :: Holders(s'.clients, kind) == 0
  {
    var s' := Apply(s, Step(i, weak));
    HoldersPositive(s.clients, i, Unique);
    ApplyKeepsInv(s, Step(i, weak));
    forall kind
      ensures Holders(s'.clients, kind) == 0
    {
      TallyUpdate(s.clients, i, Free, HoldingAs(kind));
    }
  }

  /** A reader or upgrader that nobody disturbs is out three steps after it begins to let go, with its own unit and
      nothing else. */
  lemma LetsGo(s: State, i: nat, kind: Kind)
    requires Inv(s) && i < |s.clients| && s.clients[i] == Holding(kind) && kind != Unique
    ensures var s1 := Apply(s, Step(i, false));
      var s2 := Apply(s1, Step(i, false));
      s1.clients[i] == Releasing(kind, None) && !s2.clients[i].Free? &&
      var s3 := Apply(s2, Step(i, false));
      && s3 == State(s.word - (if kind == Shared then 1 else UPGRADE), s.clients[i := Free])
      && forall k :: Holders(s3.clients, k) == Holders(s.clients, k) - if k == kind then 1 else 0
  {
    var s1 := Apply(s, Step(i, false));
    ApplyKeepsInv(s, Step(i, false));
    ReleaseTakesOwnUnit(s1, i);
    forall k
      ensures Holders(s.clients[i := Free], k) == Holders(s.clients, k) - if k == kind then 1 else 0
    {
      TallyUpdate(s.clients, i, Free, HoldingAs(k));
    }
  }
}
