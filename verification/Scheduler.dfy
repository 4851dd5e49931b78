/** The actor scheduler of active/: `_run_flag` is a token that lets at most one worker run an actor.

    Threads post events and run the server's loop; a handler may post in turn.  Pushing to and popping
    from `event_que` is one step each, as is every access to `_run_flag` and to the pool of active actors. */
module Scheduler {
  import opened Tallies

  type Event(==, !new)

  datatype Work =
    | Off
    | Running(actor: nat)     // in mirco_active::run, about to pop an event
    | Handling(actor: nat)    // in the handler of an event
    | Storing(actor: nat)     // run has returned; about to store _run_flag = false

  datatype Post =
    | NoPost
    | Queued(actor: nat)      // event pushed; about to exchange _run_flag
    | Owning(actor: nat)      // the exchange found it clear; about to put the actor into the pool

  datatype Thread = Thread(work: Work, post: Post)

  // `posted`, `started` and `missed` are bookkeeping no thread reads: the events pushed to and taken by an
  // actor in order, and whether since its queue was last found empty an exchange came too late for the
  // worker that held the flag while events were waiting.
  datatype Actor = Actor(flag: bool, queue: seq<Event>, pooled: nat, posted: seq<Event>, started: seq<Event>,
                         missed: bool)

  datatype State = State(actors: seq<Actor>, threads: seq<Thread>)

  datatype Action =
    | PostEvent(t: nat, a: nat, event: Event)  // mirco_active.cpp:23
    | Exchange(t: nat)                          // active_server.cpp:80
    | Put(t: nat)                               // active_server.cpp:81
    | Take(t: nat, a: nat)                      // active_server.cpp:34
    | PopEvent(t: nat)                          // mirco_active.cpp:43
    | Finish(t: nat)                            // a handler returns, mirco_active.cpp:44
    | Store(t: nat)                             // active_server.cpp:39

  predicate Enabled(s: State, x: Action) {
    && x.t < |s.threads|
    && var th := s.threads[x.t];
       match x
       case PostEvent(_, a, _) => a < |s.actors| && th.post == NoPost && (th.work == Off || th.work.Handling?)
       case Exchange(_) => th.post.Queued? && th.post.actor < |s.actors|
       case Put(_) => th.post.Owning? && th.post.actor < |s.actors|
       case Take(_, a) => a < |s.actors| && th == Thread(Off, NoPost) && s.actors[a].pooled > 0
       case PopEvent(_) => th.work.Running? && th.work.actor < |s.actors|
       case Finish(_) => th.work.Handling? && th.post == NoPost
       case Store(_) => th.work.Storing? && th.work.actor < |s.actors|
  }

  ghost predicate Closing(s: State, a: nat) {
    exists t :: 0 <= t < |s.threads| && s.threads[t].work == Storing(a)
  }

  ghost function Apply(s: State, x: Action): State
    requires Enabled(s, x)
  {
    var th := s.threads[x.t];
    match x
    case PostEvent(t, a, e) =>
      var act := s.actors[a];
      State(s.actors[a := act.(queue := act.queue + [e], posted := act.posted + [e])],
            s.threads[t := th.(post := Queued(a))])
    case Exchange(t) =>
      var a := th.post.actor;
      var act := s.actors[a];
      if act.flag then
        State(s.actors[a := act.(missed := act.missed || (Closing(s, a) && act.queue != []))],
              s.threads[t := th.(post := NoPost)])
      else State(s.actors[a := act.(flag := true)], s.threads[t := th.(post := Owning(a))])
    case Put(t) =>
      var a := th.post.actor;
      State(s.actors[a := s.actors[a].(pooled := s.actors[a].pooled + 1)], s.threads[t := th.(post := NoPost)])
    case Take(t, a) =>
      State(s.actors[a := s.actors[a].(pooled := s.actors[a].pooled - 1)], s.threads[t := th.(work := Running(a))])
    case PopEvent(t) =>
      var a := th.work.actor;
      var act := s.actors[a];
      if act.queue == [] then State(s.actors[a := act.(missed := false)], s.threads[t := th.(work := Storing(a))])
      else State(s.actors[a := act.(queue := act.queue[1..], started := act.started + [act.queue[0]])],
                 s.threads[t := th.(work := Handling(a))])
    case Finish(t) => s.(threads := s.threads[t := th.(work := Running(th.work.actor))])
    case Store(t) =>
      var a := th.work.actor;
      State(s.actors[a := s.actors[a].(flag := false)], s.threads[t := th.(work := Off)])
  }

  predicate Init(s: State) {
    && (forall a | 0 <= a < |s.actors| :: s.actors[a] == Actor(false, [], 0, [], [], false))
    && (forall t | 0 <= t < |s.threads| :: s.threads[t] == Thread(Off, NoPost))
  }

  ghost predicate IsRun(run: seq<State>, xs: seq<Action>) {
    && |run| == |xs| + 1 && Init(run[0])
    && forall i | 0 <= i < |xs| :: Enabled(run[i], xs[i]) && run[i + 1] == Apply(run[i], xs[i])
  }

  // ---------------------------------------------------------------- the token

  predicate WorksOn(th: Thread, a: nat) {
    th.work != Off && th.work.actor == a
  }

  // Tokens of actor `a` in the hands of one thread, and of all.
  function Hands(th: Thread, a: nat): nat {
    (if th.post == Owning(a) then 1 else 0) + (if WorksOn(th, a) then 1 else 0)
  }

  function HandsOf(a: nat): Thread -> int { th => Hands(th, a) }

  function AllHands(ts: seq<Thread>, a: nat): int { Tally(ts, HandsOf(a)) }

  /** (posters between exchange and put) + (entries in the pool) + (workers between pool pop and flag
      store) is one when the flag is set and zero when it is clear. */
  predicate TokenOk(s: State, a: nat)
    requires a < |s.actors|
  {
    AllHands(s.threads, a) + s.actors[a].pooled == if s.actors[a].flag then 1 else 0
  }

  predicate OrderOk(act: Actor) {
    act.started + act.queue == act.posted
  }

  lemma ApplyKeepsToken(s: State, x: Action, a: nat)
    requires Enabled(s, x) && a < |s.actors| && TokenOk(s, a)
    ensures TokenOk(Apply(s, x), a)
  {
    TallyUpdate(s.threads, x.t, Apply(s, x).threads[x.t], HandsOf(a));
    TallyCovers(s.threads, x.t, HandsOf(a));
  }

  lemma ApplyKeepsOrder(s: State, x: Action, a: nat)
    requires Enabled(s, x) && a < |s.actors| && OrderOk(s.actors[a])
    ensures OrderOk(Apply(s, x).actors[a])
  {
    var act, act' := s.actors[a], Apply(s, x).actors[a];
    if x.PostEvent? && x.a == a {
      assert act'.started + act'.queue == (act.started + act.queue) + [x.event];
    } else if x.PopEvent? && s.threads[x.t].work.actor == a && act.queue != [] {
      assert act.queue == [act.queue[0]] + act.queue[1..];
      assert act'.started + act'.queue == act.started + act.queue;
    }
  }

  // ---------------------------------------------------------------- stranded events

  // A token that still leads to a look at the queue.
  predicate WillLook(th: Thread, a: nat) {
    th.post == Owning(a) || th.work == Running(a) || th.work == Handling(a)
  }

  ghost predicate SomebodyWillLook(s: State, a: nat)
    requires a < |s.actors|
  {
    s.actors[a].pooled > 0 || exists t :: 0 <= t < |s.threads| && WillLook(s.threads[t], a)
  }

  ghost predicate SomebodyWillExchange(s: State, a: nat) {
    exists t :: 0 <= t < |s.threads| && s.threads[t].post == Queued(a)
  }

  ghost predicate WindowOk(s: State, a: nat)
    requires a < |s.actors|
  {
    var act := s.actors[a];
    && (act.queue != [] && !act.missed ==> SomebodyWillLook(s, a) || SomebodyWillExchange(s, a))
    && (act.missed && act.queue == [] ==> SomebodyWillLook(s, a))
  }

  lemma TokenIsSomewhere(ts: seq<Thread>, a: nat)
    requires AllHands(ts, a) > 0
    ensures exists t :: 0 <= t < |ts| && Hands(ts[t], a) > 0
  {
    if forall t | 0 <= t < |ts| :: Hands(ts[t], a) == 0 { NoHands(ts, a); }
  }

  // Other threads keep what they were about to do.
  lemma OthersStay(s: State, x: Action, a: nat)
    requires Enabled(s, x) && a < |s.actors|
    requires SomebodyWillLook(s, a) && !WillLook(s.threads[x.t], a) && !(x.Take? && x.a == a)
    ensures SomebodyWillLook(Apply(s, x), a)
  {
    var s' := Apply(s, x);
    if s.actors[a].pooled == 0 {
      var t :| 0 <= t < |s.threads| && WillLook(s.threads[t], a);
      assert WillLook(s'.threads[t], a);
    }
  }

  lemma OthersStillExchange(s: State, x: Action, a: nat)
    requires Enabled(s, x) && SomebodyWillExchange(s, a) && s.threads[x.t].post != Queued(a)
    ensures SomebodyWillExchange(Apply(s, x), a)
  {
    var t :| 0 <= t < |s.threads| && s.threads[t].post == Queued(a);
    assert Apply(s, x).threads[t].post == Queued(a);
  }

  // An exchange that finds the flag set has somebody else look, or comes too late and is recorded.
  lemma LateExchange(s: State, x: Action, a: nat)
    requires Enabled(s, x) && a < |s.actors| && TokenOk(s, a)
    requires x.Exchange? && s.threads[x.t].post == Queued(a) && s.actors[a].flag && !Closing(s, a)
    ensures SomebodyWillLook(Apply(s, x), a)
  {
    var s' := Apply(s, x);
    if s.actors[a].pooled == 0 {
      TokenIsSomewhere(s.threads, a);
      var t :| 0 <= t < |s.threads| && Hands(s.threads[t], a) > 0;
      assert s.threads[t].work != Storing(a);
      assert WillLook(s'.threads[t], a);
    }
  }

  lemma ApplyKeepsWindow(s: State, x: Action, a: nat)
    requires Enabled(s, x) && a < |s.actors| && TokenOk(s, a) && WindowOk(s, a)
    ensures WindowOk(Apply(s, x), a)
  {
    var s', th := Apply(s, x), s.threads[x.t];
    var th' := s'.threads[x.t];
    if WillLook(th', a) {
      assert SomebodyWillLook(s', a);
    } else if WillLook(th, a) {
      assert x.Put? || s'.actors[a].queue == [];
    } else {
      if SomebodyWillLook(s, a) { OthersStay(s, x, a); }
      if th'.post == Queued(a) {
        assert SomebodyWillExchange(s', a);
      } else if x.Exchange? && th.post == Queued(a) {
        if !Closing(s, a) { LateExchange(s, x, a); }
      } else if SomebodyWillExchange(s, a) {
        OthersStillExchange(s, x, a);
      }
    }
  }

  // ---------------------------------------------------------------- every run

  ghost predicate Inv(s: State) {
    forall a: nat | a < |s.actors| :: TokenOk(s, a) && OrderOk(s.actors[a]) && WindowOk(s, a)
  }

  lemma NoHands(ts: seq<Thread>, a: nat)
    requires forall t | 0 <= t < |ts| :: Hands(ts[t], a) == 0
    ensures AllHands(ts, a) == 0
  {
    TallyWithin(ts, HandsOf(a), 0, 0);
  }

  lemma {:induction false} RunsKeepInv(run: seq<State>, xs: seq<Action>, i: nat)
    requires IsRun(run, xs) && i < |run|
    ensures Inv(run[i])
  {
    if i == 0 {
      forall a: nat | a < |run[0].actors| { NoHands(run[0].threads, a); }
    } else {
      RunsKeepInv(run, xs, i - 1);
      var s, x := run[i - 1], xs[i - 1];
      forall a: nat | a < |s.actors|
        ensures TokenOk(run[i], a) && OrderOk(run[i].actors[a]) && WindowOk(run[i], a)
      {
        ApplyKeepsToken(s, x, a);
        ApplyKeepsOrder(s, x, a);
        ApplyKeepsWindow(s, x, a);
      }
    }
  }

  /** In every state of every run an actor is in the hands of at most one worker, it is not in the pool
      meanwhile, and the events it has started are, in order, a prefix of those posted to it. */
  lemma OneWorkerPerActor(run: seq<State>, xs: seq<Action>, i: nat, a: nat, t: nat, u: nat)
    requires IsRun(run, xs) && i < |run| && a < |run[i].actors| && t < |run[i].threads| && u < |run[i].threads|
    ensures WorksOn(run[i].threads[t], a) && WorksOn(run[i].threads[u], a) ==> t == u
    ensures WorksOn(run[i].threads[t], a) ==> run[i].actors[a].pooled == 0 && run[i].actors[a].flag
    ensures run[i].actors[a].started + run[i].actors[a].queue == run[i].actors[a].posted
  {
    RunsKeepInv(run, xs, i);
    var ts, off := run[i].threads, Thread(Off, NoPost);
    TallyUpdate(ts, t, off, HandsOf(a));
    TallyCovers(ts, t, HandsOf(a));
    if t != u { TallyCovers(ts[t := off], u, HandsOf(a)); }
  }

  /** When all is quiet an actor's events are stranded exactly if an exchange fell into the window between a
      worker's last look at the queue and its store of the flag; no other interleaving strands an event. */
  lemma StrandedIffMissed(run: seq<State>, xs: seq<Action>, i: nat, a: nat)
    requires IsRun(run, xs) && i < |run| && a < |run[i].actors|
    requires forall t | 0 <= t < |run[i].threads| :: run[i].threads[t] == Thread(Off, NoPost)
    requires run[i].actors[a].pooled == 0
    ensures run[i].actors[a].queue != [] <==> run[i].actors[a].missed
  {
    RunsKeepInv(run, xs, i);
  }

  // The events posted to actor `a`, in order.
  function PostedTo(xs: seq<Action>, a: nat): seq<Event> {
    if xs == [] then []
    else
      var x := xs[|xs| - 1];
      PostedTo(xs[..|xs| - 1], a) + if x.PostEvent? && x.a == a then [x.event] else []
  }

  lemma PostIsRecorded(s: State, x: Action)
    requires Enabled(s, x)
    ensures |Apply(s, x).actors| == |s.actors|
    ensures forall a | 0 <= a < |s.actors| ::
      Apply(s, x).actors[a].posted == s.actors[a].posted + if x.PostEvent? && x.a == a then [x.event] else []
  {
  }

  lemma {:induction false} PostsAreRecorded(run: seq<State>, xs: seq<Action>, a: nat)
    requires IsRun(run, xs) && a < |run[|xs|].actors|
    ensures run[|xs|].actors[a].posted == PostedTo(xs, a)
  {
    if xs != [] {
      var n := |xs| - 1;
      PostIsRecorded(run[n], xs[n]);
      PostsAreRecorded(run[..n + 1], xs[..n], a);
    }
  }

  /** In every run the events an actor has started, followed by those in its queue, are the events posted to it so far,
      each once and in order. */
  lemma StartedAndQueuedArePosted(run: seq<State>, xs: seq<Action>, a: nat)
    requires IsRun(run, xs) && a < |run[|xs|].actors|
    ensures run[|xs|].actors[a].started + run[|xs|].actors[a].queue == PostedTo(xs, a)
  {
    RunsKeepInv(run, xs, |xs|);
    PostsAreRecorded(run, xs, a);
  }

  function HandlerOf(a: nat): Thread -> int { (th: Thread) => if th.work == Handling(a) then 1 else 0 }

  // How many handlers of actor `a` have returned.
  function Finished(run: seq<State>, xs: seq<Action>, a: nat): nat
    requires |xs| < |run|
  {
    if xs == [] then 0
    else
      var n := |xs| - 1;
      var one := xs[n].Finish? && xs[n].t < |run[n].threads| && run[n].threads[xs[n].t].work == Handling(a);
      Finished(run, xs[..n], a) + if one then 1 else 0
  }

  lemma ApplyHandles(s: State, x: Action, a: nat)
    requires Enabled(s, x) && a < |s.actors|
    ensures var s' := Apply(s, x);
      |s'.actors[a].started| - Tally(s'.threads, HandlerOf(a))
        == |s.actors[a].started| - Tally(s.threads, HandlerOf(a))
           + if x.Finish? && s.threads[x.t].work == Handling(a) then 1 else 0
  {
    TallyUpdate(s.threads, x.t, Apply(s, x).threads[x.t], HandlerOf(a));
  }

  /** In every run each event an actor has started has had a handler of its own, which has returned or is running. */
  lemma {:induction false} EachHasItsHandler(run: seq<State>, xs: seq<Action>, a: nat, n: nat)
    requires IsRun(run, xs) && n <= |xs| && a < |run[n].actors|
    ensures |run[n].actors[a].started| == Finished(run, xs[..n], a) + Tally(run[n].threads, HandlerOf(a))
  {
    if n == 0 {
      TallyWithin(run[0].threads, HandlerOf(a), 0, 0);
    } else {
      EachHasItsHandler(run, xs, a, n - 1);
      ApplyHandles(run[n - 1], xs[n - 1], a);
      assert xs[..n][..n - 1] == xs[..n - 1];
    }
  }

  /** In every run in which all is quiet and no exchange fell into the window, everything posted to an actor has been
      started. */
  lemma QuietHasStartedAll(run: seq<State>, xs: seq<Action>, a: nat)
    requires IsRun(run, xs) && a < |run[|xs|].actors|
    requires forall t | 0 <= t < |run[|xs|].threads| :: run[|xs|].threads[t] == Thread(Off, NoPost)
    requires run[|xs|].actors[a].pooled == 0
    ensures run[|xs|].actors[a].started == PostedTo(xs, a) <==> !run[|xs|].actors[a].missed
  {
    StartedAndQueuedArePosted(run, xs, a);
    StrandedIffMissed(run, xs, |xs|, a);
    var act := run[|xs|].actors[a];
    assert |act.started + act.queue| == |act.started| + |act.queue|;
    assert act.queue == [] ==> act.started + act.queue == act.started;
  }

  // ---------------------------------------------------------------- alone

  // A worker takes event after event until its actor's queue is empty, and clears the flag.
  ghost function Worked(s: State, t: nat): (s': State)
    requires t < |s.threads| && s.threads[t].work.Running? && s.threads[t].post == NoPost
    requires s.threads[t].work.actor < |s.actors|
    ensures |s'.actors| == |s.actors|
    decreases |s.actors[s.threads[t].work.actor].queue|
  {
    var s' := Apply(s, PopEvent(t));
    if s'.threads[t].work.Handling? then Worked(Apply(s', Finish(t)), t) else Apply(s', Store(t))
  }

  /** A worker alone starts all events of its actor in the order they were queued and leaves it free to be run again. */
  lemma {:induction false} WorkerAlone(s: State, t: nat, a: nat)
    requires t < |s.threads| && s.threads[t] == Thread(Running(a), NoPost) && a < |s.actors|
    ensures var act := s.actors[a];
      Worked(s, t) == State(
        s.actors[a := Actor(false, [], act.pooled, act.posted, act.started + act.queue, false)],
        s.threads[t := Thread(Off, NoPost)])
    decreases |s.actors[a].queue|
  {
    var act := s.actors[a];
    if act.queue != [] {
      var s' := Apply(Apply(s, PopEvent(t)), Finish(t));
      var act' := act.(queue := act.queue[1..], started := act.started + [act.queue[0]]);
      assert s' == State(s.actors[a := act'], s.threads);
      WorkerAlone(s', t, a);
      assert act.started + [act.queue[0]] + act.queue[1..] == act.started + act.queue;
      assert s'.actors[a := Worked(s, t).actors[a]] == s.actors[a := Worked(s, t).actors[a]];
    } else {
      assert act.started + [] == act.started;
      assert Worked(s, t).actors == s.actors[a := Worked(s, t).actors[a]];
    }
  }

  // A post and its exchange, and the actor goes into the pool if that found the flag clear.
  ghost function Posted(s: State, t: nat, a: nat, e: Event): State
    requires Enabled(s, PostEvent(t, a, e))
  {
    var s' := Apply(Apply(s, PostEvent(t, a, e)), Exchange(t));
    if s'.threads[t].post == NoPost then s' else Apply(s', Put(t))
  }

  /** A post alone queues its event, sets the flag, and puts the actor into the pool exactly if the flag was clear. */
  lemma PostAlone(s: State, t: nat, a: nat, e: Event)
    requires Enabled(s, PostEvent(t, a, e))
    ensures var s', act := Posted(s, t, a, e), s.actors[a];
      && s'.threads == s.threads && |s'.actors| == |s.actors|
      && (forall b | 0 <= b < |s.actors| && b != a :: s'.actors[b] == s.actors[b])
      && s'.actors[a].queue == act.queue + [e] && s'.actors[a].started == act.started && s'.actors[a].flag
      && s'.actors[a].pooled == act.pooled + if act.flag then 0 else 1
  {
  }

  /** What has been stranded is started by the next post to the actor and a worker that takes it. */
  lemma NextPostRescues(s: State, t: nat, u: nat, a: nat, e: Event)
    requires t < |s.threads| && u < |s.threads| && a < |s.actors|
    requires s.threads[t] == s.threads[u] == Thread(Off, NoPost) && !s.actors[a].flag
    ensures var s' := Posted(s, t, a, e);
      && Enabled(s', Take(u, a))
      && Worked(Apply(s', Take(u, a)), u).actors[a].started == s.actors[a].started + s.actors[a].queue + [e]
  {
    PostAlone(s, t, a, e);
    WorkerAlone(Apply(Posted(s, t, a, e), Take(u, a)), u, a);
  }

  ghost predicate Reachable(s: State) {
    exists run: seq<State>, xs: seq<Action> :: IsRun(run, xs) && run[|run| - 1] == s
  }

  lemma ReachNext(s: State, x: Action)
    requires Reachable(s) && Enabled(s, x)
    ensures Reachable(Apply(s, x))
  {
    var run: seq<State>, xs: seq<Action> :| IsRun(run, xs) && run[|run| - 1] == s;
    assert IsRun(run + [Apply(s, x)], xs + [x]);
  }

  // The event has been posted, and the flag is about to be exchanged.
  lemma EventPosted(e: Event) returns (s: State)
    ensures Reachable(s)
    ensures s == State([Actor(false, [e], 0, [e], [], false)], [Thread(Off, Queued(0)), Thread(Off, NoPost)])
  {
    s := State([Actor(false, [], 0, [], [], false)], [Thread(Off, NoPost), Thread(Off, NoPost)]);
    assert IsRun([s], []);
    ReachNext(s, PostEvent(0, 0, e));
    s := Apply(s, PostEvent(0, 0, e));
    assert [] + [e] == [e];
  }

  // The actor has been put into the pool.
  lemma ActorPooled(e: Event) returns (s: State)
    ensures Reachable(s)
    ensures s == State([Actor(true, [e], 1, [e], [], false)], [Thread(Off, NoPost), Thread(Off, NoPost)])
  {
    s := EventPosted(e);
    ReachNext(s, Exchange(0));
    s := Apply(s, Exchange(0));
    assert s == State([Actor(true, [e], 0, [e], [], false)], [Thread(Off, Owning(0)), Thread(Off, NoPost)]);
    ReachNext(s, Put(0));
    s := Apply(s, Put(0));
  }

  // A worker is in the handler of the only event.
  lemma WorkerHandling(e: Event) returns (s: State)
    ensures Reachable(s)
    ensures s == State([Actor(true, [], 0, [e], [e], false)], [Thread(Off, NoPost), Thread(Handling(0), NoPost)])
  {
    s := ActorPooled(e);
    ReachNext(s, Take(1, 0));
    s := Apply(s, Take(1, 0));
    assert s == State([Actor(true, [e], 0, [e], [], false)], [Thread(Off, NoPost), Thread(Running(0), NoPost)]);
    ReachNext(s, PopEvent(1));
    s := Apply(s, PopEvent(1));
    assert [e][1..] == [] && [] + [e] == [e];
  }

  // The worker has found the queue empty, but not yet cleared the flag.
  lemma WorkerAboutToStore(e: Event) returns (s: State)
    ensures Reachable(s)
    ensures s == State([Actor(true, [], 0, [e], [e], false)], [Thread(Off, NoPost), Thread(Storing(0), NoPost)])
  {
    s := WorkerHandling(e);
    ReachNext(s, Finish(1));
    s := Apply(s, Finish(1));
    assert s == State([Actor(true, [], 0, [e], [e], false)], [Thread(Off, NoPost), Thread(Running(0), NoPost)]);
    ReachNext(s, PopEvent(1));
    s := Apply(s, PopEvent(1));
  }

  /** The window is real: an event posted in it stays in the queue with nobody left to run it. */
  lemma EventCanBeStranded(e: Event) returns (s: State)
    ensures Reachable(s) && |s.actors| == 1 && s.actors[0].queue == [e] && s.actors[0].pooled == 0 && !s.actors[0].flag
    ensures s.threads == [Thread(Off, NoPost), Thread(Off, NoPost)]
  {
    s := WorkerAboutToStore(e);
    ReachNext(s, PostEvent(0, 0, e));
    s := Apply(s, PostEvent(0, 0, e));
    ReachNext(s, Exchange(0));
    s := Apply(s, Exchange(0));
    assert s.threads == [Thread(Off, NoPost), Thread(Storing(0), NoPost)];
    ReachNext(s, Store(1));
    s := Apply(s, Store(1));
  }
}
