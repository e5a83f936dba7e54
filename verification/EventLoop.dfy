/** Net/eventloop.cpp: handing functors to a loop thread. The protocol is a transition system over
    the queue, the eventfd counter, the phase of the loop thread and any number of other threads,
    each of which may sit between its push and its wakeup. */
module EventLoops {

  type Functor = nat
  type ThreadId = nat

  /** An eventfd refuses to count further; a write then fails and the counter stays non-zero. */
  const EVENTFD_MAX: nat := 0xFFFF_FFFF_FFFF_FFFE

  /** Where the loop thread stands. */
  datatype Pc =
    | NotLooping            // loop() not entered yet
    | Testing               // at while(m_looping)
    | Polling               // inside epoll_wait
    | Handling(wake: bool)  // in the channel handlers, the wakeup channel's among those to come
    | Entering              // doPendingFunctors has set its flag, the queue is not swapped yet
    | Draining              // running the swapped functors
    | Left

  /** pushers and quitters are the threads that owe a wakeup; owing says that the loop thread does.
      pushed, executed and asked (some quit() has stored its flag) record the history. */
  datatype State = State(
    pc: Pc, looping: bool, calling: bool,
    pending: seq<Functor>, batch: seq<Functor>, count: nat,
    pushers: set<ThreadId>, quitters: set<ThreadId>, owing: bool,
    pushed: seq<Functor>, executed: seq<Functor>, asked: bool)

  const INITIAL := State(NotLooping, false, false, [], [], 0, {}, {}, false, [], [], false)

  datatype Event =
    // other threads
    | Push(t: ThreadId, f: Functor)
    | Wake(t: ThreadId)
    | Quit(t: ThreadId)
    | QuitWake(t: ThreadId)
    // code run by the loop thread
    | EarlyPush(f: Functor)
    | EarlyQuit
    | LoopPush(f: Functor)
    | LoopWake
    | LoopQuit
    | Enter
    | Test
    | Return(wake: bool)
    | HandleRead
    | HandlersDone
    | Swap
    | RunNext
    | DrainEnd

  function Written(count: nat): (n: nat)
    ensures n > 0
  {
    if count < EVENTFD_MAX then count + 1 else count
  }

  /** Handlers and functors are the code in which the loop thread queues. */
  predicate InCallback(s: State) {
    s.pc.Handling? || s.pc.Draining?
  }

  predicate Enabled(s: State, e: Event) {
    match e
    case Push(t, _) => t !in s.pushers && t !in s.quitters
    case Wake(t) => t in s.pushers
    case Quit(t) => t !in s.pushers && t !in s.quitters
    case QuitWake(t) => t in s.quitters
    case EarlyPush(_) => s.pc.NotLooping?
    case EarlyQuit => s.pc.NotLooping?
    case LoopPush(_) => InCallback(s) && !s.owing
    case LoopWake => s.owing
    case LoopQuit => InCallback(s) && !s.owing
    case Enter => s.pc.NotLooping?
    case Test => s.pc.Testing?
    case Return(wake) => s.pc.Polling? && (wake ==> s.count > 0)
    case HandleRead => s.pc == Handling(true) && !s.owing
    case HandlersDone => s.pc == Handling(false) && !s.owing
    case Swap => s.pc.Entering?
    case RunNext => s.pc.Draining? && s.batch != [] && !s.owing
    case DrainEnd => s.pc.Draining? && s.batch == [] && !s.owing
  }

  function Queued(s: State, f: Functor): (t: State) {
    s.(pending := s.pending + [f], pushed := s.pushed + [f])
  }

  function Step(s: State, e: Event): (t: State)
    requires Enabled(s, e)
  {
    match e
    case Push(t, f) => Queued(s, f).(pushers := s.pushers + {t})
    case Wake(t) => s.(count := Written(s.count), pushers := s.pushers - {t})
    case Quit(t) => s.(looping := false, quitters := s.quitters + {t}, asked := true)
    case QuitWake(t) => s.(count := Written(s.count), quitters := s.quitters - {t})
    // the loop thread wakes itself only while it is calling pending functors
    case EarlyPush(f) => Queued(s, f)
    case EarlyQuit => s.(looping := false, asked := true)
    case LoopPush(f) => Queued(s, f).(owing := s.calling)
    case LoopWake => s.(count := Written(s.count), owing := false)
    case LoopQuit => s.(looping := false, asked := true)
    case Enter => s.(pc := Testing, looping := true)
    case Test => s.(pc := if s.looping then Polling else Left)
    case Return(wake) => s.(pc := Handling(wake))
    case HandleRead => s.(pc := Handling(false), count := 0)
    case HandlersDone => s.(pc := Entering, calling := true)
    case Swap => s.(pc := Draining, batch := s.pending, pending := [])
    case RunNext => s.(executed := s.executed + [s.batch[0]], batch := s.batch[1..])
    case DrainEnd => s.(pc := Testing, calling := false)
  }

  predicate LegalRun(s: State, es: seq<Event>)
    decreases |es|
  {
    es == [] || (Enabled(s, es[0]) && LegalRun(Step(s, es[0]), es[1..]))
  }

  function Run(s: State, es: seq<Event>): (t: State)
    requires LegalRun(s, es)
    decreases |es|
  {
    if es == [] then s else Run(Step(s, es[0]), es[1..])
  }

  /** The loop sleeps with functors waiting and nobody about to wake it. */
  predicate Stuck(s: State) {
    s.pc.Polling? && s.count == 0 && s.pending != [] && s.pushers == {}
  }

  /** The loop sleeps although it has been told to stop and nobody is about to wake it. */
  predicate SleepsStopped(s: State) {
    s.pc.Polling? && s.count == 0 && !s.looping && s.quitters == {}
  }

  /** The loop sleeps although a quit() was made and no quit() is under way. */
  predicate QuitIgnored(s: State) {
    s.pc.Polling? && s.count == 0 && s.asked && s.quitters == {}
  }

  /** A functor that is waiting has a wakeup under way. */
  predicate Covered(s: State) {
    s.pending == [] || s.count > 0 || s.pushers != {} || s.owing
  }

  /** Executed, being executed and waiting functors are the pushed ones, in push order. */
  predicate InOrder(s: State) {
    s.executed + s.batch + s.pending == s.pushed
  }

  /** What every step keeps, pushes before loop() included. */
  predicate Frame(s: State) {
    && (s.calling <==> s.pc.Entering? || s.pc.Draining?)
    && (s.owing ==> s.pc.Draining?)
    && (s.batch != [] ==> s.pc.Draining?)
    && InOrder(s)
  }

  predicate Inv(s: State) {
    && Frame(s)
    && (s.pc.NotLooping? || s.pc.Testing? || s.pc.Polling? || s.pc.Draining? ==> Covered(s))
    && (s.pc.Polling? && !s.looping ==> s.count > 0 || s.quitters != {})
  }

  lemma StepKeepsOrder(s: State, e: Event)
    requires InOrder(s) && Enabled(s, e) && (e.Swap? ==> s.batch == [])
    ensures InOrder(Step(s, e))
  {
    var t := Step(s, e);
    if e.RunNext? {
      assert s.batch == [s.batch[0]] + s.batch[1..];
      assert t.executed + t.batch == s.executed + s.batch;
    } else if e.Push? || e.EarlyPush? || e.LoopPush? {
      assert s.executed + s.batch + (s.pending + [e.f]) == s.executed + s.batch + s.pending + [e.f];
    } else if e.Swap? {
      assert s.executed + [] + s.pending == s.executed + s.pending + [];
    }
  }

  lemma StepKeepsFrame(s: State, e: Event)
    requires Frame(s) && Enabled(s, e)
    ensures Frame(Step(s, e))
  {
    StepKeepsOrder(s, e);
  }

  lemma StepKeepsInv(s: State, e: Event)
    requires Inv(s) && Enabled(s, e) && !e.EarlyPush?
    ensures Inv(Step(s, e))
  {
    StepKeepsFrame(s, e);
    if e.Push? {
      assert e.t in Step(s, e).pushers;
    } else if e.Quit? {
      assert e.t in Step(s, e).quitters;
    }
  }

  predicate NoEarlyPush(es: seq<Event>) {
    forall i :: 0 <= i < |es| ==> !es[i].EarlyPush?
  }

  lemma {:induction false} RunKeepsInv(s: State, es: seq<Event>)
    requires Inv(s) && LegalRun(s, es) && NoEarlyPush(es)
    ensures Inv(Run(s, es))
    decreases |es|
  {
    if es == [] {
    } else {
      StepKeepsInv(s, es[0]);
      RunKeepsInv(Step(s, es[0]), es[1..]);
    }
  }

  /** In every interleaving of any number of threads, functors queueing during the drain included:
      no lost wakeup, no sleep with the flag cleared, and functors run at most once, in the order
      they were pushed: those run, the rest of the batch and those waiting are the pushes of the run. */
  lemma NoLostWakeup(es: seq<Event>)
    requires LegalRun(INITIAL, es) && NoEarlyPush(es)
    ensures var s := Run(INITIAL, es);
            && !Stuck(s) && !SleepsStopped(s) && InOrder(s) && s.executed <= s.pushed
            && s.executed + s.batch + s.pending == Pushes(es)
  {
    RunKeepsInv(INITIAL, es);
    RunHistory(es, 0);
    var s := Run(INITIAL, es);
    assert s.pushed == s.executed + (s.batch + s.pending);
  }

  /** A loop thread that is about to enter loop(), everything but the queue being in order. */
  predicate ReadyToLoop(s: State) {
    s.pc.NotLooping? && Frame(s)
  }

  /** A run with one more step in front. */
  lemma Prepend(s: State, e: Event, es: seq<Event>)
    requires Enabled(s, e) && LegalRun(Step(s, e), es)
    ensures LegalRun(s, [e] + es) && Run(s, [e] + es) == Run(Step(s, e), es)
  {
    assert ([e] + es)[1..] == es;
  }

  /** What the loop thread queues before entering loop() is the exception: entering is free of lost
      wakeups, in all continuations, exactly when a wakeup covers the queue at that point. */
  lemma EarlyPushExactness(s: State)
    requires ReadyToLoop(s)
    ensures (forall es | LegalRun(s, es) && NoEarlyPush(es) :: !Stuck(Run(s, es))) <==> Covered(s)
  {
    if Covered(s) {
      forall es | LegalRun(s, es) && NoEarlyPush(es)
        ensures !Stuck(Run(s, es))
      {
        RunKeepsInv(s, es);
      }
    } else {
      var es := [Enter] + ([Test] + []);
      Prepend(Step(s, Enter), Test, []);
      Prepend(s, Enter, [Test] + []);
      assert LegalRun(s, es) && NoEarlyPush(es) && Stuck(Run(s, es));
    }
  }

  /** One push before loop(), and the loop sleeps on a non-empty queue. */
  lemma EarlyPushIsStuck(f: Functor)
    ensures var es := [EarlyPush(f), Enter, Test]; LegalRun(INITIAL, es) && Stuck(Run(INITIAL, es))
  {
    var s1 := Step(INITIAL, EarlyPush(f));
    Prepend(Step(s1, Enter), Test, []);
    Prepend(s1, Enter, [Test]);
    Prepend(INITIAL, EarlyPush(f), [Enter, Test]);
    assert [EarlyPush(f)] + [Enter, Test] == [EarlyPush(f), Enter, Test];
  }

  /** A sleeping loop with a wakeup written can go on to run everything that was waiting. */
  lemma WakeupLeadsToDrain(s: State)
    requires Inv(s) && s.pc.Polling? && s.count > 0
    ensures var es := [Return(true), HandleRead, HandlersDone, Swap];
            LegalRun(s, es) && Run(s, es).pc.Draining? && Run(s, es).batch == s.pending
  {
    RoundOf(s, []);
    assert [Return(true), HandleRead, HandlersDone, Swap] + [] == [Return(true), HandleRead, HandlersDone, Swap];
  }

  /** The loop between a wakeup and the start of the drain. */
  function Drain(s: State): (t: State) {
    s.(pc := Draining, count := 0, calling := true, batch := s.pending, pending := [])
  }

  lemma PrependTwo(s: State, e: Event, f: Event, es: seq<Event>)
    requires Enabled(s, e) && Enabled(Step(s, e), f) && LegalRun(Step(Step(s, e), f), es)
    ensures LegalRun(s, [e, f] + es) && Run(s, [e, f] + es) == Run(Step(Step(s, e), f), es)
  {
    Prepend(Step(s, e), f, es);
    Prepend(s, e, [f] + es);
    assert [e] + ([f] + es) == [e, f] + es;
  }

  lemma RoundOf(s: State, es: seq<Event>)
    requires s.pc.Polling? && s.count > 0 && !s.owing && LegalRun(Drain(s), es)
    ensures var all := [Return(true), HandleRead, HandlersDone, Swap] + es;
            LegalRun(s, all) && Run(s, all) == Run(Drain(s), es)
  {
    var mid := Step(Step(s, Return(true)), HandleRead);
    assert Step(Step(mid, HandlersDone), Swap) == Drain(s);
    PrependTwo(mid, HandlersDone, Swap, es);
    PrependTwo(s, Return(true), HandleRead, [HandlersDone, Swap] + es);
    assert [Return(true), HandleRead] + ([HandlersDone, Swap] + es) ==
           [Return(true), HandleRead, HandlersDone, Swap] + es;
  }

  // ----- quit() -----

  predicate IsQuit(e: Event) {
    e.Quit? || e.EarlyQuit? || e.LoopQuit?
  }

  /** Told to stop while in loop(): no sleep without a wakeup under way. */
  predicate Stopping(s: State) {
    && !s.looping && !s.pc.NotLooping?
    && (s.pc.Polling? ==> s.count > 0 || s.quitters != {})
  }

  /** Nothing sets the flag again, so the loop leaves at its next test. */
  lemma {:induction false} RunKeepsStopping(s: State, es: seq<Event>)
    requires Stopping(s) && LegalRun(s, es)
    ensures Stopping(Run(s, es))
    decreases |es|
  {
    if es == [] {
    } else {
      assert es[0].Quit? ==> es[0].t in Step(s, es[0]).quitters;
      RunKeepsStopping(Step(s, es[0]), es[1..]);
    }
  }

  /** A quit was made, its flag has been overwritten, and no quit is under way. */
  predicate Overwritten(s: State) {
    s.asked && s.looping && s.quitters == {} && !s.owing
  }

  lemma {:induction false} DrainsToSleep(s: State) returns (es: seq<Event>)
    requires Overwritten(s) && s.pc.Draining? && s.count == 0
    ensures LegalRun(s, es) && QuitIgnored(Run(s, es))
    decreases |s.batch|
  {
    if s.batch == [] {
      Prepend(Step(s, DrainEnd), Test, []);
      Prepend(s, DrainEnd, [Test] + []);
      es := [DrainEnd] + ([Test] + []);
    } else {
      var rest := DrainsToSleep(Step(s, RunNext));
      Prepend(s, RunNext, rest);
      es := [RunNext] + rest;
    }
  }

  lemma PollsToSleep(s: State) returns (es: seq<Event>)
    requires Overwritten(s) && s.pc.Polling?
    ensures LegalRun(s, es) && QuitIgnored(Run(s, es))
  {
    if s.count == 0 {
      es := [];
    } else {
      var rest := DrainsToSleep(Drain(s));
      RoundOf(s, rest);
      es := [Return(true), HandleRead, HandlersDone, Swap] + rest;
    }
  }

  /** loop() overwrites the flag: all quits under way can complete, and the loop enters, serves
      whatever was queued, and sleeps. */
  lemma {:induction false} EntersToSleep(s: State) returns (es: seq<Event>)
    requires s.pc.NotLooping? && s.asked && !s.owing
    ensures LegalRun(s, es) && QuitIgnored(Run(s, es))
    decreases |s.quitters|
  {
    if s.quitters == {} {
      var s1 := Step(s, Enter);
      var rest := PollsToSleep(Step(s1, Test));
      Prepend(s1, Test, rest);
      Prepend(s, Enter, [Test] + rest);
      es := [Enter] + ([Test] + rest);
    } else {
      var t :| t in s.quitters;
      var rest := EntersToSleep(Step(s, QuitWake(t)));
      Prepend(s, QuitWake(t), rest);
      es := [QuitWake(t)] + rest;
    }
  }

  lemma {:induction false} RunEntered(s: State, es: seq<Event>)
    requires Frame(s) && LegalRun(s, es)
    ensures Frame(Run(s, es))
    ensures Run(s, es).pc.NotLooping? <==> s.pc.NotLooping? && Enter !in es
    decreases |es|
  {
    if es == [] {
    } else {
      StepKeepsFrame(s, es[0]);
      RunEntered(Step(s, es[0]), es[1..]);
      assert Enter in es <==> es[0] == Enter || Enter in es[1..];
    }
  }

  lemma QuitFrom(s: State)
    requires s.asked && if s.pc.NotLooping? then !s.owing else Stopping(s)
    ensures (forall es | LegalRun(s, es) :: !QuitIgnored(Run(s, es))) <==> !s.pc.NotLooping?
  {
    if s.pc.NotLooping? {
      var es := EntersToSleep(s);
      assert exists xs :: LegalRun(s, xs) && QuitIgnored(Run(s, xs));
    } else {
      forall es | LegalRun(s, es)
        ensures !QuitIgnored(Run(s, es))
      {
        RunKeepsStopping(s, es);
      }
    }
  }

  /** quit() is honoured in all continuations if and only if loop() has been entered when it stores
      its flag: loop() begins by setting the flag again. */
  lemma QuitExactness(es: seq<Event>, e: Event)
    requires LegalRun(INITIAL, es) && Enabled(Run(INITIAL, es), e) && IsQuit(e)
    ensures var s := Step(Run(INITIAL, es), e);
            (forall more | LegalRun(s, more) :: !QuitIgnored(Run(s, more))) <==> Enter in es
  {
    RunEntered(INITIAL, es);
    var s := Step(Run(INITIAL, es), e);
    assert e.Quit? ==> e.t in s.quitters;
    QuitFrom(s);
  }

  /** One pass of the loop that ends asleep. */
  const QUIET_PASS := [Return(true), HandleRead, HandlersDone, Swap] + [DrainEnd, Test]

  lemma QuietPass(s: State)
    requires Overwritten(s) && s.pc.Polling? && s.count > 0 && s.pending == []
    ensures LegalRun(s, QUIET_PASS) && QuitIgnored(Run(s, QUIET_PASS))
  {
    var t := Drain(s);
    Prepend(Step(t, DrainEnd), Test, []);
    Prepend(t, DrainEnd, [Test]);
    RoundOf(s, [DrainEnd, Test]);
  }

  /** Another thread's quit(), completed before loop(), and the loop goes to sleep. */
  lemma EarlyQuitIsLost(t: ThreadId)
    ensures var es := [Quit(t)] + ([QuitWake(t)] + ([Enter] + ([Test] + QUIET_PASS)));
            LegalRun(INITIAL, es) && QuitIgnored(Run(INITIAL, es))
  {
    var s1 := Step(INITIAL, Quit(t));
    var s2 := Step(s1, QuitWake(t));
    var s3 := Step(s2, Enter);
    QuietPass(Step(s3, Test));
    Prepend(s3, Test, QUIET_PASS);
    Prepend(s2, Enter, [Test] + QUIET_PASS);
    Prepend(s1, QuitWake(t), [Enter] + ([Test] + QUIET_PASS));
    Prepend(INITIAL, Quit(t), [QuitWake(t)] + ([Enter] + ([Test] + QUIET_PASS)));
  }

  // ----- The state a run leads to, read off its events -----

  predicate IsPush(e: Event) {
    e.Push? || e.EarlyPush? || e.LoopPush?
  }

  predicate IsWrite(e: Event) {
    e.Wake? || e.QuitWake? || e.LoopWake?
  }

  /** The functors pushed, in order. */
  function Pushes(es: seq<Event>): (fs: seq<Functor>) {
    if es == [] then []
    else
      var e := es[|es| - 1];
      Pushes(es[..|es| - 1]) + if IsPush(e) then [e.f] else []
  }

  /** The last of loop()'s entry and the quits was the entry. */
  predicate FlagUp(es: seq<Event>) {
    && es != []
    && var e := es[|es| - 1];
       e.Enter? || (!IsQuit(e) && FlagUp(es[..|es| - 1]))
  }

  predicate QuitMade(es: seq<Event>) {
    exists i :: 0 <= i < |es| && IsQuit(es[i])
  }

  /** Thread t has begun a queueInLoop, or a quit, and not written its wakeup yet. */
  predicate PushOpen(es: seq<Event>, t: ThreadId) {
    && es != []
    && var e := es[|es| - 1];
       (e.Push? && e.t == t) || (e != Wake(t) && PushOpen(es[..|es| - 1], t))
  }

  predicate QuitOpen(es: seq<Event>, t: ThreadId) {
    && es != []
    && var e := es[|es| - 1];
       e == Quit(t) || (e != QuitWake(t) && QuitOpen(es[..|es| - 1], t))
  }

  /** A wakeup was written since the eventfd was last read. */
  predicate Readable(es: seq<Event>) {
    && es != []
    && var e := es[|es| - 1];
       IsWrite(e) || (!e.HandleRead? && Readable(es[..|es| - 1]))
  }

  /** The order of loop(): test, poll, handlers, drain, test again. */
  function NextPc(pc: Pc, flag: bool, e: Event): (next: Pc) {
    match e
    case Enter => Testing
    case Test => if flag then Polling else Left
    case Return(wake) => Handling(wake)
    case HandleRead => Handling(false)
    case HandlersDone => Entering
    case Swap => Draining
    case DrainEnd => Testing
    case _ => pc
  }

  /** Where the loop thread stands. */
  function PcOf(es: seq<Event>): (pc: Pc) {
    if es == [] then NotLooping
    else
      var n := |es| - 1;
      NextPc(PcOf(es[..n]), FlagUp(es[..n]), es[n])
  }

  lemma StepPc(s: State, e: Event)
    requires Enabled(s, e)
    ensures Step(s, e).pc == NextPc(s.pc, s.looping, e)
  {
    match e
    case Enter =>
    case Test =>
    case Return(_) =>
    case HandleRead =>
    case HandlersDone =>
    case Swap =>
    case DrainEnd =>
    case _ =>
  }

  lemma {:induction false} LastStep(s: State, es: seq<Event>)
    requires es != [] && LegalRun(s, es)
    ensures var n := |es| - 1;
            LegalRun(s, es[..n]) && Enabled(Run(s, es[..n]), es[n]) && Run(s, es) == Step(Run(s, es[..n]), es[n])
    decreases |es|
  {
    if |es| == 1 {
      assert es[..0] == [] && es[1..] == [];
    } else {
      LastStep(Step(s, es[0]), es[1..]);
      assert es[..|es| - 1][1..] == es[1..][..|es| - 2];
    }
  }

  predicate MatchesLoop(s: State, es: seq<Event>) {
    && s.pushed == Pushes(es) && (s.looping <==> FlagUp(es)) && (s.count > 0 <==> Readable(es))
    && (s.asked <==> QuitMade(es)) && s.pc == PcOf(es)
  }

  predicate MatchesThread(s: State, es: seq<Event>, t: ThreadId) {
    (t in s.pushers <==> PushOpen(es, t)) && (t in s.quitters <==> QuitOpen(es, t))
  }

  lemma StepPushes(s: State, es: seq<Event>)
    requires es != [] && s.pushed == Pushes(es[..|es| - 1]) && Enabled(s, es[|es| - 1])
    ensures Step(s, es[|es| - 1]).pushed == Pushes(es)
  {
  }

  lemma StepReadable(s: State, es: seq<Event>)
    requires es != [] && (s.count > 0 <==> Readable(es[..|es| - 1])) && Enabled(s, es[|es| - 1])
    ensures Step(s, es[|es| - 1]).count > 0 <==> Readable(es)
  {
  }

  lemma StepFlag(s: State, es: seq<Event>)
    requires es != [] && (s.looping <==> FlagUp(es[..|es| - 1])) && Enabled(s, es[|es| - 1])
    ensures Step(s, es[|es| - 1]).looping <==> FlagUp(es)
  {
  }

  lemma StepMatchesLoop(s: State, es: seq<Event>)
    requires es != [] && MatchesLoop(s, es[..|es| - 1]) && Enabled(s, es[|es| - 1])
    ensures MatchesLoop(Step(s, es[|es| - 1]), es)
  {
    StepPushes(s, es);
    StepReadable(s, es);
    StepFlag(s, es);
    StepPc(s, es[|es| - 1]);
    QuitMadeSnoc(es);
  }

  lemma StepMatchesThread(s: State, es: seq<Event>, t: ThreadId)
    requires es != [] && MatchesThread(s, es[..|es| - 1], t) && Enabled(s, es[|es| - 1])
    ensures MatchesThread(Step(s, es[|es| - 1]), es, t)
  {
  }

  /** Over every run, from the events alone: where the loop stands, what has been pushed, whether the flag is up, whether the
      eventfd is readable, whether a quit was made, and whether thread t is in the middle of a call. */
  lemma {:induction false} RunHistory(es: seq<Event>, t: ThreadId)
    requires LegalRun(INITIAL, es)
    ensures MatchesLoop(Run(INITIAL, es), es) && MatchesThread(Run(INITIAL, es), es, t)
    decreases |es|
  {
    if es == [] {
    } else {
      LastStep(INITIAL, es);
      var prefix := es[..|es| - 1];
      RunHistory(prefix, t);
      StepMatchesLoop(Run(INITIAL, prefix), es);
      StepMatchesThread(Run(INITIAL, prefix), es, t);
    }
  }

  lemma QuitMadeSnoc(es: seq<Event>)
    requires es != []
    ensures QuitMade(es) <==> QuitMade(es[..|es| - 1]) || IsQuit(es[|es| - 1])
  {
    var n := |es| - 1;
    assert forall i :: 0 <= i < n ==> es[..n][i] == es[i];
    if i :| 0 <= i < n && IsQuit(es[..n][i]) {
      assert IsQuit(es[i]);
    }
    if i :| 0 <= i < |es| && IsQuit(es[i]) {
      assert i < n ==> IsQuit(es[..n][i]);
    }
  }

  /** At the top of the loop, the next step is a poll if and only if the last of loop()'s entry and the
      quits was the entry; otherwise loop() returns. */
  lemma TestExactness(es: seq<Event>)
    requires LegalRun(INITIAL, es) && Enabled(Run(INITIAL, es), Test)
    ensures Step(Run(INITIAL, es), Test).pc == if FlagUp(es) then Polling else Left
  {
    RunHistory(es, 0);
  }

  lemma {:induction false} LeftWasAsked(s: State, es: seq<Event>)
    requires LegalRun(s, es)
    requires s.pc.Left? || (!s.pc.NotLooping? && !s.looping) ==> s.asked
    ensures Run(s, es).pc.Left? ==> Run(s, es).asked
    decreases |es|
  {
    if es == [] {
    } else {
      LeftWasAsked(Step(s, es[0]), es[1..]);
    }
  }

  /** loop() returns only if a quit was made. */
  lemma LeavesOnlyWhenAsked(es: seq<Event>)
    requires LegalRun(INITIAL, es) && Run(INITIAL, es).pc.Left?
    ensures QuitMade(es)
  {
    LeftWasAsked(INITIAL, es);
    RunHistory(es, 0);
  }

  // ----- Drains -----

  function Runs(es: seq<Event>): (n: nat) {
    if es == [] then 0 else (if es[0].RunNext? then 1 else 0) + Runs(es[1..])
  }

  lemma StepKeepsBatch(s: State, e: Event)
    requires Enabled(s, e) && !e.Swap?
    ensures var t := Step(s, e);
            && t.executed + t.batch == s.executed + s.batch
            && |t.executed| == |s.executed| + (if e.RunNext? then 1 else 0)
            && |t.batch| == |s.batch| - (if e.RunNext? then 1 else 0)
  {
    if e.RunNext? {
      assert s.batch == [s.batch[0]] + s.batch[1..];
    }
  }

  /** Between two swaps the batch is consumed and nothing is added to it: however much the functors
      queue, a drain calls at most the functors it swapped out, and has called exactly those, in
      order, when it ends. */
  lemma {:induction false} DrainRunsTheBatch(s: State, es: seq<Event>)
    requires LegalRun(s, es) && (forall i :: 0 <= i < |es| ==> !es[i].Swap?)
    ensures var t := Run(s, es);
            && t.executed + t.batch == s.executed + s.batch
            && |t.executed| == |s.executed| + Runs(es)
            && Runs(es) <= |s.batch|
            && (t.batch == [] ==> t.executed == s.executed + s.batch)
    decreases |es|
  {
    if es == [] {
    } else {
      StepKeepsBatch(s, es[0]);
      DrainRunsTheBatch(Step(s, es[0]), es[1..]);
    }
  }

  /** A run with one more step at the end. */
  lemma {:induction false} Extend(s: State, es: seq<Event>, e: Event)
    requires LegalRun(s, es) && Enabled(Run(s, es), e)
    ensures LegalRun(s, es + [e]) && Run(s, es + [e]) == Step(Run(s, es), e)
    decreases |es|
  {
    if es == [] {
      assert [e][1..] == [] && es + [e] == [e];
    } else {
      Extend(Step(s, es[0]), es[1..], e);
      assert (es + [e])[1..] == es[1..] + [e];
    }
  }

  /** The members of EventLoop; trace is the run of the transition system that led here and state
      where it ended. Every method extends that run, so what holds of all runs holds of the object
      after every call. */
  class EventLoop {
    var looping: bool
    var calling: bool
    var pending: seq<Functor>
    var count: nat
    ghost var state: State
    ghost var trace: seq<Event>

    ghost predicate Traced()
      reads this`state, this`trace
    {
      LegalRun(INITIAL, trace) && Run(INITIAL, trace) == state
    }

    ghost predicate Valid()
      reads this
    {
      && Traced()
      && looping == state.looping && calling == state.calling
      && pending == state.pending && count == state.count
    }

    constructor ()
      ensures Valid() && trace == [] && state == INITIAL
    {
      looping, calling, pending, count := false, false, [], 0;
      state, trace := INITIAL, [];
    }

    ghost method Record(e: Event)
      requires Traced() && Enabled(state, e)
      modifies this`state, this`trace
      ensures Traced() && trace == old(trace) + [e] && state == Step(old(state), e)
    {
      Extend(INITIAL, trace, e);
      state, trace := Step(state, e), trace + [e];
    }

    /** loop() up to its first test. */
    method EnterLoop()
      requires Valid() && Enabled(state, Enter)
      modifies this`looping, this`state, this`trace
      ensures Valid() && trace == old(trace) + [Enter] && state == Step(old(state), Enter)
    {
      looping := true;
      Record(Enter);
    }

    /** One pass of loop(), if the flag is still up: a poll, which may report the wakeup channel, the
        handlers, which queue the functors of handled, and the drain. */
    method Pass(wake: bool, handled: seq<Functor>, queues: Functor -> seq<Functor>) returns (again: bool)
      requires Valid() && Enabled(state, Test) && !calling && !state.owing && (wake ==> count > 0)
      modifies this
      ensures Valid() && old(trace) < trace && again == old(looping)
      ensures !again ==> state == old(state).(pc := Left)
      ensures again ==> state.pc.Testing? && looping == old(looping)
      ensures again ==> state.executed == old(state.executed) + (old(pending) + handled)
      ensures again ==> pending == QueuedBy(old(pending) + handled, queues)
    {
      again := looping;
      Record(Test);
      if again {
        Record(Return(wake));
        RunHandlers(wake, handled);
        DoPendingFunctors(queues);
      }
    }

    /** The channel handlers: what they queue is served in the same pass, so they write no wakeup. */
    method RunHandlers(wake: bool, handled: seq<Functor>)
      requires Valid() && state.pc == Handling(wake) && !calling && !state.owing
      modifies this`pending, this`count, this`state, this`trace
      ensures Valid() && old(trace) <= trace
      ensures state == old(state).(pc := Handling(false), count := count, pending := pending, pushed := state.pushed)
      ensures pending == old(pending) + handled && count == if wake then 0 else old(count)
    {
      for i := 0 to |handled|
        invariant Valid() && old(trace) <= trace
        invariant state == old(state).(pending := pending, pushed := state.pushed)
        invariant pending == old(pending) + handled[..i]
      {
        QueueInLoop(true, 0, handled[i]);
      }
      if wake {
        HandleRead();
      }
    }

    /** The write to the eventfd, on behalf of whichever thread owes it. */
    method Wakeup(ghost e: Event)
      requires Valid() && (e.Wake? || e.QuitWake? || e.LoopWake?) && Enabled(state, e)
      modifies this`count, this`state, this`trace
      ensures Valid() && trace == old(trace) + [e] && state == Step(old(state), e)
    {
      if count < EVENTFD_MAX {
        count := count + 1;
      }
      Record(e);
    }

    method QueueInLoop(inLoopThread: bool, ghost t: ThreadId, f: Functor)
      requires Valid() && MayCall(state, inLoopThread, t)
      modifies this`pending, this`count, this`state, this`trace
      ensures Valid() && trace == old(trace) + QueueEvents(old(state), inLoopThread, t, f)
      ensures state == QueueCalled(old(state), inLoopThread, f)
    {
      pending := pending + [f];
      Record(QueueEvents(state, inLoopThread, t, f)[0]);
      if !inLoopThread || calling {
        Wakeup(if inLoopThread then LoopWake else Wake(t));
      }
    }

    method Quit(inLoopThread: bool, ghost t: ThreadId)
      requires Valid() && MayCall(state, inLoopThread, t)
      modifies this`looping, this`count, this`state, this`trace
      ensures Valid() && trace == old(trace) + QuitEvents(old(state), inLoopThread, t)
      ensures state == old(state).(looping := false, asked := true, count := count)
      ensures count == if inLoopThread then old(count) else Written(old(count))
    {
      looping := false;
      Record(QuitEvents(state, inLoopThread, t)[0]);
      if !inLoopThread {
        Wakeup(QuitWake(t));
      }
    }

    /** The read callback of the wakeup channel. */
    method HandleRead()
      requires Valid() && Enabled(state, Event.HandleRead)
      modifies this`count, this`state, this`trace
      ensures Valid() && trace == old(trace) + [Event.HandleRead] && state == Step(old(state), Event.HandleRead)
    {
      count := 0;
      Record(Event.HandleRead);
    }

    /** The functors of the swapped batch run, in order and once each; what they queue stays for
        the next iteration, and the eventfd is then readable. */
    method DoPendingFunctors(queues: Functor -> seq<Functor>)
      requires Valid() && Enabled(state, HandlersDone)
      modifies this
      ensures Valid() && old(trace) < trace && state.pc.Testing?
      ensures looping == old(looping)
      ensures state.executed == old(state.executed) + old(pending)
      ensures pending == QueuedBy(old(pending), queues)
      ensures pending != [] ==> count > 0
      ensures pending == [] ==> count == old(count)
    {
      var functors := TakeQueue();
      RunBatch(functors, queues);
      calling := false;
      Record(DrainEnd);
    }

    /** Sets the flag and swaps the queue out. */
    method TakeQueue() returns (functors: seq<Functor>)
      requires Valid() && Enabled(state, HandlersDone)
      modifies this`calling, this`pending, this`state, this`trace
      ensures Valid() && old(trace) < trace && Drains(state, functors)
      ensures functors == old(pending) && pending == [] && state.executed == old(state.executed)
    {
      calling := true;
      Record(HandlersDone);
      functors := pending;
      pending := [];
      Record(Swap);
    }

    method RunBatch(functors: seq<Functor>, queues: Functor -> seq<Functor>)
      requires Valid() && Drains(state, functors) && pending == []
      modifies this`pending, this`count, this`state, this`trace
      ensures Valid() && old(trace) <= trace && Drains(state, [])
      ensures state.executed == old(state.executed) + functors
      ensures pending == QueuedBy(functors, queues)
      ensures pending != [] ==> count > 0
      ensures pending == [] ==> count == old(count)
    {
      for i := 0 to |functors|
        invariant Valid() && old(trace) <= trace && Drains(state, functors[i..])
        invariant state.executed == old(state.executed) + functors[..i]
        invariant pending == QueuedBy(functors[..i], queues)
        invariant pending != [] ==> count > 0
        invariant pending == [] ==> count == old(count)
      {
        RunFunctor(functors[i], queues(functors[i]));
        assert functors[..i + 1] == functors[..i] + [functors[i]];
      }
      assert functors[..|functors|] == functors;
    }

    /** One functor: a token for the call, and the functors it queues. */
    method RunFunctor(f: Functor, fs: seq<Functor>)
      requires Valid() && state.batch != [] && state.batch[0] == f && Drains(state, state.batch)
      requires pending != [] ==> count > 0
      modifies this`pending, this`count, this`state, this`trace
      ensures Valid() && old(trace) < trace && Drains(state, old(state.batch)[1..])
      ensures state.executed == old(state.executed) + [f] && pending == old(pending) + fs
      ensures pending != [] ==> count > 0
      ensures fs == [] ==> count == old(count)
    {
      Record(RunNext);
      for j := 0 to |fs|
        invariant Valid() && old(trace) < trace && Drains(state, old(state.batch)[1..])
        invariant state.executed == old(state.executed) + [f]
        invariant pending == old(pending) + fs[..j]
        invariant pending != [] ==> count > 0
        invariant j == 0 ==> count == old(count)
      {
        QueueInLoop(true, 0, fs[j]);
      }
    }
  }

  /** Between two functors of the drain, with these still to run. */
  predicate Drains(s: State, rest: seq<Functor>) {
    s.pc.Draining? && s.calling && !s.owing && s.batch == rest
  }

  /** Thread t, if it is not the loop's own, is not in the middle of another call; the loop thread
      is in a callback or has not entered loop(). */
  predicate MayCall(s: State, inLoopThread: bool, t: ThreadId) {
    if inLoopThread then (s.pc.NotLooping? && !s.calling) || (InCallback(s) && !s.owing)
    else t !in s.pushers && t !in s.quitters
  }

  /** The state after a whole queueInLoop. */
  function QueueCalled(s: State, inLoopThread: bool, f: Functor): (t: State) {
    Queued(s, f).(count := if !inLoopThread || s.calling then Written(s.count) else s.count)
  }

  function QuitEvents(s: State, inLoopThread: bool, t: ThreadId): (es: seq<Event>)
    ensures es != []
  {
    if !inLoopThread then [Quit(t), QuitWake(t)] else if s.pc.NotLooping? then [EarlyQuit] else [LoopQuit]
  }

  /** The steps of one queueInLoop. */
  function QueueEvents(s: State, inLoopThread: bool, t: ThreadId, f: Functor): (es: seq<Event>) {
    if !inLoopThread then [Push(t, f), Wake(t)]
    else if s.calling then [LoopPush(f), LoopWake]
    else if s.pc.NotLooping? then [EarlyPush(f)]
    else [LoopPush(f)]
  }

  function QueuedBy(fs: seq<Functor>, queues: Functor -> seq<Functor>): (r: seq<Functor>) {
    if fs == [] then [] else QueuedBy(fs[..|fs| - 1], queues) + queues(fs[|fs| - 1])
  }
}
