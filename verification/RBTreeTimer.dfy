/** Timer/rbtreetimer.cpp, Timer/rbtreetimer.h and Timer/timer.h: an ordered set of timers behind one
    timerfd. Times are nanoseconds of the steady clock; every reading of the clock is a parameter. */
module RBTreeTimers {
  import opened Wrappers
  import opened Truncation

  const MICRO := 1000
  const MICROS_PER_SECOND := 1000 * 1000
  const NANOS_PER_SECOND := 1000 * 1000 * 1000

  /** period is the interval cut down to whole microseconds; repeat says whether it was positive. */
  datatype Timer = Timer(id: nat, expiration: int, period: nat, repeat: bool)

  function Restarted(t: Timer, now: int): (u: Timer) {
    t.(expiration := now + t.period * MICRO)
  }

  // ----- std::set ordered by expiration alone -----

  predicate Sorted(ts: seq<Timer>) {
    forall i, j :: 0 <= i < j < |ts| ==> ts[i].expiration < ts[j].expiration
  }

  predicate Clashes(ts: seq<Timer>, t: Timer) {
    exists u :: u in ts && u.expiration == t.expiration
  }

  /** set::insert: a timer whose expiration is already taken is dropped. */
  function Insert(ts: seq<Timer>, t: Timer): (us: seq<Timer>) {
    if ts == [] || t.expiration < ts[0].expiration then [t] + ts
    else if t.expiration == ts[0].expiration then ts
    else [ts[0]] + Insert(ts[1..], t)
  }

  lemma {:induction false} InsertMeaning(ts: seq<Timer>, t: Timer)
    requires Sorted(ts)
    ensures Sorted(Insert(ts, t))
    ensures forall u :: u in Insert(ts, t) <==> u in ts || (u == t && !Clashes(ts, t))
    ensures Insert(ts, t) != []
    ensures Insert(ts, t)[0].expiration ==
            if ts == [] || t.expiration < ts[0].expiration then t.expiration else ts[0].expiration
  {
    if ts == [] || t.expiration < ts[0].expiration {
    } else if t.expiration == ts[0].expiration {
      assert ts[0] in ts;
    } else {
      var rest := Insert(ts[1..], t);
      InsertMeaning(ts[1..], t);
      assert ts == [ts[0]] + ts[1..];
      forall j | 0 <= j < |rest|
        ensures ts[0].expiration < rest[j].expiration
      {
        assert rest[j] in rest;
      }
      assert Clashes(ts, t) <==> Clashes(ts[1..], t);
    }
  }

  function InsertAll(ts: seq<Timer>, ins: seq<Timer>): (us: seq<Timer>)
    decreases |ins|
  {
    if ins == [] then ts else InsertAll(Insert(ts, ins[0]), ins[1..])
  }

  /** The i-th insertion succeeds: its expiration was free, in the set and among those before it. */
  predicate Kept(ts: seq<Timer>, ins: seq<Timer>, i: nat)
    requires i < |ins|
  {
    !Clashes(ts, ins[i]) && !Clashes(ins[..i], ins[i])
  }

  /** Exactly which timers survive a sequence of insertions: all that were there, and each new one
      that comes first with its expiration. */
  lemma {:induction false} InsertAllMeaning(ts: seq<Timer>, ins: seq<Timer>)
    requires Sorted(ts)
    ensures Sorted(InsertAll(ts, ins))
    ensures forall u :: u in InsertAll(ts, ins) <==>
                          u in ts || exists i :: 0 <= i < |ins| && ins[i] == u && Kept(ts, ins, i)
    decreases |ins|
  {
    if ins == [] {
    } else {
      var t, mid, rest := ins[0], Insert(ts, ins[0]), ins[1..];
      InsertMeaning(ts, t);
      InsertAllMeaning(mid, rest);
      forall i: nat | i < |rest|
        ensures Kept(mid, rest, i) <==> Kept(ts, ins, i + 1)
      {
        assert ins[..i + 1] == [t] + rest[..i];
        ClashesAfterInsert(ts, t, rest[i]);
      }
      assert Kept(ts, ins, 0) <==> !Clashes(ts, t);
      forall u
        ensures u in InsertAll(ts, ins) <==>
                u in ts || exists i :: 0 <= i < |ins| && ins[i] == u && Kept(ts, ins, i)
      {
        if i :| 0 <= i < |rest| && rest[i] == u && Kept(mid, rest, i) {
          assert ins[i + 1] == u && Kept(ts, ins, i + 1);
        }
        if i :| 0 <= i < |ins| && ins[i] == u && Kept(ts, ins, i) {
          assert i > 0 ==> rest[i - 1] == u && Kept(mid, rest, i - 1);
        }
      }
    }
  }

  lemma ClashesAfterInsert(ts: seq<Timer>, t: Timer, u: Timer)
    requires Sorted(ts)
    ensures Clashes(Insert(ts, t), u) <==> Clashes(ts, u) || t.expiration == u.expiration
  {
    InsertMeaning(ts, t);
  }

  // ----- Expiry -----

  /** lower_bound(now): how many timers expire before now. */
  function Before(ts: seq<Timer>, now: int): (k: nat)
    ensures k <= |ts|
  {
    if ts == [] || ts[0].expiration >= now then 0 else 1 + Before(ts[1..], now)
  }

  function Expired(ts: seq<Timer>, now: int): (es: seq<Timer>) {
    ts[..Before(ts, now)]
  }

  function Remaining(ts: seq<Timer>, now: int): (rs: seq<Timer>) {
    ts[Before(ts, now)..]
  }

  /** The expired timers are exactly those before now, in ascending order; the others remain. */
  lemma {:induction false} ExpiredMeaning(ts: seq<Timer>, now: int)
    requires Sorted(ts)
    ensures Expired(ts, now) + Remaining(ts, now) == ts
    ensures Sorted(Expired(ts, now)) && Sorted(Remaining(ts, now))
    ensures forall u :: u in Expired(ts, now) <==> u in ts && u.expiration < now
    ensures forall u :: u in Remaining(ts, now) <==> u in ts && u.expiration >= now
  {
    BeforeSplits(ts, now);
    forall u
      ensures u in Expired(ts, now) <==> u in ts && u.expiration < now
      ensures u in Remaining(ts, now) <==> u in ts && u.expiration >= now
    {
      MemberSplits(ts, Before(ts, now), u);
    }
  }

  lemma MemberSplits(ts: seq<Timer>, k: nat, u: Timer)
    requires k <= |ts|
    ensures u in ts[..k] <==> exists i :: 0 <= i < k && ts[i] == u
    ensures u in ts[k..] <==> exists i :: k <= i < |ts| && ts[i] == u
  {
    if i :| 0 <= i < k && ts[i] == u {
      assert ts[..k][i] == u;
    }
    if i :| k <= i < |ts| && ts[i] == u {
      assert ts[k..][i - k] == u;
    }
  }

  lemma {:induction false} BeforeSplits(ts: seq<Timer>, now: int)
    requires Sorted(ts)
    ensures forall i :: 0 <= i < Before(ts, now) ==> ts[i].expiration < now
    ensures forall i :: Before(ts, now) <= i < |ts| ==> ts[i].expiration >= now
  {
    if ts == [] || ts[0].expiration >= now {
    } else {
      BeforeSplits(ts[1..], now);
      var k := Before(ts[1..], now);
      assert forall i :: 1 <= i < |ts| ==> ts[i] == ts[1..][i - 1];
    }
  }

  // ----- The timerfd -----

  /** timerfd_settime, relative and one-shot: a negative or oversized field is refused, zero
      disarms. The descriptor is its deadline, None when disarmed. */
  function Settime(fd: Option<int>, now: int, sec: int, nsec: int): (d: Option<int>) {
    if sec < 0 || nsec < 0 || nsec >= NANOS_PER_SECOND then fd
    else if sec == 0 && nsec == 0 then None
    else Some(now + sec * NANOS_PER_SECOND + nsec)
  }

  /** timeDifference counts whole microseconds. */
  function Micros(expiration: int, now: int): (diff: int) {
    TruncDiv(expiration - now, MICRO)
  }

  function ResetFd(fd: Option<int>, expiration: int, now: int): (d: Option<int>) {
    var diff := Micros(expiration, now);
    Settime(fd, now, TruncDiv(diff, MICROS_PER_SECOND), TruncMod(diff, MICROS_PER_SECOND) * 1000)
  }

  /** The split into seconds and nanoseconds is exact and within range. */
  lemma SplitIsExact(diff: nat)
    ensures var sec, nsec := TruncDiv(diff, MICROS_PER_SECOND), TruncMod(diff, MICROS_PER_SECOND) * 1000;
            sec >= 0 && 0 <= nsec <= 999_999_999 && sec * NANOS_PER_SECOND + nsec == diff * MICRO
  {
  }

  lemma NegativeSplit(diff: int)
    requires diff < 0
    ensures TruncDiv(diff, MICROS_PER_SECOND) < 0 || TruncMod(diff, MICROS_PER_SECOND) < 0
  {
  }

  /** Exactly what arming does: right to the microsecond when the expiration is at least one
      microsecond ahead, disarmed when it is closer than that on either side, and no effect at all
      when it is a microsecond or more in the past. */
  lemma ResetExactness(fd: Option<int>, expiration: int, now: int)
    ensures var ahead, d := expiration - now, ResetFd(fd, expiration, now);
            && (ahead >= MICRO ==> d == Some(expiration - ahead % MICRO))
            && (-MICRO < ahead < MICRO ==> d == None)
            && (ahead <= -MICRO ==> d == fd)
  {
    var diff := Micros(expiration, now);
    if diff >= 0 {
      SplitIsExact(diff);
    } else {
      NegativeSplit(diff);
    }
  }

  // ----- The scheduler -----

  datatype State = State(timers: seq<Timer>, fd: Option<int>)

  const IDLE := State([], None)

  predicate Earliest(ts: seq<Timer>, t: Timer) {
    ts == [] || t.expiration < ts[0].expiration
  }

  /** addTimerInLoop, the clock read at now. */
  function AddTimer(s: State, t: Timer, now: int): (r: State) {
    State(Insert(s.timers, t), if Earliest(s.timers, t) then ResetFd(s.fd, t.expiration, now) else s.fd)
  }

  datatype Added = Added(timer: Timer, now: int)

  /** What running one timer does: the timers its callback adds, and the clock at its restart. */
  datatype Effect = Effect(adds: seq<Added>, restartAt: int)

  function AddAll(s: State, adds: seq<Added>): (r: State)
    decreases |adds|
  {
    if adds == [] then s else AddAll(AddTimer(s, adds[0].timer, adds[0].now), adds[1..])
  }

  /** run() and handleRepeatTimer for one expired timer. */
  function RunOne(s: State, t: Timer, e: Effect): (r: State) {
    var r := AddAll(s, e.adds);
    if t.repeat then r.(timers := Insert(r.timers, Restarted(t, e.restartAt))) else r
  }

  /** The loop over the expired timers, up to the i-th. */
  function RunExpired(s: State, expired: seq<Timer>, env: nat -> Effect, i: nat): (r: State)
    requires i <= |expired|
    decreases i
  {
    if i == 0 then s else RunOne(RunExpired(s, expired, env, i - 1), expired[i - 1], env(i - 1))
  }

  function ResetFirst(s: State, now: int): (r: State) {
    if s.timers == [] then s else s.(fd := ResetFd(s.fd, s.timers[0].expiration, now))
  }

  /** handleRead after a successful read, which leaves the one-shot descriptor disarmed: clock read
      at now, callbacks behaving as env says, clock read at end for the final arming. */
  function ReadHandled(s: State, now: int, env: nat -> Effect, end: int): (r: State) {
    ResetFirst(AfterCallbacks(s, now, env), end)
  }

  /** handleRead up to the final arming. */
  function AfterCallbacks(s: State, now: int, env: nat -> Effect): (r: State) {
    var expired := Expired(s.timers, now);
    RunExpired(State(Remaining(s.timers, now), None), expired, env, |expired|)
  }

  /** Everything inserted while the expired timers run, in order. */
  function TimersOf(adds: seq<Added>): (ts: seq<Timer>) {
    seq(|adds|, i requires 0 <= i < |adds| => adds[i].timer)
  }

  function InsertedBy(t: Timer, e: Effect): (ts: seq<Timer>) {
    TimersOf(e.adds) + if t.repeat then [Restarted(t, e.restartAt)] else []
  }

  function Inserted(expired: seq<Timer>, env: nat -> Effect, i: nat): (ts: seq<Timer>)
    requires i <= |expired|
    decreases i
  {
    if i == 0 then [] else Inserted(expired, env, i - 1) + InsertedBy(expired[i - 1], env(i - 1))
  }

  lemma {:induction false} InsertAllConcat(ts: seq<Timer>, a: seq<Timer>, b: seq<Timer>)
    ensures InsertAll(ts, a + b) == InsertAll(InsertAll(ts, a), b)
    decreases |a|
  {
    if a == [] {
      assert a + b == b;
    } else {
      assert (a + b)[1..] == a[1..] + b;
      InsertAllConcat(Insert(ts, a[0]), a[1..], b);
    }
  }

  lemma {:induction false} AddAllTimers(s: State, adds: seq<Added>)
    ensures AddAll(s, adds).timers == InsertAll(s.timers, TimersOf(adds))
    decreases |adds|
  {
    if adds == [] {
    } else {
      AddAllTimers(AddTimer(s, adds[0].timer, adds[0].now), adds[1..]);
      assert TimersOf(adds)[1..] == TimersOf(adds[1..]);
    }
  }

  lemma RunOneTimers(s: State, t: Timer, e: Effect)
    ensures RunOne(s, t, e).timers == InsertAll(s.timers, InsertedBy(t, e))
  {
    AddAllTimers(s, e.adds);
    var again := if t.repeat then [Restarted(t, e.restartAt)] else [];
    InsertAllConcat(s.timers, TimersOf(e.adds), again);
    assert t.repeat ==> again[1..] == [];
  }

  lemma {:induction false} RunExpiredTimers(s: State, expired: seq<Timer>, env: nat -> Effect, i: nat)
    requires i <= |expired|
    ensures RunExpired(s, expired, env, i).timers == InsertAll(s.timers, Inserted(expired, env, i))
    decreases i
  {
    if i == 0 {
    } else {
      RunExpiredTimers(s, expired, env, i - 1);
      RunOneTimers(RunExpired(s, expired, env, i - 1), expired[i - 1], env(i - 1));
      InsertAllConcat(s.timers, Inserted(expired, env, i - 1), InsertedBy(expired[i - 1], env(i - 1)));
    }
  }

  /** handleRead keeps every timer that had not expired, and of the timers added by callbacks and
      the restarted ones exactly those whose expiration is free when they are inserted. */
  lemma FiringKeepsTheRest(s: State, now: int, env: nat -> Effect, end: int)
    requires Sorted(s.timers)
    ensures var expired := Expired(s.timers, now);
            var ins := Inserted(expired, env, |expired|);
            var rest := Remaining(s.timers, now);
            var r := ReadHandled(s, now, env, end).timers;
            && Sorted(r)
            && (forall u :: u in r <==>
                  (u in s.timers && u.expiration >= now)
                  || exists i :: 0 <= i < |ins| && ins[i] == u && Kept(rest, ins, i))
  {
    var expired := Expired(s.timers, now);
    ExpiredMeaning(s.timers, now);
    RunExpiredTimers(State(Remaining(s.timers, now), None), expired, env, |expired|);
    InsertAllMeaning(Remaining(s.timers, now), Inserted(expired, env, |expired|));
  }

  // ----- Repetition -----

  /** What a repeating timer owes its user, written out independently of restart(): the same timer, due
      one period, in microseconds, after the clock reading. */
  function Again(t: Timer, restartAt: int): (u: Timer) {
    Timer(t.id, restartAt + 1000 * t.period, t.period, true)
  }

  lemma {:induction false} InsertedHas(expired: seq<Timer>, env: nat -> Effect, n: nat, i: nat)
    requires i < n <= |expired| && expired[i].repeat
    ensures var t := expired[i];
            Again(t, env(i).restartAt) in Inserted(expired, env, n)
    decreases n
  {
    var t := expired[i];
    var last := InsertedBy(expired[n - 1], env(n - 1));
    if i < n - 1 {
      InsertedHas(expired, env, n - 1, i);
    } else {
      assert last[|last| - 1] == Again(t, env(i).restartAt);
    }
  }

  /** Whatever was inserted, its expiration is taken afterwards. */
  lemma {:induction false} InsertedExpirationTaken(ts: seq<Timer>, ins: seq<Timer>, i: nat)
    requires Sorted(ts) && i < |ins|
    ensures Clashes(InsertAll(ts, ins), ins[i])
    decreases i
  {
    InsertAllMeaning(ts, ins);
    if Kept(ts, ins, i) {
      assert ins[i] in InsertAll(ts, ins);
    } else if Clashes(ts, ins[i]) {
      var u :| u in ts && u.expiration == ins[i].expiration;
      assert u in InsertAll(ts, ins);
    } else {
      var u :| u in ins[..i] && u.expiration == ins[i].expiration;
      var j :| 0 <= j < i && ins[j] == u;
      InsertedExpirationTaken(ts, ins, j);
      var w :| w in InsertAll(ts, ins) && w.expiration == u.expiration;
    }
  }

  /** After a firing, the expiration one period after the restart of a repeating timer is taken. */
  lemma RepeatIsRescheduled(s: State, now: int, env: nat -> Effect, end: int, i: nat)
    requires Sorted(s.timers) && i < |Expired(s.timers, now)| && Expired(s.timers, now)[i].repeat
    ensures Clashes(ReadHandled(s, now, env, end).timers, Again(Expired(s.timers, now)[i], env(i).restartAt))
  {
    var expired, kept := Expired(s.timers, now), Remaining(s.timers, now);
    var ins := Inserted(expired, env, |expired|);
    ExpiredMeaning(s.timers, now);
    InsertedHas(expired, env, |expired|, i);
    RunExpiredTimers(State(kept, None), expired, env, |expired|);
    var j :| 0 <= j < |ins| && ins[j] == Again(expired[i], env(i).restartAt);
    InsertedExpirationTaken(kept, ins, j);
  }

  /** The ways for u to be inserted by the first n expired timers. */
  predicate AddedBy(expired: seq<Timer>, env: nat -> Effect, n: nat, u: Timer) {
    exists i, j :: 0 <= i < n && 0 <= j < |env(i).adds| && env(i).adds[j].timer == u
  }

  predicate RepeatOf(expired: seq<Timer>, env: nat -> Effect, n: nat, u: Timer)
    requires n <= |expired|
  {
    exists i :: 0 <= i < n && expired[i].repeat && u == Again(expired[i], env(i).restartAt)
  }

  lemma {:induction false} InsertedOrigin(expired: seq<Timer>, env: nat -> Effect, n: nat, u: Timer)
    requires n <= |expired| && u in Inserted(expired, env, n)
    ensures AddedBy(expired, env, n, u) || RepeatOf(expired, env, n, u)
    decreases n
  {
    if u in Inserted(expired, env, n - 1) {
      InsertedOrigin(expired, env, n - 1, u);
    } else if u in TimersOf(env(n - 1).adds) {
      var j :| 0 <= j < |env(n - 1).adds| && env(n - 1).adds[j].timer == u;
    }
  }

  /** Nothing else is pending after a firing: what had not expired, what callbacks added, and repeating
      timers one period after their restart. A timer that does not repeat is not put back. */
  lemma PendingOrigin(s: State, now: int, env: nat -> Effect, end: int, u: Timer)
    requires Sorted(s.timers) && u in ReadHandled(s, now, env, end).timers
    ensures var expired := Expired(s.timers, now);
            || (u in s.timers && u.expiration >= now)
            || AddedBy(expired, env, |expired|, u)
            || RepeatOf(expired, env, |expired|, u)
  {
    var expired := Expired(s.timers, now);
    FiringKeepsTheRest(s, now, env, end);
    if !(u in s.timers && u.expiration >= now) {
      InsertedOrigin(expired, env, |expired|, u);
    }
  }

  // ----- Agreement with a priority queue -----

  datatype Event =
    | Add(t: Timer, now: int)
    | Fire(now: int, env: nat -> Effect, end: int)

  ghost function Elements(ts: seq<Timer>): (q: set<Timer>) {
    set t | t in ts
  }

  function Step(s: State, e: Event): (r: State) {
    match e
    case Add(t, now) => AddTimer(s, t, now)
    case Fire(now, env, end) => ReadHandled(s, now, env, end)
  }

  /** The timers a step inserts. */
  function InsertedIn(s: State, e: Event): (ins: seq<Timer>) {
    match e
    case Add(t, _) => [t]
    case Fire(now, env, _) =>
      var expired := Expired(s.timers, now); Inserted(expired, env, |expired|)
  }

  function KeptIn(s: State, e: Event): (ts: seq<Timer>) {
    match e
    case Add(_, _) => s.timers
    case Fire(now, _, _) => Remaining(s.timers, now)
  }

  function FiredIn(s: State, e: Event): (ts: seq<Timer>) {
    match e
    case Add(_, _) => []
    case Fire(now, _, _) => Expired(s.timers, now)
  }

  /** No two expirations meet in this step. */
  predicate ClashFree(s: State, e: Event) {
    var ins := InsertedIn(s, e);
    forall i :: 0 <= i < |ins| ==> Kept(KeptIn(s, e), ins, i)
  }

  lemma StepTimers(s: State, e: Event)
    ensures Step(s, e).timers == InsertAll(KeptIn(s, e), InsertedIn(s, e))
  {
    match e
    case Add(t, now) =>
      assert [t][1..] == [];
    case Fire(now, env, end) =>
      var expired := Expired(s.timers, now);
      RunExpiredTimers(State(Remaining(s.timers, now), None), expired, env, |expired|);
  }

  /** The abstract queue: fires all timers before now, in ascending order, and then holds the others
      and whatever was inserted. */
  ghost predicate QueueStep(q: set<Timer>, e: Event, fired: seq<Timer>, q': set<Timer>) {
    match e
    case Add(t, _) => fired == [] && q' == q + {t}
    case Fire(now, env, _) =>
      && Sorted(fired) && Elements(fired) == (set t | t in q && t.expiration < now)
      && q' == (set t | t in q && t.expiration >= now) + Elements(Inserted(fired, env, |fired|))
  }

  lemma ClashFreeInsertions(kept: seq<Timer>, ins: seq<Timer>)
    requires Sorted(kept) && (forall i :: 0 <= i < |ins| ==> Kept(kept, ins, i))
    ensures Sorted(InsertAll(kept, ins))
    ensures Elements(InsertAll(kept, ins)) == Elements(kept) + Elements(ins)
  {
    InsertAllMeaning(kept, ins);
    forall u | u in ins
      ensures u in InsertAll(kept, ins)
    {
      var i :| 0 <= i < |ins| && ins[i] == u;
      assert Kept(kept, ins, i);
    }
  }

  lemma ExpiredElements(ts: seq<Timer>, now: int)
    requires Sorted(ts)
    ensures Sorted(Expired(ts, now)) && Sorted(Remaining(ts, now))
    ensures Elements(Expired(ts, now)) == set t | t in Elements(ts) && t.expiration < now
    ensures Elements(Remaining(ts, now)) == set t | t in Elements(ts) && t.expiration >= now
  {
    ExpiredMeaning(ts, now);
  }

  /** Without clashes, every step of the scheduler is a step of the abstract queue. */
  lemma StepIsQueueStep(s: State, e: Event)
    requires Sorted(s.timers) && ClashFree(s, e)
    ensures Sorted(Step(s, e).timers)
    ensures QueueStep(Elements(s.timers), e, FiredIn(s, e), Elements(Step(s, e).timers))
  {
    var kept, ins := KeptIn(s, e), InsertedIn(s, e);
    if e.Fire? {
      ExpiredElements(s.timers, e.now);
    }
    ClashFreeInsertions(kept, ins);
    assert Step(s, e).timers == InsertAll(kept, ins) by { StepTimers(s, e); }
    if e.Add? {
      assert Elements([e.t]) == {e.t};
    }
  }

  lemma StepStaysSorted(s: State, e: Event)
    requires Sorted(s.timers)
    ensures Sorted(Step(s, e).timers)
  {
    StepTimers(s, e);
    if e.Fire? {
      ExpiredMeaning(s.timers, e.now);
    }
    InsertAllMeaning(KeptIn(s, e), InsertedIn(s, e));
  }

  function Run(s: State, es: seq<Event>): (r: State)
    decreases |es|
  {
    if es == [] then s else Run(Step(s, es[0]), es[1..])
  }

  predicate ClashFreeRun(s: State, es: seq<Event>)
    decreases |es|
  {
    es == [] || (ClashFree(s, es[0]) && ClashFreeRun(Step(s, es[0]), es[1..]))
  }

  function FiredInRun(s: State, es: seq<Event>): (ts: seq<seq<Timer>>)
    ensures |ts| == |es|
    decreases |es|
  {
    if es == [] then [] else [FiredIn(s, es[0])] + FiredInRun(Step(s, es[0]), es[1..])
  }

  /** A run of the abstract queue that fires the given batches. */
  ghost predicate QueueRun(q: set<Timer>, es: seq<Event>, fired: seq<seq<Timer>>, q': set<Timer>)
    decreases |es|
  {
    if es == [] then fired == [] && q' == q
    else
      && |fired| == |es|
      && exists mid :: QueueStep(q, es[0], fired[0], mid) && QueueRun(mid, es[1..], fired[1..], q')
  }

  /** With pairwise distinct expirations, every run agrees with the priority queue: the same timers
      fire, in the same order, and the same timers remain. */
  lemma {:induction false} SchedulerIsPriorityQueue(s: State, es: seq<Event>)
    requires Sorted(s.timers) && ClashFreeRun(s, es)
    ensures QueueRun(Elements(s.timers), es, FiredInRun(s, es), Elements(Run(s, es).timers))
    decreases |es|
  {
    if es == [] {
    } else {
      StepIsQueueStep(s, es[0]);
      var mid := Step(s, es[0]);
      SchedulerIsPriorityQueue(mid, es[1..]);
      assert FiredInRun(s, es)[1..] == FiredInRun(mid, es[1..]);
    }
  }

  // ----- The pace of a repeating timer -----

  /** Where no expirations meet, the repeating timer itself is pending again, under its own id, with its
      period, one period after its restart. */
  lemma RepeatIsPending(s: State, now: int, env: nat -> Effect, end: int, i: nat)
    requires Sorted(s.timers) && ClashFree(s, Fire(now, env, end))
    requires i < |Expired(s.timers, now)| && Expired(s.timers, now)[i].repeat
    ensures Again(Expired(s.timers, now)[i], env(i).restartAt) in ReadHandled(s, now, env, end).timers
  {
    var expired := Expired(s.timers, now);
    StepIsQueueStep(s, Fire(now, env, end));
    InsertedHas(expired, env, |expired|, i);
    assert Again(expired[i], env(i).restartAt) in Elements(Step(s, Fire(now, env, end)).timers);
  }

  /** The event adds no timer under this id, and its clock does not run backwards. */
  ghost predicate Spares(e: Event, id: nat) {
    match e
    case Add(t, _) => t.id != id
    case Fire(now, env, _) =>
      forall k: nat :: env(k).restartAt >= now
                       && forall j :: 0 <= j < |env(k).adds| ==> env(k).adds[j].timer.id != id
  }

  /** Every pending timer under this id is due at x or later. */
  predicate NotDueBefore(s: State, id: nat, x: int) {
    forall u :: u in s.timers && u.id == id ==> u.expiration >= x
  }

  /** Under an id that callbacks spare, a timer pending after a firing was pending and not due, or is a
      timer under that id, at least its period after the firing. */
  lemma PendingUnder(s: State, e: Event, id: nat, u: Timer) returns (v: Timer)
    requires e.Fire? && Sorted(s.timers) && Spares(e, id) && u in Step(s, e).timers && u.id == id
    ensures v in s.timers && v.id == id
    ensures if v.expiration >= e.now then u == v
            else v in FiredIn(s, e) && u.expiration >= e.now + 1000 * v.period
  {
    var expired := Expired(s.timers, e.now);
    ExpiredMeaning(s.timers, e.now);
    PendingOrigin(s, e.now, e.env, e.end, u);
    if u in s.timers && u.expiration >= e.now {
      v := u;
    } else {
      var i :| 0 <= i < |expired| && expired[i].repeat && u == Again(expired[i], e.env(i).restartAt);
      v := expired[i];
      assert v in expired && e.env(i).restartAt >= e.now;
    }
  }

  lemma FirePace(s: State, e: Event, id: nat, x: int)
    requires e.Fire? && Sorted(s.timers) && NotDueBefore(s, id, x) && Spares(e, id)
    ensures NotDueBefore(Step(s, e), id, x)
    ensures forall u :: u in FiredIn(s, e) && u.id == id ==> e.now > x
  {
    ExpiredMeaning(s.timers, e.now);
    forall u | u in Step(s, e).timers && u.id == id
      ensures u.expiration >= x
    {
      var v := PendingUnder(s, e, id, u);
    }
  }

  lemma {:induction false} RunPace(s: State, es: seq<Event>, id: nat, x: int)
    requires Sorted(s.timers) && NotDueBefore(s, id, x)
    requires forall i :: 0 <= i < |es| ==> Spares(es[i], id)
    ensures forall i, u :: 0 <= i < |es| && u in FiredInRun(s, es)[i] && u.id == id ==> es[i].Fire? && es[i].now > x
    decreases |es|
  {
    if es == [] {
    } else {
      StepStaysSorted(s, es[0]);
      if es[0].Fire? {
        FirePace(s, es[0], id, x);
      } else {
        InsertMeaning(s.timers, es[0].t);
      }
      RunPace(Step(s, es[0]), es[1..], id, x);
    }
  }

  /** Two firings of a timer are more than its period apart, whatever else is added or fires between. */
  lemma FiringsArePeriodApart(s: State, e: Event, es: seq<Event>, t: Timer)
    requires e.Fire? && Sorted(s.timers) && t in FiredIn(s, e)
    requires forall u :: u in s.timers && u.id == t.id ==> u == t
    requires Spares(e, t.id) && forall i :: 0 <= i < |es| ==> Spares(es[i], t.id)
    ensures var fired := FiredInRun(Step(s, e), es);
            forall i, u :: 0 <= i < |es| && u in fired[i] && u.id == t.id ==>
                             es[i].Fire? && es[i].now > e.now + 1000 * t.period
  {
    ExpiredMeaning(s.timers, e.now);
    StepStaysSorted(s, e);
    forall u | u in Step(s, e).timers && u.id == t.id
      ensures u.expiration >= e.now + 1000 * t.period
    {
      var v := PendingUnder(s, e, t.id, u);
    }
    RunPace(Step(s, e), es, t.id, e.now + 1000 * t.period);
  }

  /** The batch an abstract queue fires is determined by its contents. */
  lemma {:induction false} SortedIsUnique(a: seq<Timer>, b: seq<Timer>)
    requires Sorted(a) && Sorted(b) && (forall u :: u in a <==> u in b)
    ensures a == b
    decreases |a|
  {
    if a == [] && b == [] {
    } else {
      assert (a != [] ==> a[0] in b) && (b != [] ==> b[0] in a);
      assert a[0] == b[0] by {
        var i :| 0 <= i < |b| && b[i] == a[0];
        var j :| 0 <= j < |a| && a[j] == b[0];
      }
      forall u
        ensures u in a[1..] <==> u in b[1..]
      {
        assert u in a <==> u == a[0] || u in a[1..];
        assert u in b <==> u == b[0] || u in b[1..];
        assert a[0] !in a[1..] && b[0] !in b[1..];
      }
      SortedIsUnique(a[1..], b[1..]);
    }
  }

  /** The dropped timer: with an expiration already pending, it is never run. */
  lemma EqualExpirationIsDropped(s: State, t: Timer, now: int)
    requires Sorted(s.timers)
    ensures AddTimer(s, t, now).timers == s.timers <==> Clashes(s.timers, t)
  {
    InsertMeaning(s.timers, t);
    if Clashes(s.timers, t) {
      InsertClash(s.timers, t);
    } else {
      assert t in Insert(s.timers, t);
    }
  }

  lemma {:induction false} InsertClash(ts: seq<Timer>, t: Timer)
    requires Sorted(ts) && Clashes(ts, t)
    ensures Insert(ts, t) == ts
  {
    var u :| u in ts && u.expiration == t.expiration;
    if t.expiration <= ts[0].expiration {
    } else {
      assert u in ts[1..];
      InsertClash(ts[1..], t);
    }
  }

  // ----- Arming -----

  /** The descriptor is set for time x, to the microsecond. */
  predicate SetFor(fd: Option<int>, x: int) {
    fd.Some? && x - MICRO < fd.value <= x
  }

  /** Armed for the earliest pending timer; disarmed when there is none. */
  predicate Armed(s: State) {
    if s.timers == [] then s.fd == None else SetFor(s.fd, s.timers[0].expiration)
  }

  /** Setting the descriptor at time now leaves it right: the expiration is at least a microsecond
      ahead, or it is past, so that the setting has no effect, and the descriptor was right before. */
  predicate SetsRight(fd: Option<int>, expiration: int, now: int) {
    expiration - now >= MICRO || (expiration - now <= -MICRO && SetFor(fd, expiration))
  }

  lemma ResetSetsRight(fd: Option<int>, expiration: int, now: int)
    ensures SetFor(ResetFd(fd, expiration, now), expiration) <==> SetsRight(fd, expiration, now)
  {
    ResetExactness(fd, expiration, now);
  }

  predicate Rearms(s: State, e: Event) {
    match e
    case Add(t, now) => Earliest(s.timers, t) ==> SetsRight(s.fd, t.expiration, now)
    case Fire(now, env, end) =>
      var m := AfterCallbacks(s, now, env);
      m.timers != [] ==> SetsRight(m.fd, m.timers[0].expiration, end)
  }

  /** The earliest timer is at least a microsecond ahead when the descriptor is set for it. */
  predicate Timely(s: State, e: Event) {
    match e
    case Add(t, now) => Earliest(s.timers, t) ==> t.expiration - now >= MICRO
    case Fire(now, env, end) =>
      var r := AfterCallbacks(s, now, env).timers; r != [] ==> r[0].expiration - end >= MICRO
  }

  /** The descriptor's deadline has not passed yet when it is set anew. */
  predicate Prompt(s: State, e: Event) {
    match e
    case Add(_, now) => s.fd.Some? ==> s.fd.value >= now
    case Fire(now, env, end) => var fd := AfterCallbacks(s, now, env).fd; fd.Some? ==> fd.value >= end
  }

  lemma {:induction false} RunLeavesFdIdle(s: State, adds: seq<Added>)
    requires s.timers == [] ==> s.fd == None
    requires Sorted(s.timers)
    ensures var r := AddAll(s, adds); Sorted(r.timers) && (r.timers == [] ==> r.fd == None)
    decreases |adds|
  {
    if adds == [] {
    } else {
      InsertMeaning(s.timers, adds[0].timer);
      RunLeavesFdIdle(AddTimer(s, adds[0].timer, adds[0].now), adds[1..]);
    }
  }

  lemma {:induction false} RunExpiredIdle(s: State, expired: seq<Timer>, env: nat -> Effect, i: nat)
    requires i <= |expired| && Sorted(s.timers) && s.fd == None
    ensures var r := RunExpired(s, expired, env, i); Sorted(r.timers) && (r.timers == [] ==> r.fd == None)
    decreases i
  {
    if i == 0 {
    } else {
      RunExpiredIdle(s, expired, env, i - 1);
      var m, t, e := RunExpired(s, expired, env, i - 1), expired[i - 1], env(i - 1);
      RunLeavesFdIdle(m, e.adds);
      InsertMeaning(AddAll(m, e.adds).timers, Restarted(t, e.restartAt));
    }
  }

  lemma AfterCallbacksIdle(s: State, now: int, env: nat -> Effect)
    requires Sorted(s.timers)
    ensures var m := AfterCallbacks(s, now, env); Sorted(m.timers) && (m.timers == [] ==> m.fd == None)
  {
    var expired := Expired(s.timers, now);
    ExpiredMeaning(s.timers, now);
    RunExpiredIdle(State(Remaining(s.timers, now), None), expired, env, |expired|);
  }

  /** One add to an armed scheduler, or one firing of any scheduler, leaves it armed if and only if
      the setting it makes, if any, is right. */
  lemma StepArmsExactly(s: State, e: Event)
    requires Sorted(s.timers) && (e.Add? ==> Armed(s))
    ensures Armed(Step(s, e)) <==> Rearms(s, e)
  {
    match e
    case Add(t, now) =>
      InsertMeaning(s.timers, t);
      ResetSetsRight(s.fd, t.expiration, now);
    case Fire(now, env, end) =>
      AfterCallbacksIdle(s, now, env);
      var m := AfterCallbacks(s, now, env);
      if m.timers != [] {
        ResetSetsRight(m.fd, m.timers[0].expiration, end);
      }
  }

  /** An add leaves the descriptor right exactly when it is timely, as long as the deadline set
      before has not passed yet. */
  lemma AddArmsExactly(s: State, t: Timer, now: int)
    requires Sorted(s.timers) && Armed(s) && Prompt(s, Add(t, now))
    ensures Armed(AddTimer(s, t, now)) <==> Timely(s, Add(t, now))
  {
    StepArmsExactly(s, Add(t, now));
  }

  /** So does a firing, as long as no deadline set by its callbacks has passed. */
  lemma FireArmsExactly(s: State, e: Event)
    requires e.Fire? && Sorted(s.timers) && Prompt(s, e)
    ensures Armed(Step(s, e)) <==> Timely(s, e)
  {
    StepArmsExactly(s, e);
  }

  lemma {:induction false} QuietCallbacks(s: State, expired: seq<Timer>, env: nat -> Effect, i: nat)
    requires i <= |expired| && forall k: nat :: env(k).adds == []
    ensures RunExpired(s, expired, env, i).fd == s.fd
    decreases i
  {
    if i == 0 {
    } else {
      QuietCallbacks(s, expired, env, i - 1);
      assert env(i - 1).adds == [];
    }
  }

  /** Callbacks that add no timers leave no deadline behind. */
  lemma QuietFireIsPrompt(s: State, now: int, env: nat -> Effect, end: int)
    requires forall k: nat :: env(k).adds == []
    ensures Prompt(s, Fire(now, env, end))
  {
    var expired := Expired(s.timers, now);
    QuietCallbacks(State(Remaining(s.timers, now), None), expired, env, |expired|);
  }

  predicate TimelyRun(s: State, es: seq<Event>)
    decreases |es|
  {
    es == [] || (Timely(s, es[0]) && TimelyRun(Step(s, es[0]), es[1..]))
  }

  predicate PromptRun(s: State, es: seq<Event>)
    decreases |es|
  {
    es == [] || (Prompt(s, es[0]) && PromptRun(Step(s, es[0]), es[1..]))
  }

  predicate RearmsRun(s: State, es: seq<Event>)
    decreases |es|
  {
    es == [] || (Rearms(s, es[0]) && RearmsRun(Step(s, es[0]), es[1..]))
  }

  /** Armed after every event of the run. */
  predicate ArmedThroughout(s: State, es: seq<Event>)
    decreases |es|
  {
    es == [] || (Armed(Step(s, es[0])) && ArmedThroughout(Step(s, es[0]), es[1..]))
  }

  /** Over every run of adds and firings, adds made inside callbacks included: the descriptor is
      armed for the earliest pending timer after each of them if and only if each setting was right;
      if no deadline passes unnoticed, that is: if and only if each was a microsecond ahead. */
  lemma {:induction false} RunArmedExactly(s: State, es: seq<Event>)
    requires Sorted(s.timers) && Armed(s)
    ensures ArmedThroughout(s, es) <==> RearmsRun(s, es)
    ensures PromptRun(s, es) ==> (ArmedThroughout(s, es) <==> TimelyRun(s, es))
    decreases |es|
  {
    if es == [] {
    } else {
      StepStaysSorted(s, es[0]);
      StepArmsExactly(s, es[0]);
      if Armed(Step(s, es[0])) {
        RunArmedExactly(Step(s, es[0]), es[1..]);
      }
    }
  }

  /** The sufficient half for the state a run ends in. */
  lemma {:induction false} RunStaysArmed(s: State, es: seq<Event>)
    requires Sorted(s.timers) && Armed(s) && TimelyRun(s, es)
    ensures Sorted(Run(s, es).timers) && Armed(Run(s, es))
    decreases |es|
  {
    if es == [] {
    } else {
      StepStaysSorted(s, es[0]);
      StepArmsExactly(s, es[0]);
      RunStaysArmed(Step(s, es[0]), es[1..]);
    }
  }

  // ----- Lost timers -----

  /** The descriptor becomes readable at its deadline, and only then is handleRead called. */
  predicate Enabled(s: State, e: Event) {
    e.Fire? ==> s.fd.Some? && s.fd.value <= e.now
  }

  predicate LegalRun(s: State, es: seq<Event>)
    decreases |es|
  {
    es == [] || (Enabled(s, es[0]) && LegalRun(Step(s, es[0]), es[1..]))
  }

  /** Timers are pending and nothing will ever report them. */
  predicate Disarmed(s: State) {
    s.timers != [] && s.fd == None
  }

  /** A firing leaves pending timers without a deadline exactly when the earliest is less than a
      microsecond away, or past and no callback has armed the descriptor. */
  lemma FireDisarmsExactly(s: State, now: int, env: nat -> Effect, end: int)
    requires Sorted(s.timers)
    ensures var m := AfterCallbacks(s, now, env);
            Disarmed(Step(s, Fire(now, env, end))) <==>
            m.timers != [] && var ahead := m.timers[0].expiration - end;
                              -MICRO < ahead < MICRO || (ahead <= -MICRO && m.fd == None)
  {
    var m := AfterCallbacks(s, now, env);
    if m.timers != [] {
      ResetExactness(m.fd, m.timers[0].expiration, end);
    }
  }

  /** The deadline is cut to the microsecond, so the descriptor may fire early; a handler that then
      runs before the expiration finds nothing expired and disarms the descriptor. */
  lemma EarlyFiringDisarms(t: Timer, now0: int, now1: int, env: nat -> Effect, end: int)
    requires t.expiration - now0 >= MICRO && (t.expiration - now0) % MICRO != 0
    requires var fd := AddTimer(IDLE, t, now0).fd; fd.Some? ==> fd.value <= now1 <= end < t.expiration
    ensures var s := AddTimer(IDLE, t, now0);
            && Armed(s) && Enabled(s, Fire(now1, env, end))
            && Step(s, Fire(now1, env, end)) == State([t], None)
  {
    ResetExactness(None, t.expiration, now0);
    var s := AddTimer(IDLE, t, now0);
    assert s.timers == [t] && Before([t], now1) == 0;
    assert AfterCallbacks(s, now1, env) == State([t], None);
    ResetExactness(None, t.expiration, end);
  }

  /** The one way back: an add that is the earliest and at least a microsecond ahead. */
  predicate Revives(s: State, e: Event) {
    e.Add? && Earliest(s.timers, e.t) && e.t.expiration - e.now >= MICRO
  }

  predicate DisarmedThroughout(s: State, es: seq<Event>)
    decreases |es|
  {
    es == [] || (Disarmed(Step(s, es[0])) && DisarmedThroughout(Step(s, es[0]), es[1..]))
  }

  predicate NeverRevived(s: State, es: seq<Event>)
    decreases |es|
  {
    es == [] || (!Revives(s, es[0]) && NeverRevived(Step(s, es[0]), es[1..]))
  }

  lemma StepFromDisarmed(s: State, e: Event)
    requires Sorted(s.timers) && Disarmed(s) && Enabled(s, e)
    ensures e.Add? && FiredIn(s, e) == []
    ensures Disarmed(Step(s, e)) <==> !Revives(s, e)
    ensures Sorted(Step(s, e).timers) && forall u | u in s.timers :: u in Step(s, e).timers
  {
    InsertMeaning(s.timers, e.t);
    ResetExactness(s.fd, e.t.expiration, e.now);
  }

  /** Once disarmed, the scheduler stays so exactly as long as no add revives it; meanwhile nothing
      fires and the timers that were pending stay pending. */
  lemma {:induction false} LostExactly(s: State, es: seq<Event>)
    requires Sorted(s.timers) && Disarmed(s) && LegalRun(s, es)
    ensures DisarmedThroughout(s, es) <==> NeverRevived(s, es)
    ensures NeverRevived(s, es) ==>
              && Disarmed(Run(s, es))
              && (forall i :: 0 <= i < |es| ==> FiredInRun(s, es)[i] == [])
              && (forall u | u in s.timers :: u in Run(s, es).timers)
    decreases |es|
  {
    if es == [] {
    } else {
      StepFromDisarmed(s, es[0]);
      if !Revives(s, es[0]) {
        LostExactly(Step(s, es[0]), es[1..]);
      }
    }
  }

  predicate NotBefore(x: int, es: seq<Event>) {
    forall i :: 0 <= i < |es| && es[i].Add? ==> es[i].t.expiration >= x
  }

  /** Adds that are not earlier than the head never revive a disarmed scheduler. */
  lemma {:induction false} LaterAddsLeaveItLost(s: State, es: seq<Event>)
    requires Sorted(s.timers) && Disarmed(s) && LegalRun(s, es) && NotBefore(s.timers[0].expiration, es)
    ensures NeverRevived(s, es)
    decreases |es|
  {
    if es == [] {
    } else {
      StepFromDisarmed(s, es[0]);
      InsertMeaning(s.timers, es[0].t);
      LaterAddsLeaveItLost(Step(s, es[0]), es[1..]);
    }
  }

  /** The scheduler object; fired records the timers run. */
  class RBTreeTimer {
    var timers: seq<Timer>
    var fd: Option<int>
    var registered: bool
    var fired: seq<Timer>

    ghost function V(): (s: State)
      reads this
    {
      State(timers, fd)
    }

    ghost predicate Valid()
      reads this
    {
      Sorted(timers)
    }

    constructor ()
      ensures Valid() && V() == IDLE && !registered && fired == []
    {
      timers, fd, registered, fired := [], None, false, [];
    }

    method InsertTimer(t: Timer) returns (earliestChanged: bool)
      requires Valid()
      modifies this`timers
      ensures Valid() && timers == Insert(old(timers), t)
      ensures earliestChanged <==> Earliest(old(timers), t)
    {
      InsertMeaning(timers, t);
      earliestChanged := false;
      if timers == [] || t.expiration < timers[0].expiration {
        earliestChanged := true;
      }
      timers := Insert(timers, t);
    }

    method ResetTimerFd(t: Timer, now: int)
      modifies this`fd
      ensures fd == ResetFd(old(fd), t.expiration, now)
    {
      var diff := Micros(t.expiration, now);
      var sec := TruncDiv(diff, MICROS_PER_SECOND);
      var nsec := TruncMod(diff, MICROS_PER_SECOND) * 1000;
      fd := Settime(fd, now, sec, nsec);
    }

    method AddTimerInLoop(t: Timer, now: int)
      requires Valid()
      modifies this`timers, this`fd, this`registered
      ensures Valid() && V() == AddTimer(old(V()), t, now) && registered
    {
      registered := true;
      var earliestChanged := InsertTimer(t);
      if earliestChanged {
        ResetTimerFd(t, now);
      }
    }

    method HandleRepeatTimer(t: Timer, now: int)
      requires Valid()
      modifies this`timers
      ensures Valid()
      ensures timers == if t.repeat then Insert(old(timers), Restarted(t, now)) else old(timers)
    {
      if t.repeat {
        var _ := InsertTimer(Restarted(t, now));
      }
    }

    /** A callback: it runs, and adds the timers its effect lists. */
    method RunTimer(t: Timer, e: Effect)
      requires Valid()
      modifies this
      ensures Valid() && V() == AddAll(old(V()), e.adds)
      ensures fired == old(fired) + [t]
    {
      fired := fired + [t];
      ghost var goal := AddAll(V(), e.adds);
      assert e.adds[0..] == e.adds;
      for i := 0 to |e.adds|
        invariant Valid() && fired == old(fired) + [t]
        invariant AddAll(V(), e.adds[i..]) == goal
      {
        assert e.adds[i..][1..] == e.adds[i + 1..];
        AddTimerInLoop(e.adds[i].timer, e.adds[i].now);
      }
    }

    /** Each expired timer runs once, in order, and is put back if it repeats. */
    method RunAllExpired(expired: seq<Timer>, env: nat -> Effect)
      requires Valid()
      modifies this
      ensures Valid() && V() == RunExpired(old(V()), expired, env, |expired|)
      ensures fired == old(fired) + expired
    {
      for i := 0 to |expired|
        invariant Valid()
        invariant V() == RunExpired(old(V()), expired, env, i)
        invariant fired == old(fired) + expired[..i]
      {
        RunTimer(expired[i], env(i));
        HandleRepeatTimer(expired[i], env(i).restartAt);
        assert expired[..i + 1] == expired[..i] + [expired[i]];
      }
      assert expired[..|expired|] == expired;
    }

    /** readOk: the eight bytes were read. */
    method HandleRead(readOk: bool, now: int, env: nat -> Effect, end: int)
      requires Valid()
      modifies this
      ensures Valid()
      ensures !readOk ==> V() == old(V()) && fired == old(fired)
      ensures readOk ==> V() == ReadHandled(old(V()), now, env, end)
      ensures readOk ==> fired == old(fired) + Expired(old(timers), now)
    {
      if !readOk {
        return;
      }
      fd := None;
      ExpiredMeaning(timers, now);
      var k := Before(timers, now);
      var expired := timers[..k];
      timers := timers[k..];
      RunAllExpired(expired, env);
      if timers != [] {
        ResetTimerFd(timers[0], end);
      }
    }
  }
}
