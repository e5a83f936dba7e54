/** Net/tcpserver.cpp and the life of a TcpConnection (Net/tcpconnection.cpp) across the base loop and
    the I/O loops. Each handler or functor is one atomic step of its loop thread; loop 0 is the base
    loop. Functors run in the order they were queued, and a descriptor is closed only when the
    connection object is destroyed, so accept never returns one that is still in use. */
module Lifecycle {
  import TC = TcpConnections
  import EP = Epollers

  type ConnId = nat
  type LoopId = nat

  /** Functors that concern a connection. The first three hold a shared pointer to it, the last one
      only a raw pointer. */
  datatype Task = Establish(c: ConnId) | Remove(c: ConnId) | Destroy(c: ConnId) | Force(c: ConnId)

  /** A connection object, its channel (index; mapped: in the loop's channel table), whether the
      object is gone, and how often each stage of its life was run. */
  datatype Conn = Conn(
    fd: int, loop: LoopId, state: TC.ConnState, index: EP.Index, mapped: bool, dead: bool,
    established: nat, closes: nat, removes: nat, destroys: nat)

  datatype Phase = Polling | Dispatching | Draining

  /** active: channels reported by the last poll and not dispatched yet. The first todo tasks are the
      batch being drained, the others the pending queue. */
  datatype Loop = Loop(phase: Phase, active: seq<ConnId>, tasks: seq<Task>, todo: nat)

  /** failed: an assertion of the source failed, a live table entry was overwritten, or an object was
      used after its destruction. */
  datatype Sys = Sys(conns: seq<Conn>, table: map<int, ConnId>, loops: seq<Loop>, failed: bool)

  function Initial(n: nat): (s: Sys) {
    Sys([], map[], seq(n, _ => Loop(Polling, [], [], 0)), false)
  }

  predicate Open(x: Conn) {
    x.state == TC.Connected || x.state == TC.Disconnecting
  }

  predicate HasConn(s: Sys, c: ConnId) {
    c < |s.conns| && s.conns[c].loop < |s.loops| && 0 < |s.loops|
  }

  // ----- The code -----

  function WithConn(s: Sys, c: ConnId, x: Conn): (t: Sys)
    requires c < |s.conns|
  {
    s.(conns := s.conns[c := x])
  }

  function WithTasks(s: Sys, l: LoopId, tasks: seq<Task>): (t: Sys)
    requires l < |s.loops|
  {
    s.(loops := s.loops[l := s.loops[l].(tasks := tasks)])
  }

  function PushBack(s: Sys, l: LoopId, k: Task): (t: Sys)
    requires l < |s.loops|
  {
    WithTasks(s, l, s.loops[l].tasks + [k])
  }

  /** Channel::disableAll through Epoller::updateChannel. */
  function Disabled(index: EP.Index): (i: EP.Index) {
    if index == EP.Added then EP.Deleted else EP.Added
  }

  /** connectionEstablished */
  function EstablishConn(s: Sys, c: ConnId): (t: Sys)
    requires HasConn(s, c)
  {
    var x := s.conns[c];
    if x.dead then s.(failed := true)
    else WithConn(s, c, x.(state := TC.Connected, index := EP.Added,
                           mapped := x.mapped || x.index == EP.New, established := x.established + 1))
  }

  /** handleRemoveConnectionInLoop */
  function RemoveConn(s: Sys, c: ConnId): (t: Sys)
    requires HasConn(s, c)
  {
    var x := s.conns[c];
    if x.dead then s.(failed := true)
    else
      PushBack(WithConn(s, c, x.(removes := x.removes + 1)).(table := s.table - {x.fd}), x.loop, Destroy(c))
  }

  function MarkClosed(s: Sys, c: ConnId): (t: Sys)
    requires HasConn(s, c)
  {
    var x := s.conns[c];
    WithConn(s, c, x.(state := TC.Disconnected, index := Disabled(x.index), closes := x.closes + 1))
  }

  /** handleClose on loop l: the removal runs at once if l is the base loop, else it is queued. */
  function CloseConn(s: Sys, l: LoopId, c: ConnId): (t: Sys)
    requires HasConn(s, c)
  {
    if s.conns[c].dead || !Open(s.conns[c]) then s.(failed := true)
    else if l == 0 then RemoveConn(MarkClosed(s, c), c)
    else PushBack(MarkClosed(s, c), 0, Remove(c))
  }

  /** connectionDestructor, with the assertions of Epoller::removeChannel. */
  function DestroyConn(s: Sys, c: ConnId): (t: Sys)
    requires HasConn(s, c)
  {
    var x := s.conns[c];
    var index := if Open(x) then Disabled(x.index) else x.index;
    if x.dead || !x.mapped || index == EP.New then s.(failed := true)
    else
      WithConn(s, c, x.(state := if Open(x) then TC.Disconnected else x.state, index := EP.Deleted,
                        mapped := false, destroys := x.destroys + 1))
  }

  /** forceCloseInLoop, through a raw pointer. */
  function ForceConn(s: Sys, l: LoopId, c: ConnId): (t: Sys)
    requires HasConn(s, c)
  {
    if s.conns[c].dead then s.(failed := true)
    else if Open(s.conns[c]) then CloseConn(s, l, c)
    else s
  }

  function RunTask(s: Sys, l: LoopId, k: Task): (t: Sys)
    requires HasConn(s, k.c)
  {
    match k
    case Establish(c) => EstablishConn(s, c)
    case Remove(c) => RemoveConn(s, c)
    case Destroy(c) => DestroyConn(s, c)
    case Force(c) => ForceConn(s, l, c)
  }

  function NewConn(s: Sys, fd: int, l: LoopId): (t: Sys) {
    var x := Conn(fd, l, TC.Connecting, EP.New, false, false, 0, 0, 0, 0);
    s.(conns := s.conns + [x], table := s.table[fd := |s.conns|], failed := s.failed || fd in s.table)
  }

  /** handleNewConnection: the establishment runs at once if the chosen loop is the base loop. */
  function AcceptConn(s: Sys, fd: int, l: LoopId): (t: Sys)
    requires l < |s.loops|
  {
    var t := NewConn(s, fd, l);
    if l == 0 then EstablishConn(t, |s.conns|) else PushBack(t, l, Establish(|s.conns|))
  }

  function PopTask(s: Sys, l: LoopId): (t: Sys)
    requires l < |s.loops| && s.loops[l].tasks != [] && s.loops[l].todo > 0
  {
    var p := s.loops[l];
    s.(loops := s.loops[l := p.(tasks := p.tasks[1..], todo := p.todo - 1)])
  }

  datatype Event =
    | Accept(fd: int, l: LoopId)
    | Poll(l: LoopId, active: seq<ConnId>)
    | Dispatch(l: LoopId, closes: bool)   // handleEvent; closes: the read hits end of file or an error
    | StartDrain(l: LoopId)
    | RunNext(l: LoopId)
    | EndDrain(l: LoopId)
    | ForceClose(c: ConnId)
    | ShutDown(c: ConnId)
    | Reclaim(c: ConnId)                  // the last shared pointer goes away

  predicate Distinct(cs: seq<ConnId>) {
    forall i, j :: 0 <= i < j < |cs| ==> cs[i] != cs[j]
  }

  /** The kernel reports registered descriptors only, each once. */
  predicate Reportable(s: Sys, l: LoopId, active: seq<ConnId>) {
    && Distinct(active)
    && forall i :: 0 <= i < |active| ==>
                     HasConn(s, active[i]) && s.conns[active[i]].loop == l
                     && s.conns[active[i]].index == EP.Added && !s.conns[active[i]].dead
  }

  /** Calls on a connection come from callbacks on its own loop thread, which hold it alive. */
  predicate Callable(s: Sys, c: ConnId) {
    HasConn(s, c) && !s.conns[c].dead && s.loops[s.conns[c].loop].phase != Polling
  }

  /** No shared pointer to c is left, in the table or in a functor. */
  predicate Unreferenced(s: Sys, c: ConnId) {
    && (forall fd | fd in s.table :: s.table[fd] != c)
    && (forall l, i :: 0 <= l < |s.loops| && 0 <= i < |s.loops[l].tasks| && s.loops[l].tasks[i].c == c
                       ==> s.loops[l].tasks[i].Force?)
  }

  predicate Enabled(s: Sys, e: Event) {
    match e
    case Accept(fd, l) =>
      && l < |s.loops| && s.loops[0].phase == Dispatching
      && (forall c :: 0 <= c < |s.conns| && !s.conns[c].dead ==> s.conns[c].fd != fd)
    case Poll(l, active) => l < |s.loops| && s.loops[l].phase == Polling && Reportable(s, l, active)
    case Dispatch(l, _) =>
      && l < |s.loops| && s.loops[l].phase == Dispatching && s.loops[l].active != []
      && HasConn(s, s.loops[l].active[0])
    case StartDrain(l) => l < |s.loops| && s.loops[l].phase == Dispatching && s.loops[l].active == []
    case RunNext(l) =>
      && l < |s.loops| && s.loops[l].phase == Draining && s.loops[l].todo > 0
      && s.loops[l].tasks != [] && HasConn(s, s.loops[l].tasks[0].c)
    case EndDrain(l) => l < |s.loops| && s.loops[l].phase == Draining && s.loops[l].todo == 0
    case ForceClose(c) => Callable(s, c)
    case ShutDown(c) => Callable(s, c)
    case Reclaim(c) => HasConn(s, c) && !s.conns[c].dead && Unreferenced(s, c)
  }

  function WithLoop(s: Sys, l: LoopId, p: Loop): (t: Sys)
    requires l < |s.loops|
  {
    s.(loops := s.loops[l := p])
  }

  function Step(s: Sys, e: Event): (t: Sys)
    requires Enabled(s, e)
  {
    match e
    case Accept(fd, l) => AcceptConn(s, fd, l)
    case Poll(l, active) => WithLoop(s, l, s.loops[l].(phase := Dispatching, active := active))
    case Dispatch(l, closes) =>
      var c := s.loops[l].active[0];
      var t := WithLoop(s, l, s.loops[l].(active := s.loops[l].active[1..]));
      if s.conns[c].dead then s.(failed := true)
      else if closes then CloseConn(t, l, c)
      else t
    case StartDrain(l) => WithLoop(s, l, s.loops[l].(phase := Draining, todo := |s.loops[l].tasks|))
    case RunNext(l) => RunTask(PopTask(s, l), l, s.loops[l].tasks[0])
    case EndDrain(l) => WithLoop(s, l, s.loops[l].(phase := Polling))
    case ForceClose(c) =>
      var x := s.conns[c];
      if Open(x) then PushBack(WithConn(s, c, x.(state := TC.Disconnecting)), x.loop, Force(c)) else s
    case ShutDown(c) =>
      var x := s.conns[c];
      if x.state == TC.Connected then WithConn(s, c, x.(state := TC.Disconnecting)) else s
    case Reclaim(c) => WithConn(s, c, s.conns[c].(dead := true))
  }

  // ----- What every step keeps -----

  /** The stages of a life come in order, each at most once; state, channel index and channel table
      agree with the stage reached. */
  predicate Shape(x: Conn) {
    && x.destroys <= x.removes <= x.closes <= x.established <= 1
    && (x.state == TC.Connecting <==> x.established == 0)
    && (x.state == TC.Disconnected <==> x.closes == 1)
    && (x.index == EP.New <==> x.established == 0)
    && (x.index == EP.Added <==> Open(x))
    && (x.mapped <==> x.established == 1 && x.destroys == 0)
    && (x.dead ==> x.destroys == 1)
  }

  predicate ConnsOk(s: Sys) {
    && 0 < |s.loops|
    && forall c :: 0 <= c < |s.conns| ==> s.conns[c].loop < |s.loops| && Shape(s.conns[c])
  }

  predicate TableOk(s: Sys) {
    && (forall fd | fd in s.table ::
          s.table[fd] < |s.conns| && s.conns[s.table[fd]].fd == fd && s.conns[s.table[fd]].removes == 0)
    && (forall c :: 0 <= c < |s.conns| && s.conns[c].removes == 0 ==>
          s.conns[c].fd in s.table && s.table[s.conns[c].fd] == c)
  }

  predicate FdsOk(s: Sys) {
    forall c, d :: 0 <= c < d < |s.conns| && !s.conns[c].dead && !s.conns[d].dead ==>
                     s.conns[c].fd != s.conns[d].fd
  }

  /** A queued task is on the right loop and its stage has not been run; a raw pointer is to a
      connection not destructed yet. */
  predicate TaskOk(conns: seq<Conn>, l: LoopId, k: Task) {
    && k.c < |conns|
    && var x := conns[k.c];
       match k
       case Establish(_) => l == x.loop && x.established == 0
       case Remove(_) => l == 0 && x.closes == 1 && x.removes == 0
       case Destroy(_) => l == x.loop && x.removes == 1 && x.destroys == 0
       case Force(_) => l == x.loop && x.established == 1 && x.destroys == 0
  }

  predicate TasksOk(s: Sys) {
    forall l, i :: 0 <= l < |s.loops| && 0 <= i < |s.loops[l].tasks| ==> TaskOk(s.conns, l, s.loops[l].tasks[i])
  }

  /** a may precede b in a queue: no stage is queued twice, and no forced close follows the
      destruction. */
  predicate Compatible(a: Task, b: Task) {
    (a == b ==> a.Force?) && (a.Destroy? && b.Force? ==> a.c != b.c)
  }

  predicate OrderOk(s: Sys) {
    forall l, i, j :: 0 <= l < |s.loops| && 0 <= i < j < |s.loops[l].tasks| ==>
                        Compatible(s.loops[l].tasks[i], s.loops[l].tasks[j])
  }

  /** The next stage of a life that has one coming is queued. */
  predicate DueOk(s: Sys, c: ConnId)
    requires HasConn(s, c)
  {
    var x := s.conns[c];
    && (x.established == 0 ==> Establish(c) in s.loops[x.loop].tasks)
    && (x.closes == 1 && x.removes == 0 ==> Remove(c) in s.loops[0].tasks)
    && (x.removes == 1 && x.destroys == 0 ==> Destroy(c) in s.loops[x.loop].tasks)
  }

  /** in hand: connections whose next stage is being run right now. */
  predicate DuesOk(s: Sys, inHand: set<ConnId>)
    requires ConnsOk(s)
  {
    forall c :: 0 <= c < |s.conns| && c !in inHand ==> DueOk(s, c)
  }

  /** Channels still to be dispatched belong to open connections. */
  predicate LoopOk(s: Sys, l: LoopId)
    requires l < |s.loops|
  {
    var p := s.loops[l];
    && p.todo <= |p.tasks|
    && (p.todo > 0 ==> p.phase == Draining)
    && (p.active != [] ==> p.phase == Dispatching)
    && Distinct(p.active)
    && (forall i :: 0 <= i < |p.active| ==>
          p.active[i] < |s.conns| && s.conns[p.active[i]].loop == l && Open(s.conns[p.active[i]]))
  }

  predicate LoopsOk(s: Sys) {
    forall l :: 0 <= l < |s.loops| ==> LoopOk(s, l)
  }

  predicate Stable(s: Sys, inHand: set<ConnId>) {
    !s.failed && ConnsOk(s) && TableOk(s) && FdsOk(s) && TasksOk(s) && OrderOk(s) && DuesOk(s, inHand) && LoopsOk(s)
  }

  predicate Inv(s: Sys) {
    Stable(s, {})
  }

  lemma Settle(s: Sys, c: ConnId)
    requires Stable(s, {c}) && HasConn(s, c) && DueOk(s, c)
    ensures Inv(s)
  {
  }

  // ----- One connection changes -----

  /** Its tasks still fit, and it does not leave the open states while waiting to be dispatched. */
  ghost predicate Admits(s: Sys, c: ConnId, x: Conn)
    requires HasConn(s, c)
  {
    && x.fd == s.conns[c].fd && x.loop == s.conns[c].loop && Shape(x)
    && (s.conns[c].dead ==> x.dead)
    && (forall l, i :: 0 <= l < |s.loops| && 0 <= i < |s.loops[l].tasks| && s.loops[l].tasks[i].c == c ==>
          TaskOk(s.conns[c := x], l, s.loops[l].tasks[i]))
    && (!Open(x) ==> forall l :: 0 <= l < |s.loops| ==> c !in s.loops[l].active)
  }

  lemma WithConnTable(s: Sys, c: ConnId, x: Conn)
    requires ConnsOk(s) && TableOk(s) && FdsOk(s) && HasConn(s, c) && Admits(s, c, x)
    requires x.removes == s.conns[c].removes
    ensures var t := WithConn(s, c, x); ConnsOk(t) && TableOk(t) && FdsOk(t)
  {
  }

  lemma WithConnTasks(s: Sys, c: ConnId, x: Conn)
    requires TasksOk(s) && OrderOk(s) && HasConn(s, c) && Admits(s, c, x)
    ensures var t := WithConn(s, c, x); TasksOk(t) && OrderOk(t)
  {
  }

  lemma WithConnLoops(s: Sys, c: ConnId, x: Conn)
    requires LoopsOk(s) && HasConn(s, c) && Admits(s, c, x)
    ensures LoopsOk(WithConn(s, c, x))
  {
    var t := WithConn(s, c, x);
    forall l | 0 <= l < |t.loops|
      ensures LoopOk(t, l)
    {
      assert LoopOk(s, l);
    }
  }

  lemma WithConnDues(s: Sys, c: ConnId, x: Conn, inHand: set<ConnId>)
    requires ConnsOk(s) && DuesOk(s, inHand) && HasConn(s, c) && Admits(s, c, x)
    ensures var t := WithConn(s, c, x); ConnsOk(t) && DuesOk(t, inHand + {c})
  {
    var t := WithConn(s, c, x);
    forall d | 0 <= d < |t.conns| && d !in inHand + {c}
      ensures DueOk(t, d)
    {
      assert DueOk(s, d);
    }
  }

  lemma WithConnStable(s: Sys, c: ConnId, x: Conn, inHand: set<ConnId>)
    requires Stable(s, inHand) && HasConn(s, c) && Admits(s, c, x)
    requires x.removes == s.conns[c].removes
    ensures Stable(WithConn(s, c, x), inHand + {c})
  {
    WithConnTable(s, c, x);
    WithConnTasks(s, c, x);
    WithConnLoops(s, c, x);
    WithConnDues(s, c, x, inHand);
  }

  /** The same, when the stage is the removal from the table. */
  lemma RemovalStable(s: Sys, c: ConnId, x: Conn, inHand: set<ConnId>)
    requires Stable(s, inHand) && HasConn(s, c) && Admits(s, c, x)
    requires s.conns[c].removes == 0 && x.removes == 1
    ensures Stable(WithConn(s, c, x).(table := s.table - {x.fd}), inHand + {c})
  {
    WithConnTasks(s, c, x);
    WithConnLoops(s, c, x);
    WithConnDues(s, c, x, inHand);
    var u, t := WithConn(s, c, x), WithConn(s, c, x).(table := s.table - {x.fd});
    assert TableOk(t);
    forall d | 0 <= d < |t.conns| && d !in inHand + {c}
      ensures DueOk(t, d)
    {
      assert DueOk(u, d);
    }
    forall l | 0 <= l < |t.loops|
      ensures LoopOk(t, l)
    {
      assert LoopOk(u, l);
    }
  }

  // ----- One queue changes -----

  /** tasks may replace the queue of loop l: ordered, fitting, and nothing of a connection outside
      inHand is lost. */
  ghost predicate Replaces(s: Sys, l: LoopId, tasks: seq<Task>, todo: nat, inHand: set<ConnId>)
    requires l < |s.loops|
  {
    && (forall i :: 0 <= i < |tasks| ==> TaskOk(s.conns, l, tasks[i]))
    && (forall i, j :: 0 <= i < j < |tasks| ==> Compatible(tasks[i], tasks[j]))
    && (forall k :: k in s.loops[l].tasks && !k.Force? && k.c !in inHand ==> k in tasks)
    && todo <= |tasks| && (todo > 0 ==> s.loops[l].phase == Draining)
  }

  lemma ReplaceQueue(s: Sys, l: LoopId, tasks: seq<Task>, todo: nat, inHand: set<ConnId>)
    requires Stable(s, inHand) && l < |s.loops| && Replaces(s, l, tasks, todo, inHand)
    ensures Stable(WithLoop(s, l, s.loops[l].(tasks := tasks, todo := todo)), inHand)
  {
    var t := WithLoop(s, l, s.loops[l].(tasks := tasks, todo := todo));
    forall d | 0 <= d < |t.conns| && d !in inHand
      ensures DueOk(t, d)
    {
      assert DueOk(s, d);
    }
    forall m | 0 <= m < |t.loops|
      ensures LoopOk(t, m)
    {
      assert LoopOk(s, m);
    }
  }

  lemma PushBackStable(s: Sys, l: LoopId, k: Task, inHand: set<ConnId>)
    requires Stable(s, inHand) && l < |s.loops| && TaskOk(s.conns, l, k)
    requires forall i :: 0 <= i < |s.loops[l].tasks| ==> Compatible(s.loops[l].tasks[i], k)
    ensures Stable(PushBack(s, l, k), inHand) && k in PushBack(s, l, k).loops[l].tasks
  {
    var tasks := s.loops[l].tasks + [k];
    assert LoopOk(s, l);
    assert tasks[|tasks| - 1] == k;
    ReplaceQueue(s, l, tasks, s.loops[l].todo, inHand);
  }

  lemma PopTaskStable(s: Sys, l: LoopId)
    requires Inv(s) && Enabled(s, RunNext(l))
    ensures var k, t := s.loops[l].tasks[0], PopTask(s, l);
            && Stable(t, if k.Force? then {} else {k.c}) && HasConn(t, k.c) && t.conns == s.conns
            && TaskOk(t.conns, l, k)
            && (forall i :: 0 <= i < |t.loops[l].tasks| ==> Compatible(k, t.loops[l].tasks[i]))
            && t.loops[l].phase == Draining && t.loops[l].active == []
  {
    var ts := s.loops[l].tasks;
    assert LoopOk(s, l);
    assert ts == [ts[0]] + ts[1..];
    ReplaceQueue(s, l, ts[1..], s.loops[l].todo - 1, if ts[0].Force? then {} else {ts[0].c});
  }

  // ----- The stages -----

  /** No stage of c other than a forced close is queued anywhere. */
  ghost predicate OnlyForced(s: Sys, c: ConnId) {
    forall l, i :: 0 <= l < |s.loops| && 0 <= i < |s.loops[l].tasks| && s.loops[l].tasks[i].c == c ==>
                     s.loops[l].tasks[i].Force?
  }

  lemma EstablishStable(s: Sys, c: ConnId)
    requires Stable(s, {c}) && HasConn(s, c) && s.conns[c].established == 0 && OnlyForced(s, c)
    ensures Inv(EstablishConn(s, c))
  {
    var x := s.conns[c];
    var y := x.(state := TC.Connected, index := EP.Added, mapped := true, established := 1);
    WithConnStable(s, c, y, {c});
    Settle(WithConn(s, c, y), c);
  }

  lemma RemoveStable(s: Sys, c: ConnId)
    requires Stable(s, {c}) && HasConn(s, c) && OnlyForced(s, c)
    requires s.conns[c].closes == 1 && s.conns[c].removes == 0
    requires forall l :: 0 <= l < |s.loops| ==> c !in s.loops[l].active
    ensures Inv(RemoveConn(s, c))
  {
    var x := s.conns[c];
    var y := x.(removes := 1);
    RemovalStable(s, c, y, {c});
    var t := WithConn(s, c, y).(table := s.table - {x.fd});
    PushBackStable(t, x.loop, Destroy(c), {c});
    Settle(PushBack(t, x.loop, Destroy(c)), c);
  }

  lemma DestroyStable(s: Sys, c: ConnId)
    requires Stable(s, {c}) && HasConn(s, c)
    requires s.conns[c].removes == 1 && s.conns[c].destroys == 0
    requires forall l, i :: 0 <= l < |s.loops| && 0 <= i < |s.loops[l].tasks| ==> s.loops[l].tasks[i].c != c
    requires forall l :: 0 <= l < |s.loops| ==> c !in s.loops[l].active
    ensures Inv(DestroyConn(s, c))
  {
    var y := s.conns[c].(index := EP.Deleted, mapped := false, destroys := 1);
    WithConnStable(s, c, y, {c});
    Settle(WithConn(s, c, y), c);
  }

  lemma CloseStable(s: Sys, l: LoopId, c: ConnId)
    requires Stable(s, {c}) && HasConn(s, c) && Open(s.conns[c]) && OnlyForced(s, c)
    requires forall m :: 0 <= m < |s.loops| ==> c !in s.loops[m].active
    ensures Inv(CloseConn(s, l, c))
  {
    var x := s.conns[c];
    var y := x.(state := TC.Disconnected, index := EP.Deleted, closes := 1);
    WithConnStable(s, c, y, {c});
    var t := MarkClosed(s, c);
    if l == 0 {
      RemoveStable(t, c);
    } else {
      PushBackStable(t, 0, Remove(c), {c});
      Settle(PushBack(t, 0, Remove(c)), c);
    }
  }

  // ----- The events -----

  lemma Weaken(s: Sys, c: ConnId)
    requires Inv(s)
    ensures Stable(s, {c})
  {
  }

  /** A connection that is not open, or whose loop has nothing to dispatch, is in no active list. */
  lemma NotActive(s: Sys, c: ConnId)
    requires LoopsOk(s) && HasConn(s, c)
    requires !Open(s.conns[c]) || s.loops[s.conns[c].loop].active == []
    ensures forall l :: 0 <= l < |s.loops| ==> c !in s.loops[l].active
  {
    forall l | 0 <= l < |s.loops|
      ensures c !in s.loops[l].active
    {
      assert LoopOk(s, l);
    }
  }

  /** An open connection has nothing but forced closes queued. */
  lemma OpenOnlyForced(s: Sys, c: ConnId)
    requires ConnsOk(s) && TasksOk(s) && HasConn(s, c) && Open(s.conns[c])
    ensures OnlyForced(s, c)
  {
    assert Shape(s.conns[c]);
  }

  lemma RunNextKeepsInv(s: Sys, l: LoopId)
    requires Inv(s) && Enabled(s, RunNext(l))
    ensures Inv(Step(s, RunNext(l)))
  {
    PopTaskStable(s, l);
    var k, t := s.loops[l].tasks[0], PopTask(s, l);
    var c := k.c;
    assert Shape(t.conns[c]);
    match k {
      case Establish(_) =>
        EstablishStable(t, c);
      case Remove(_) =>
        NotActive(t, c);
        RemoveStable(t, c);
      case Destroy(_) =>
        NotActive(t, c);
        DestroyStable(t, c);
      case Force(_) =>
        if Open(t.conns[c]) {
          NotActive(t, c);
          OpenOnlyForced(t, c);
          Weaken(t, c);
          CloseStable(t, l, c);
        }
    }
  }

  lemma WithActiveStable(s: Sys, l: LoopId, active: seq<ConnId>)
    requires Inv(s) && l < |s.loops| && Distinct(active)
    requires forall i :: 0 <= i < |active| ==>
                           active[i] < |s.conns| && s.conns[active[i]].loop == l && Open(s.conns[active[i]])
    requires s.loops[l].todo == 0
    ensures Inv(WithLoop(s, l, s.loops[l].(phase := Dispatching, active := active)))
  {
    var t := WithLoop(s, l, s.loops[l].(phase := Dispatching, active := active));
    forall d | 0 <= d < |t.conns|
      ensures DueOk(t, d)
    {
      assert DueOk(s, d);
    }
    forall m | 0 <= m < |t.loops|
      ensures LoopOk(t, m)
    {
      assert LoopOk(s, m);
    }
  }

  lemma PollKeepsInv(s: Sys, l: LoopId, active: seq<ConnId>)
    requires Inv(s) && Enabled(s, Poll(l, active))
    ensures Inv(Step(s, Poll(l, active)))
  {
    assert LoopOk(s, l);
    forall i | 0 <= i < |active|
      ensures Open(s.conns[active[i]])
    {
      assert Shape(s.conns[active[i]]);
    }
    WithActiveStable(s, l, active);
  }

  lemma DispatchKeepsInv(s: Sys, l: LoopId, closes: bool)
    requires Inv(s) && Enabled(s, Dispatch(l, closes))
    ensures Inv(Step(s, Dispatch(l, closes)))
  {
    assert LoopOk(s, l);
    var active := s.loops[l].active;
    var c := active[0];
    assert s.conns[c].loop == l && Open(s.conns[c]) && Shape(s.conns[c]);
    WithActiveStable(s, l, active[1..]);
    var t := WithLoop(s, l, s.loops[l].(active := active[1..]));
    assert t == WithLoop(s, l, s.loops[l].(phase := Dispatching, active := active[1..]));
    if closes {
      forall m | 0 <= m < |t.loops|
        ensures c !in t.loops[m].active
      {
        assert LoopOk(t, m);
      }
      OpenOnlyForced(t, c);
      Weaken(t, c);
      CloseStable(t, l, c);
    }
  }

  lemma PhaseKeepsInv(s: Sys, l: LoopId, p: Loop)
    requires Inv(s) && l < |s.loops| && s.loops[l].active == []
    requires p.tasks == s.loops[l].tasks && p.active == [] && p.todo <= |p.tasks|
    requires p.todo > 0 ==> p.phase == Draining
    ensures Inv(WithLoop(s, l, p))
  {
    var t := WithLoop(s, l, p);
    forall d | 0 <= d < |t.conns|
      ensures DueOk(t, d)
    {
      assert DueOk(s, d);
    }
    forall m | 0 <= m < |t.loops|
      ensures LoopOk(t, m)
    {
      assert LoopOk(s, m);
    }
  }

  lemma TableIsLive(s: Sys)
    requires ConnsOk(s) && TableOk(s)
    ensures forall fd | fd in s.table :: s.table[fd] < |s.conns| && !s.conns[s.table[fd]].dead
  {
    forall fd | fd in s.table
      ensures s.table[fd] < |s.conns| && !s.conns[s.table[fd]].dead
    {
      assert Shape(s.conns[s.table[fd]]);
    }
  }

  lemma NewConnStable(s: Sys, fd: int, l: LoopId)
    requires Inv(s) && Enabled(s, Accept(fd, l))
    ensures var t := NewConn(s, fd, l);
            Stable(t, {|s.conns|}) && HasConn(t, |s.conns|) && OnlyForced(t, |s.conns|)
  {
    var t, c := NewConn(s, fd, l), |s.conns|;
    TableIsLive(s);
    assert fd !in s.table;
    forall m, i | 0 <= m < |t.loops| && 0 <= i < |t.loops[m].tasks|
      ensures TaskOk(t.conns, m, t.loops[m].tasks[i]) && t.loops[m].tasks[i].c != c
    {
      assert TaskOk(s.conns, m, s.loops[m].tasks[i]);
    }
    forall d | 0 <= d < |t.conns| && d != c
      ensures DueOk(t, d)
    {
      assert DueOk(s, d);
    }
    forall m | 0 <= m < |t.loops|
      ensures LoopOk(t, m)
    {
      assert LoopOk(s, m);
    }
  }

  lemma AcceptKeepsInv(s: Sys, fd: int, l: LoopId)
    requires Inv(s) && Enabled(s, Accept(fd, l))
    ensures Inv(Step(s, Accept(fd, l)))
  {
    NewConnStable(s, fd, l);
    var t, c := NewConn(s, fd, l), |s.conns|;
    if l == 0 {
      EstablishStable(t, c);
    } else {
      PushBackStable(t, l, Establish(c), {c});
      Settle(PushBack(t, l, Establish(c)), c);
    }
  }

  /** Setting the state to disconnecting keeps an open connection open. */
  lemma DisconnectingStable(s: Sys, c: ConnId)
    requires Inv(s) && HasConn(s, c) && Open(s.conns[c])
    ensures Inv(WithConn(s, c, s.conns[c].(state := TC.Disconnecting)))
  {
    var x := s.conns[c].(state := TC.Disconnecting);
    assert Shape(s.conns[c]) && DueOk(s, c);
    OpenOnlyForced(s, c);
    WithConnStable(s, c, x, {});
    assert {} + {c} == {c};
    Settle(WithConn(s, c, x), c);
  }

  lemma ForceCloseKeepsInv(s: Sys, c: ConnId)
    requires Inv(s) && Enabled(s, ForceClose(c))
    ensures Inv(Step(s, ForceClose(c)))
  {
    if Open(s.conns[c]) {
      DisconnectingStable(s, c);
      var t := WithConn(s, c, s.conns[c].(state := TC.Disconnecting));
      OpenOnlyForced(t, c);
      assert Shape(t.conns[c]);
      PushBackStable(t, s.conns[c].loop, Force(c), {});
    }
  }

  /** What is no longer referenced has been destructed, and no raw pointer to it is queued. */
  lemma UnreferencedIsDone(s: Sys, c: ConnId)
    requires Inv(s) && HasConn(s, c) && Unreferenced(s, c)
    ensures s.conns[c].destroys == 1 && !s.conns[c].mapped && s.conns[c].index == EP.Deleted
    ensures forall l, i :: 0 <= l < |s.loops| && 0 <= i < |s.loops[l].tasks| ==> s.loops[l].tasks[i].c != c
  {
    var x := s.conns[c];
    assert Shape(x) && DueOk(s, c);
    assert x.removes == 1;
    assert Destroy(c) !in s.loops[x.loop].tasks;
    forall l, i | 0 <= l < |s.loops| && 0 <= i < |s.loops[l].tasks|
      ensures s.loops[l].tasks[i].c != c
    {
      assert TaskOk(s.conns, l, s.loops[l].tasks[i]);
    }
  }

  lemma ReclaimKeepsInv(s: Sys, c: ConnId)
    requires Inv(s) && Enabled(s, Reclaim(c))
    ensures Inv(Step(s, Reclaim(c)))
  {
    UnreferencedIsDone(s, c);
    NotActive(s, c);
    var x := s.conns[c].(dead := true);
    WithConnStable(s, c, x, {});
    assert {} + {c} == {c};
    Settle(WithConn(s, c, x), c);
  }

  lemma StepKeepsInv(s: Sys, e: Event)
    requires Inv(s) && Enabled(s, e)
    ensures Inv(Step(s, e))
  {
    match e
    case Accept(fd, l) => AcceptKeepsInv(s, fd, l);
    case Poll(l, active) => PollKeepsInv(s, l, active);
    case Dispatch(l, closes) => DispatchKeepsInv(s, l, closes);
    case StartDrain(l) =>
      PhaseKeepsInv(s, l, s.loops[l].(phase := Draining, todo := |s.loops[l].tasks|));
    case RunNext(l) => RunNextKeepsInv(s, l);
    case EndDrain(l) =>
      assert LoopOk(s, l);
      PhaseKeepsInv(s, l, s.loops[l].(phase := Polling));
    case ForceClose(c) => ForceCloseKeepsInv(s, c);
    case ShutDown(c) =>
      if s.conns[c].state == TC.Connected {
        DisconnectingStable(s, c);
      }
    case Reclaim(c) => ReclaimKeepsInv(s, c);
  }

  predicate LegalRun(s: Sys, es: seq<Event>)
    decreases |es|
  {
    es == [] || (Enabled(s, es[0]) && LegalRun(Step(s, es[0]), es[1..]))
  }

  function Run(s: Sys, es: seq<Event>): (t: Sys)
    requires LegalRun(s, es)
    decreases |es|
  {
    if es == [] then s else Run(Step(s, es[0]), es[1..])
  }

  lemma {:induction false} RunKeepsInv(s: Sys, es: seq<Event>)
    requires Inv(s) && LegalRun(s, es)
    ensures Inv(Run(s, es))
    decreases |es|
  {
    if es == [] {
    } else {
      StepKeepsInv(s, es[0]);
      RunKeepsInv(Step(s, es[0]), es[1..]);
    }
  }

  /** In every run over any number of loops and connections: no assertion fails, no live table entry
      is overwritten and no object is used after its destruction; each connection is established,
      closed, removed and destructed at most once and in that order; once it is destructed its channel
      is in no channel table and in no kernel set; and channels in the tables never share a descriptor,
      as the epollers require. */
  lemma LifecycleIsSafe(n: nat, es: seq<Event>)
    requires n > 0 && LegalRun(Initial(n), es)
    ensures var s := Run(Initial(n), es);
            && !s.failed
            && (forall c :: 0 <= c < |s.conns| ==>
                  var x := s.conns[c];
                  && x.destroys <= x.removes <= x.closes <= x.established <= 1
                  && (x.destroys == 1 ==> !x.mapped && x.index == EP.Deleted && x.state == TC.Disconnected)
                  && (x.dead ==> x.destroys == 1))
            && (forall fd | fd in s.table :: s.table[fd] < |s.conns| && !s.conns[s.table[fd]].dead)
            && (forall c, d :: 0 <= c < d < |s.conns| && s.conns[c].mapped && s.conns[d].mapped ==>
                  s.conns[c].fd != s.conns[d].fd)
  {
    RunKeepsInv(Initial(n), es);
    var s := Run(Initial(n), es);
    TableIsLive(s);
    assert forall c :: 0 <= c < |s.conns| ==> Shape(s.conns[c]);
  }

  /** Nothing is forgotten: when every queue has been drained, every accepted connection has been
      established, and every closed one removed and destructed. */
  lemma QuiescentIsComplete(n: nat, es: seq<Event>, c: ConnId)
    requires n > 0 && LegalRun(Initial(n), es)
    requires var s := Run(Initial(n), es);
             c < |s.conns| && forall l :: 0 <= l < |s.loops| ==> s.loops[l].tasks == []
    ensures var x := Run(Initial(n), es).conns[c];
            x.established == 1 && x.closes == x.removes == x.destroys
    ensures var s := Run(Initial(n), es);
            s.conns[c].closes == 0 <==> s.conns[c].fd in s.table && s.table[s.conns[c].fd] == c
  {
    RunKeepsInv(Initial(n), es);
    var s := Run(Initial(n), es);
    assert Shape(s.conns[c]) && DueOk(s, c);
  }

  // ----- What each event does -----

  predicate Runs(s: Sys, e: Event, k: Task) {
    e.RunNext? && e.l < |s.loops| && s.loops[e.l].tasks != [] && s.loops[e.l].tasks[0] == k
  }

  /** The peer of c is gone: its channel is dispatched and the read hits end of file or an error. */
  predicate PeerGone(s: Sys, e: Event, c: ConnId) {
    e.Dispatch? && e.closes && e.l < |s.loops| && s.loops[e.l].active != [] && s.loops[e.l].active[0] == c
  }

  predicate OpenIn(s: Sys, c: ConnId) {
    c < |s.conns| && Open(s.conns[c])
  }

  predicate ClosesNow(s: Sys, e: Event, c: ConnId) {
    PeerGone(s, e, c) || (Runs(s, e, Force(c)) && OpenIn(s, c))
  }

  predicate EstablishesNow(s: Sys, e: Event, c: ConnId) {
    Runs(s, e, Establish(c)) || (e.Accept? && e.l == 0 && c == |s.conns|)
  }

  predicate RemovesNow(s: Sys, e: Event, c: ConnId) {
    Runs(s, e, Remove(c)) || (ClosesNow(s, e, c) && e.l == 0)
  }

  datatype Stage = Establishing | Closing | Removing | Destroying | Reclaiming

  /** The event runs this stage for connection c. */
  predicate RunsStage(s: Sys, e: Event, g: Stage, c: ConnId) {
    match g
    case Establishing => EstablishesNow(s, e, c)
    case Closing => ClosesNow(s, e, c)
    case Removing => RemovesNow(s, e, c)
    case Destroying => Runs(s, e, Destroy(c))
    case Reclaiming => e == Reclaim(c)
  }

  predicate HasRun(s: Sys, g: Stage, c: ConnId) {
    && c < |s.conns|
    && match g
       case Establishing => s.conns[c].established == 1
       case Closing => s.conns[c].closes == 1
       case Removing => s.conns[c].removes == 1
       case Destroying => s.conns[c].destroys == 1
       case Reclaiming => s.conns[c].dead
  }

  function Once(b: bool): (n: nat) {
    if b then 1 else 0
  }

  /** handleClose on loop l: disconnected and out of the kernel, once; the removal has been run if l is
      the base loop, which leaves the destruction queued on the connection's loop, and is itself queued
      on the base loop otherwise. */
  predicate ClosedBy(s: Sys, t: Sys, l: LoopId, c: ConnId)
    requires HasConn(s, c)
  {
    var x := s.conns[c];
    && t.conns == s.conns[c := x.(state := TC.Disconnected, index := EP.Deleted, closes := 1, removes := Once(l == 0))]
    && t.table == (if l == 0 then s.table - {x.fd} else s.table)
    && |t.loops| == |s.loops|
    && forall m :: 0 <= m < |s.loops| ==>
         t.loops[m] == s.loops[m].(tasks := s.loops[m].tasks
                                            + (if l == 0 && m == x.loop then [Destroy(c)]
                                               else if l != 0 && m == 0 then [Remove(c)] else []))
  }

  lemma CloseMeaning(s: Sys, l: LoopId, c: ConnId)
    requires HasConn(s, c) && Open(s.conns[c]) && Shape(s.conns[c])
    ensures ClosedBy(s, CloseConn(s, l, c), l, c)
  {
    assert forall m :: 0 <= m < |s.loops| ==> s.loops[m].tasks + [] == s.loops[m].tasks;
  }

  /** A dispatched read that hits end of file or an error closes the connection; any other leaves the
      system as it was, but for the list of channels still to be dispatched. */
  predicate Dispatched(s: Sys, t: Sys, l: LoopId, closes: bool)
    requires Enabled(s, Dispatch(l, closes))
  {
    var c := s.loops[l].active[0];
    var rest := WithLoop(s, l, s.loops[l].(active := s.loops[l].active[1..]));
    && Open(s.conns[c]) && s.conns[c].loop == l && s.conns[c].closes == 0 && s.conns[c].removes == 0
    && if closes then ClosedBy(rest, t, l, c) else t == rest
  }

  lemma DispatchMeaning(s: Sys, l: LoopId, closes: bool)
    requires Inv(s) && Enabled(s, Dispatch(l, closes))
    ensures Dispatched(s, Step(s, Dispatch(l, closes)), l, closes)
  {
    assert LoopOk(s, l);
    var c := s.loops[l].active[0];
    assert Shape(s.conns[c]);
    var rest := WithLoop(s, l, s.loops[l].(active := s.loops[l].active[1..]));
    if closes {
      CloseMeaning(rest, l, c);
    }
  }

  /** A functor does its own stage for its own connection. A forced close closes the connection if it is
      still open, and else does nothing; the removal erases the table entry and queues the
      destruction. */
  predicate TaskDone(s: Sys, t: Sys, l: LoopId)
    requires Enabled(s, RunNext(l))
  {
    var k, u := s.loops[l].tasks[0], PopTask(s, l);
    var x := s.conns[k.c];
    match k
    case Establish(c) =>
      && x.established == 0
      && t == WithConn(u, c, x.(state := TC.Connected, index := EP.Added, mapped := true, established := 1))
    case Remove(c) =>
      && x.removes == 0
      && t == PushBack(WithConn(u, c, x.(removes := 1)).(table := s.table - {x.fd}), x.loop, Destroy(c))
    case Destroy(c) =>
      x.destroys == 0 && t == WithConn(u, c, x.(mapped := false, destroys := 1))
    case Force(c) =>
      && x.loop == l && (!Open(x) ==> x.closes == 1)
      && if Open(x) then x.closes == 0 && x.removes == 0 && ClosedBy(u, t, l, c) else t == u
  }

  lemma TaskMeaning(s: Sys, l: LoopId)
    requires Inv(s) && Enabled(s, RunNext(l))
    ensures TaskDone(s, Step(s, RunNext(l)), l)
  {
    var k := s.loops[l].tasks[0];
    assert TaskOk(s.conns, l, k) && Shape(s.conns[k.c]);
    if k.Force? && Open(s.conns[k.c]) {
      CloseMeaning(PopTask(s, l), l, k.c);
    }
  }

  lemma TaskDoneStages(s: Sys, t: Sys, l: LoopId, g: Stage, c: ConnId)
    requires Enabled(s, RunNext(l)) && TaskDone(s, t, l)
    ensures HasRun(t, g, c) <==> HasRun(s, g, c) || RunsStage(s, RunNext(l), g, c)
  {
  }

  lemma DispatchedStages(s: Sys, t: Sys, l: LoopId, closes: bool, g: Stage, c: ConnId)
    requires Enabled(s, Dispatch(l, closes)) && Dispatched(s, t, l, closes)
    ensures HasRun(t, g, c) <==> HasRun(s, g, c) || RunsStage(s, Dispatch(l, closes), g, c)
  {
  }

  lemma OtherStages(s: Sys, e: Event, g: Stage, c: ConnId)
    requires Enabled(s, e) && !e.RunNext? && !e.Dispatch?
    ensures HasRun(Step(s, e), g, c) <==> HasRun(s, g, c) || RunsStage(s, e, g, c)
  {
  }

  /** Every event runs exactly the stages it should, for exactly the connections it should. */
  lemma StepStages(s: Sys, e: Event, g: Stage, c: ConnId)
    requires Inv(s) && Enabled(s, e)
    ensures HasRun(Step(s, e), g, c) <==> HasRun(s, g, c) || RunsStage(s, e, g, c)
  {
    match e
    case Dispatch(l, closes) =>
      DispatchMeaning(s, l, closes);
      DispatchedStages(s, Step(s, e), l, closes, g, c);
    case RunNext(l) =>
      TaskMeaning(s, l);
      TaskDoneStages(s, Step(s, e), l, g, c);
    case _ =>
      OtherStages(s, e, g, c);
  }

  predicate StageIn(s: Sys, es: seq<Event>, g: Stage, c: ConnId)
    requires LegalRun(s, es)
    decreases |es|
  {
    es != [] && (RunsStage(s, es[0], g, c) || StageIn(Step(s, es[0]), es[1..], g, c))
  }

  lemma {:induction false} RunStages(s: Sys, es: seq<Event>, g: Stage, c: ConnId)
    requires Inv(s) && LegalRun(s, es)
    ensures HasRun(Run(s, es), g, c) <==> HasRun(s, g, c) || StageIn(s, es, g, c)
    decreases |es|
  {
    if es == [] {
    } else {
      StepKeepsInv(s, es[0]);
      StepStages(s, es[0], g, c);
      RunStages(Step(s, es[0]), es[1..], g, c);
    }
  }

  /** The phase, the channels still to be dispatched and the rest of the batch of loop m change with the
      events of that loop only. */
  predicate LoopMoves(s: Sys, e: Event, t: Sys, m: LoopId)
    requires m < |s.loops| && m < |t.loops|
  {
    var p, q := s.loops[m], t.loops[m];
    match e
    case Poll(l, active) => if l == m then q.phase == Dispatching && q.active == active && q.todo == p.todo else q == p
    case Dispatch(l, _) =>
      && q.phase == p.phase && q.todo == p.todo
      && q.active == if l == m && p.active != [] then p.active[1..] else p.active
    case StartDrain(l) =>
      if l == m then q.phase == Draining && q.active == p.active && q.todo == |p.tasks| else q == p
    case RunNext(l) => q.phase == p.phase && q.active == p.active && q.todo == if l == m then p.todo - 1 else p.todo
    case EndDrain(l) => if l == m then q == p.(phase := Polling) else q == p
    case _ => q.phase == p.phase && q.active == p.active && q.todo == p.todo
  }

  lemma StepMovesLoops(s: Sys, e: Event, m: LoopId)
    requires Inv(s) && Enabled(s, e) && m < |s.loops|
    ensures |Step(s, e).loops| == |s.loops| && LoopMoves(s, e, Step(s, e), m)
  {
    match e
    case Dispatch(l, closes) =>
      DispatchMeaning(s, l, closes);
    case RunNext(l) =>
      TaskMeaning(s, l);
    case _ =>
  }

  // ----- What was asked for -----

  predicate Asks(s: Sys, e: Event, c: ConnId) {
    PeerGone(s, e, c) || (e == ForceClose(c) && OpenIn(s, c))
  }

  /** The run contains an end of file or an error on c, or a forceClose of c while it was open. */
  predicate AskedIn(s: Sys, es: seq<Event>, c: ConnId)
    requires LegalRun(s, es)
    decreases |es|
  {
    es != [] && (Asks(s, es[0], c) || AskedIn(Step(s, es[0]), es[1..], c))
  }

  /** Closed, or a forced close is queued. */
  predicate Owed(s: Sys, c: ConnId) {
    && c < |s.conns|
    && (s.conns[c].closes == 1 || (s.conns[c].loop < |s.loops| && Force(c) in s.loops[s.conns[c].loop].tasks))
  }

  lemma TaskDoneOwed(s: Sys, t: Sys, l: LoopId, c: ConnId)
    requires Enabled(s, RunNext(l)) && TaskDone(s, t, l)
    ensures Owed(t, c) <==> Owed(s, c)
  {
    var ts := s.loops[l].tasks;
    assert ts == [ts[0]] + ts[1..];
  }

  lemma DispatchedOwed(s: Sys, t: Sys, l: LoopId, closes: bool, c: ConnId)
    requires Enabled(s, Dispatch(l, closes)) && Dispatched(s, t, l, closes)
    ensures Owed(t, c) <==> Owed(s, c) || Asks(s, Dispatch(l, closes), c)
  {
  }

  lemma OtherOwed(s: Sys, e: Event, c: ConnId)
    requires Enabled(s, e) && !e.RunNext? && !e.Dispatch? && !e.Accept?
    ensures Owed(Step(s, e), c) <==> Owed(s, c) || Asks(s, e, c)
  {
  }

  lemma AcceptOwed(s: Sys, e: Event, c: ConnId)
    requires Inv(s) && Enabled(s, e) && e.Accept?
    ensures Owed(Step(s, e), c) <==> Owed(s, c)
  {
    NothingQueued(s, |s.conns|, e.l);
  }

  lemma NothingQueued(s: Sys, c: ConnId, l: LoopId)
    requires TasksOk(s) && c >= |s.conns| && l < |s.loops|
    ensures forall k :: k in s.loops[l].tasks ==> k.c != c
  {
    assert forall i :: 0 <= i < |s.loops[l].tasks| ==> TaskOk(s.conns, l, s.loops[l].tasks[i]);
  }

  lemma StepOwed(s: Sys, e: Event, c: ConnId)
    requires Inv(s) && Enabled(s, e)
    ensures Owed(Step(s, e), c) <==> Owed(s, c) || Asks(s, e, c)
  {
    match e
    case Dispatch(l, closes) =>
      DispatchMeaning(s, l, closes);
      DispatchedOwed(s, Step(s, e), l, closes, c);
    case RunNext(l) =>
      TaskMeaning(s, l);
      TaskDoneOwed(s, Step(s, e), l, c);
    case Accept(_, _) =>
      AcceptOwed(s, e, c);
    case _ =>
      OtherOwed(s, e, c);
  }

  lemma {:induction false} RunOwed(s: Sys, es: seq<Event>, c: ConnId)
    requires Inv(s) && LegalRun(s, es)
    ensures Owed(Run(s, es), c) <==> Owed(s, c) || AskedIn(s, es, c)
    decreases |es|
  {
    if es == [] {
    } else {
      StepKeepsInv(s, es[0]);
      StepOwed(s, es[0], c);
      RunOwed(Step(s, es[0]), es[1..], c);
    }
  }

  /** Over every run, a stage of a connection has been run if and only if the run contains the event
      that runs it; a connection is closed if and only if a closing dispatch or a forced close of it,
      made while it was open, was executed. */
  lemma StagesAreExact(n: nat, es: seq<Event>, g: Stage, c: ConnId)
    requires n > 0 && LegalRun(Initial(n), es)
    ensures HasRun(Run(Initial(n), es), g, c) <==> StageIn(Initial(n), es, g, c)
  {
    InitialInv(n);
    RunStages(Initial(n), es, g, c);
  }

  /** When every queue has been drained, the connections torn down, closed, removed and destructed, are
      exactly those whose peer has gone or on which forceClose was called while open. */
  lemma TornDownExactly(n: nat, es: seq<Event>, c: ConnId)
    requires n > 0 && LegalRun(Initial(n), es)
    requires var s := Run(Initial(n), es);
             c < |s.conns| && forall l :: 0 <= l < |s.loops| ==> s.loops[l].tasks == []
    ensures var x := Run(Initial(n), es).conns[c];
            x.closes == x.removes == x.destroys == Once(AskedIn(Initial(n), es, c))
  {
    RunKeepsInv(Initial(n), es);
    RunOwed(Initial(n), es, c);
    QuiescentIsComplete(n, es, c);
    assert Shape(Run(Initial(n), es).conns[c]);
  }

  /** The connection was accepted with this descriptor, for this loop. */
  predicate Home(s: Sys, c: ConnId, fd: int, l: LoopId) {
    c < |s.conns| && s.conns[c].fd == fd && s.conns[c].loop == l
  }

  lemma StepHomes(s: Sys, e: Event)
    requires Inv(s) && Enabled(s, e)
    ensures |Step(s, e).conns| == |s.conns| + Once(e.Accept?)
    ensures forall c: nat :: c < |s.conns| ==> Home(Step(s, e), c, s.conns[c].fd, s.conns[c].loop)
    ensures e.Accept? ==> Home(Step(s, e), |s.conns|, e.fd, e.l)
  {
    match e
    case Dispatch(l, closes) =>
      DispatchMeaning(s, l, closes);
    case RunNext(l) =>
      TaskMeaning(s, l);
    case _ =>
  }

  function AcceptCount(es: seq<Event>): (n: nat) {
    if es == [] then 0 else Once(es[0].Accept?) + AcceptCount(es[1..])
  }

  /** The run's c-th accept, counting on from k, is of descriptor fd for loop l. */
  predicate AcceptedAs(es: seq<Event>, k: nat, c: ConnId, fd: int, l: LoopId)
    decreases |es|
  {
    && es != []
    && if es[0].Accept? && k == c then es[0].fd == fd && es[0].l == l
       else AcceptedAs(es[1..], k + Once(es[0].Accept?), c, fd, l)
  }

  lemma {:induction false} RunHomes(s: Sys, es: seq<Event>, c: ConnId, fd: int, l: LoopId)
    requires Inv(s) && LegalRun(s, es)
    ensures |Run(s, es).conns| == |s.conns| + AcceptCount(es)
    ensures Home(Run(s, es), c, fd, l) <==>
            if c < |s.conns| then Home(s, c, fd, l) else AcceptedAs(es, |s.conns|, c, fd, l)
    decreases |es|
  {
    if es == [] {
    } else {
      StepKeepsInv(s, es[0]);
      StepHomes(s, es[0]);
      RunHomes(Step(s, es[0]), es[1..], c, fd, l);
    }
  }

  /** The connections of a run are its accepts, in order, each with its descriptor, on its loop. */
  lemma ConnectionsAreAccepts(n: nat, es: seq<Event>, c: ConnId, fd: int, l: LoopId)
    requires n > 0 && LegalRun(Initial(n), es)
    ensures |Run(Initial(n), es).conns| == AcceptCount(es)
    ensures Home(Run(Initial(n), es), c, fd, l) <==> AcceptedAs(es, 0, c, fd, l)
  {
    InitialInv(n);
    RunHomes(Initial(n), es, c, fd, l);
  }

  lemma InitialInv(n: nat)
    requires n > 0
    ensures Inv(Initial(n))
  {
  }

  /** The calls a connection's user makes: forceClose queues a close on the connection's loop, shutDown
      only leaves the connected state; neither does anything once the connection is closed. */
  lemma CallMeaning(s: Sys, c: ConnId)
    requires Inv(s) && Callable(s, c)
    ensures var x, p := s.conns[c], s.loops[s.conns[c].loop];
            var t, u := Step(s, ForceClose(c)), Step(s, ShutDown(c));
            && (Open(x) ==> t.conns == s.conns[c := x.(state := TC.Disconnecting)]
                            && t.loops == s.loops[x.loop := p.(tasks := p.tasks + [Force(c)])])
            && (Open(x) ==> u.conns[c].state == TC.Disconnecting && u.loops == s.loops)
            && (!Open(x) ==> t == s && u == s)
  {
  }
}
