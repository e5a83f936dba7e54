/** Net/tcpconnection.cpp: the output path of a connection and its half-close, with all callers on
    the loop thread. Results of write and read system calls are parameters. */
module TcpConnections {
  import opened Buffers

  datatype ConnState = Connecting | Connected | Disconnecting | Disconnected

  /** Result of ::write: a count, EWOULDBLOCK, EPIPE or ECONNRESET, or any other error. */
  datatype WriteResult = Wrote(n: nat) | WouldBlock | Broken | OtherError

  /** Result of Buffer::readFd. */
  datatype ReadResult = Bytes | Eof | Failed(errno: int)

  const EAGAIN := 11

  /** The connection with the history of its socket: bytes handed to it, SHUT_WR calls, messages
      accepted. requested: shutDown was called while connected. intact: the output buffer has not
      compacted. closeTasks: forceCloseInLoop calls still queued. */
  datatype Conn = Conn(
    state: ConnState, out: Buf, writing: bool,
    sent: string, accepted: string, shutdowns: nat, requested: bool, intact: bool, closeTasks: nat)

  function NewConnection(): (c: Conn)
    ensures Inv(c)
  {
    Conn(Connecting, Fresh(INITIAL_SIZE), false, "", "", 0, false, true, 0)
  }

  predicate Open(c: Conn) {
    c.state == Connected || c.state == Disconnecting
  }

  /** A message is written at once only when nothing is waiting. */
  predicate Direct(c: Conn) {
    !c.writing && c.out.Readable() == 0
  }

  function WrittenNow(c: Conn, res: WriteResult): (n: nat) {
    if Direct(c) && res.Wrote? then res.n else 0
  }

  /** The connection after n bytes of msg went to the socket and the rest into buffer o. */
  function Queued(c: Conn, msg: string, n: nat, o: Buf, clean: bool): (d: Conn)
    requires n <= |msg|
  {
    c.(sent := c.sent + msg[..n], accepted := c.accepted + msg, out := o, writing := true,
       intact := c.intact && clean)
  }

  function SentInLoop(c: Conn, msg: string, res: WriteResult): (d: Conn)
    requires c.out.Inv() && WrittenNow(c, res) <= |msg|
  {
    if c.state == Disconnected || (Direct(c) && res.Broken?) then c
    else
      var n := WrittenNow(c, res);
      if n == |msg| then c.(sent := c.sent + msg, accepted := c.accepted + msg)
      else Queued(c, msg, n, Appended(c.out, msg[n..], false), !Compacts(c.out, |msg| - n))
  }

  function Sent(c: Conn, msg: string, res: WriteResult): (d: Conn)
    requires c.out.Inv() && WrittenNow(c, res) <= |msg|
  {
    if c.state == Connected then SentInLoop(c, msg, res) else c
  }

  function ShutInLoop(c: Conn): (d: Conn) {
    if c.writing then c else c.(shutdowns := c.shutdowns + 1)
  }

  function WriteHandled(c: Conn, res: WriteResult): (d: Conn)
    requires c.out.Inv() && (res.Wrote? ==> res.n <= c.out.Readable())
  {
    if !c.writing || !res.Wrote? || res.n == 0 then c
    else
      var d := c.(sent := c.sent + c.out.View()[..res.n], out := Retrieved(c.out, res.n));
      if d.out.Readable() != 0 then d
      else
        var e := d.(writing := false);
        if c.state == Disconnecting then ShutInLoop(e) else e
  }

  function ShutDownCalled(c: Conn): (d: Conn) {
    if c.state == Connected then ShutInLoop(c.(state := Disconnecting, requested := true)) else c
  }

  function ForceCloseCalled(c: Conn): (d: Conn) {
    if Open(c) then c.(state := Disconnecting, closeTasks := c.closeTasks + 1) else c
  }

  function Closed(c: Conn): (d: Conn) {
    c.(state := Disconnected, writing := false)
  }

  function ForceClosed(c: Conn): (d: Conn)
    requires c.closeTasks > 0
  {
    var d := c.(closeTasks := c.closeTasks - 1);
    if Open(c) then Closed(d) else d
  }

  // The flag `byRef` says whether readFd hands errno back through its parameter. The code takes the
  // parameter by value, `byRef == false`, so the caller's variable keeps its initial 0.

  function SavedErrno(r: ReadResult, byRef: bool): (errno: int) {
    if r.Failed? && byRef then r.errno else 0
  }

  function ReadHandled(c: Conn, r: ReadResult, byRef: bool): (d: Conn) {
    match r
    case Bytes => c
    case Eof => Closed(c)
    case Failed(_) => if SavedErrno(r, byRef) != EAGAIN then Closed(c) else c
  }

  datatype Event =
    | Establish
    | Send(msg: string, res: WriteResult)
    | HandleWrite(res: WriteResult)
    | HandleRead(r: ReadResult)
    | ShutDown
    | ForceClose
    | ForceCloseInLoop

  /** What the kernel and the loop allow: counts within what was offered, one establishment, reads
      only on a registered descriptor, queued calls only if queued. */
  predicate Legal(c: Conn, e: Event) {
    match e
    case Establish => c.state == Connecting
    case Send(msg, res) => WrittenNow(c, res) <= |msg|
    case HandleWrite(res) => res.Wrote? ==> res.n <= c.out.Readable()
    case HandleRead(_) => Open(c)
    case ForceCloseInLoop => c.closeTasks > 0
    case _ => true
  }

  function Step(c: Conn, e: Event): (d: Conn)
    requires c.out.Inv() && Legal(c, e)
  {
    match e
    case Establish => c.(state := Connected)
    case Send(msg, res) => Sent(c, msg, res)
    case HandleWrite(res) => WriteHandled(c, res)
    case HandleRead(r) => ReadHandled(c, r, false)
    case ShutDown => ShutDownCalled(c)
    case ForceClose => ForceCloseCalled(c)
    case ForceCloseInLoop => ForceClosed(c)
  }

  predicate Inv(c: Conn) {
    && c.out.Inv()
    // conservation
    && |c.sent| + |c.out.View()| == |c.accepted|
    && (c.intact ==> c.sent + c.out.View() == c.accepted)
    // write interest
    && (c.state != Disconnected ==> (c.writing <==> c.out.View() != ""))
    && (c.state == Disconnected ==> !c.writing)
    // half-close
    && c.shutdowns <= 1
    && (c.shutdowns == 1 ==> c.out.View() == "")
    && (c.state == Connecting || c.state == Connected ==> c.shutdowns == 0 && !c.requested)
    && (c.requested && c.state == Disconnecting && !c.writing ==> c.shutdowns == 1)
    // forced close
    && (c.closeTasks > 0 ==> c.state == Disconnecting || c.state == Disconnected)
    && (c.state == Disconnecting && !c.requested ==> c.closeTasks > 0)
  }

  lemma SplitMessage(sent: string, v: string, msg: string, n: nat)
    requires n <= |msg| && (n > 0 ==> v == "")
    ensures (sent + msg[..n]) + (v + msg[n..]) == (sent + v) + msg
  {
    assert msg == msg[..n] + msg[n..];
  }

  lemma QueuedInv(c: Conn, msg: string, n: nat, o: Buf, clean: bool)
    requires Inv(c) && c.state == Connected && n < |msg| && (n > 0 ==> c.out.View() == "")
    requires o.Inv() && |o.View()| == |c.out.View()| + |msg| - n
    requires clean ==> o.View() == c.out.View() + msg[n..]
    ensures Inv(Queued(c, msg, n, o, clean))
  {
    SplitMessage(c.sent, c.out.View(), msg, n);
  }

  lemma QueueingInv(c: Conn, msg: string, n: nat)
    requires Inv(c) && c.state == Connected && n < |msg| && (n > 0 ==> c.out.View() == "")
    ensures Inv(Queued(c, msg, n, Appended(c.out, msg[n..], false), !Compacts(c.out, |msg| - n)))
  {
    var o, clean := Appended(c.out, msg[n..], false), !Compacts(c.out, |msg| - n);
    assert o.Inv() && |o.View()| == |c.out.View()| + |msg| - n && (clean ==> o.View() == c.out.View() + msg[n..]) by {
      AppendedMeaning(c.out, msg[n..], false);
    }
    QueuedInv(c, msg, n, o, clean);
  }

  lemma DirectInv(c: Conn, msg: string)
    requires Inv(c) && c.state == Connected && (c.out.View() == "" || msg == "")
    ensures Inv(c.(sent := c.sent + msg, accepted := c.accepted + msg))
  {
    SplitMessage(c.sent, c.out.View(), msg, |msg|);
    assert msg[..|msg|] == msg;
  }

  lemma SendKeepsInv(c: Conn, msg: string, res: WriteResult)
    requires Inv(c) && Legal(c, Send(msg, res))
    ensures Inv(Sent(c, msg, res))
  {
    var n := WrittenNow(c, res);
    if c.state == Connected && !(Direct(c) && res.Broken?) {
      if n < |msg| {
        QueueingInv(c, msg, n);
      } else {
        DirectInv(c, msg);
      }
    }
  }

  /** Writing moves bytes from the front of the buffer to the socket. */
  lemma WriteKeepsContents(c: Conn, res: WriteResult)
    requires c.out.Inv() && Legal(c, HandleWrite(res))
    ensures var d := WriteHandled(c, res);
            d.out.Inv() && d.accepted == c.accepted && d.sent + d.out.View() == c.sent + c.out.View()
  {
    if c.writing && res.Wrote? && res.n > 0 {
      StepRefinesQueue(c.out, Retrieve(res.n), false);
      Regroup(c.sent, c.out.View(), res.n);
    }
  }

  lemma Regroup(sent: string, v: string, n: nat)
    requires n <= |v|
    ensures (sent + v[..n]) + v[n..] == sent + v
  {
    assert v == v[..n] + v[n..];
  }

  lemma WriteKeepsInv(c: Conn, res: WriteResult)
    requires Inv(c) && Legal(c, HandleWrite(res))
    ensures Inv(WriteHandled(c, res))
  {
    WriteKeepsContents(c, res);
    assert |c.sent + c.out.View()| == |c.sent| + |c.out.View()|;
  }

  lemma StepKeepsInv(c: Conn, e: Event)
    requires Inv(c) && Legal(c, e)
    ensures Inv(Step(c, e))
  {
    match e
    case Send(msg, res) => SendKeepsInv(c, msg, res);
    case HandleWrite(res) => WriteKeepsInv(c, res);
    case _ =>
  }

  predicate LegalRun(c: Conn, es: seq<Event>)
    requires Inv(c)
    decreases |es|
  {
    es == [] ||
    (Legal(c, es[0]) && (StepKeepsInv(c, es[0]); LegalRun(Step(c, es[0]), es[1..])))
  }

  function Run(c: Conn, es: seq<Event>): (d: Conn)
    requires Inv(c) && LegalRun(c, es)
    decreases |es|
  {
    if es == [] then c
    else
      StepKeepsInv(c, es[0]);
      Run(Step(c, es[0]), es[1..])
  }

  lemma {:induction false} RunKeepsInv(c: Conn, es: seq<Event>)
    requires Inv(c) && LegalRun(c, es)
    ensures Inv(Run(c, es))
    decreases |es|
  {
    if es == [] {
    } else {
      StepKeepsInv(c, es[0]);
      RunKeepsInv(Step(c, es[0]), es[1..]);
    }
  }

  /** In every run, with arbitrary partial and refused writes: the bytes handed to the socket and
      those in the output buffer are the accepted ones, in number always, and in content and order
      as long as the buffer has not compacted; and the loop watches for writability exactly while
      bytes are waiting, until disconnection. */
  lemma OutputConservation(es: seq<Event>)
    requires LegalRun(NewConnection(), es)
    ensures var c := Run(NewConnection(), es);
            && c.out.Inv()
            && |c.sent| + |c.out.View()| == |c.accepted|
            && (c.intact ==> c.sent + c.out.View() == c.accepted)
            && (c.state != Disconnected ==> (c.writing <==> c.out.View() != ""))
  {
    RunKeepsInv(NewConnection(), es);
  }

  // ----- Where the bytes go -----

  /** A send while connected. With nothing waiting, the socket gets exactly the bytes the write call
      took, none if it would block or fails, and a broken pipe drops the message; with bytes waiting the
      socket gets nothing. What the socket did not take waits, and is watched for. Any other send does
      nothing. */
  lemma SendMeaning(c: Conn, msg: string, res: WriteResult)
    requires Inv(c) && Legal(c, Send(msg, res))
    ensures var d, idle := Sent(c, msg, res), c.out.View() == "";
            if c.state != Connected || (idle && res.Broken?) then d == c
            else
              && d.out.InBounds() && d.accepted == c.accepted + msg && d.state == c.state
              && d.sent == c.sent + (if idle && res.Wrote? then msg[..res.n] else "")
              && |d.out.View()| == |c.out.View()| + |msg| - (if idle && res.Wrote? then res.n else 0)
              && (d.writing <==> d.out.View() != "")
              && d.shutdowns == c.shutdowns && d.closeTasks == c.closeTasks && d.requested == c.requested
  {
    SendKeepsInv(c, msg, res);
    var n := WrittenNow(c, res);
    assert c.sent + msg[..0] == c.sent && msg[..|msg|] == msg && c.sent + "" == c.sent;
    if Accepts(c, res) && n < |msg| {
      AppendedMeaning(c.out, msg[n..], false);
    }
  }

  /** A writability event: exactly the bytes the write call took move from the front of the buffer to the
      socket; when none is left the watching stops, and a connection that is closing is half-closed. */
  lemma WriteMeaning(c: Conn, res: WriteResult)
    requires Inv(c) && Legal(c, HandleWrite(res))
    ensures var d := WriteHandled(c, res);
            if !c.writing || !res.Wrote? || res.n == 0 then d == c
            else
              && d.out.InBounds() && d.accepted == c.accepted && d.state == c.state
              && d.sent == c.sent + c.out.View()[..res.n] && d.out.View() == c.out.View()[res.n..]
              && (d.writing <==> res.n < |c.out.View()|)
              && d.shutdowns == c.shutdowns + (if !d.writing && c.state == Disconnecting then 1 else 0)
  {
    StepRefinesQueue(c.out, Retrieve(if res.Wrote? then res.n else 0), false);
  }

  // ----- Exactly when the contents survive -----

  /** The bytes handed to the socket and those waiting spell what was accepted. */
  predicate Conserved(c: Conn)
    requires c.out.InBounds()
  {
    c.sent + c.out.View() == c.accepted
  }

  predicate Accepts(c: Conn, res: WriteResult) {
    c.state == Connected && !(Direct(c) && res.Broken?)
  }

  /** The send takes the compaction branch: it queues len bytes and has to make room for them. */
  predicate CompactsOnSend(c: Conn, msg: string, res: WriteResult) {
    && Accepts(c, res) && WrittenNow(c, res) < |msg|
    && Compacts(c.out, |msg| - WrittenNow(c, res))
  }

  /** A send that does not compact, or finds the unread bytes repeated at the front of the buffer. */
  predicate Harmless(c: Conn, e: Event)
    requires c.out.Inv()
  {
    e.Send? && CompactsOnSend(c, e.msg, e.res) ==>
      c.out.data[PREPEND..PREPEND + c.out.Readable()] == c.out.View()
  }

  lemma SamePrefix(p: string, a: string, b: string)
    ensures p + a == p + b <==> a == b
  {
    if p + a == p + b {
      assert (p + a)[|p|..] == a && (p + b)[|p|..] == b;
    }
  }

  lemma QueueExactness(c: Conn, msg: string, n: nat)
    requires c.out.Inv() && n <= |msg|
    ensures var o := Appended(c.out, msg[n..], false);
            && o.Inv()
            && ((c.sent + msg[..n]) + o.View() == (c.sent + msg[..n]) + (c.out.View() + msg[n..]) <==>
                (Compacts(c.out, |msg| - n) ==>
                   c.out.data[PREPEND..PREPEND + c.out.Readable()] == c.out.View()))
  {
    AppendedMeaning(c.out, msg[n..], false);
    AppendExactness(c.out, msg[n..]);
    SamePrefix(c.sent + msg[..n], Appended(c.out, msg[n..], false).View(), c.out.View() + msg[n..]);
  }

  /** A send appends its message to what has been sent or waits, if and only if it is harmless. */
  lemma SendExactness(c: Conn, msg: string, res: WriteResult)
    requires Inv(c) && Legal(c, Send(msg, res))
    ensures var d := Sent(c, msg, res);
            && d.out.InBounds()
            && d.accepted == c.accepted + (if Accepts(c, res) then msg else "")
            && (d.sent + d.out.View() == c.sent + c.out.View() + (if Accepts(c, res) then msg else "") <==>
                Harmless(c, Send(msg, res)))
  {
    SendKeepsInv(c, msg, res);
    var n := WrittenNow(c, res);
    if Accepts(c, res) {
      SplitMessage(c.sent, c.out.View(), msg, n);
      if n < |msg| {
        QueueExactness(c, msg, n);
      } else {
        assert msg[..n] == msg && c.out.View() + msg[n..] == c.out.View();
      }
    }
  }

  lemma StepConservesExactly(c: Conn, e: Event)
    requires Inv(c) && Conserved(c) && Legal(c, e)
    ensures Inv(Step(c, e)) && (Conserved(Step(c, e)) <==> Harmless(c, e))
  {
    StepKeepsInv(c, e);
    match e
    case Send(msg, res) =>
      SendExactness(c, msg, res);
    case HandleWrite(res) =>
      WriteKeepsContents(c, res);
    case _ =>
  }

  predicate HarmlessRun(c: Conn, es: seq<Event>)
    requires Inv(c) && LegalRun(c, es)
    decreases |es|
  {
    es == [] || (StepKeepsInv(c, es[0]); Harmless(c, es[0]) && HarmlessRun(Step(c, es[0]), es[1..]))
  }

  predicate ConservedThroughout(c: Conn, es: seq<Event>)
    requires Inv(c) && LegalRun(c, es)
    decreases |es|
  {
    es == [] ||
    (StepKeepsInv(c, es[0]); Conserved(Step(c, es[0])) && ConservedThroughout(Step(c, es[0]), es[1..]))
  }

  lemma {:induction false} RunConservesExactly(c: Conn, es: seq<Event>)
    requires Inv(c) && Conserved(c) && LegalRun(c, es)
    ensures ConservedThroughout(c, es) <==> HarmlessRun(c, es)
    decreases |es|
  {
    if es == [] {
    } else {
      StepConservesExactly(c, es[0]);
      if Harmless(c, es[0]) {
        RunConservesExactly(Step(c, es[0]), es[1..]);
      }
    }
  }

  /** Contents and order are conserved after every step of a run if and only if no send of the run
      compacts the buffer over bytes that differ. */
  lemma OutputExactness(es: seq<Event>)
    requires LegalRun(NewConnection(), es)
    ensures ConservedThroughout(NewConnection(), es) <==> HarmlessRun(NewConnection(), es)
  {
    RunConservesExactly(NewConnection(), es);
  }

  /** Every send finds a read index of at most 8: nothing partially written is waiting. */
  predicate SendsEarly(c: Conn, es: seq<Event>)
    requires Inv(c) && LegalRun(c, es)
    decreases |es|
  {
    es == [] ||
    (StepKeepsInv(c, es[0]);
     (es[0].Send? ==> c.out.r <= PREPEND) && SendsEarly(Step(c, es[0]), es[1..]))
  }

  /** Such a run never compacts. */
  lemma {:induction false} EarlySendsAreSafe(c: Conn, es: seq<Event>)
    requires Inv(c) && c.intact && LegalRun(c, es) && SendsEarly(c, es)
    ensures Run(c, es).intact && HarmlessRun(c, es)
    decreases |es|
  {
    if es == [] {
    } else {
      StepKeepsInv(c, es[0]);
      EarlySendsAreSafe(Step(c, es[0]), es[1..]);
    }
  }

  /** A run of the server's own 1024-byte buffer that corrupts the stream: a message that fills it,
      a write of all but its last byte, and another send. */
  lemma ConnectionLosesBytes(m: string, more: string, res: WriteResult)
    requires |m| == INITIAL_SIZE && m[PREPEND] != m[|m| - 1] && 1 <= |more| <= |m| - 1 - PREPEND
    ensures var es := [Establish] + ([Send(m, WouldBlock)] + ([HandleWrite(Wrote(|m| - 1))] + ([Send(more, res)] + [])));
            && LegalRun(NewConnection(), es)
            && var c := Run(NewConnection(), es);
               && c.sent == m[..|m| - 1] && c.accepted == m + more
               && c.out.Inv() && c.out.View() == [m[PREPEND]] + more && !Conserved(c)
  {
    CompactionLosesBytes(m, more);
    var c1 := Step(NewConnection(), Establish);
    var c2 := c1.(out := Buf(m, 0, |m|), accepted := m, writing := true);
    var c3 := c2.(out := NearlyDrained(m), sent := m[..|m| - 1]);
    var c4 := c3.(out := Appended(c3.out, more, false), accepted := m + more, intact := false);
    assert Inv(c1);
    assert Step(c1, Send(m, WouldBlock)) == c2 by {
      assert "" + m[..0] == "" && m[0..] == m && "" + m == m;
    }
    StepKeepsInv(c1, Send(m, WouldBlock));
    assert Step(c2, HandleWrite(Wrote(|m| - 1))) == c3 by {
      assert c2.out.View() == m && "" + m[..|m| - 1] == m[..|m| - 1];
    }
    StepKeepsInv(c2, HandleWrite(Wrote(|m| - 1)));
    assert Step(c3, Send(more, res)) == c4 by {
      assert c3.sent + more[..0] == c3.sent && more[0..] == more;
    }
    StepKeepsInv(c3, Send(more, res));
    Prepend(c3, Send(more, res), []);
    Prepend(c2, HandleWrite(Wrote(|m| - 1)), [Send(more, res)] + []);
    Prepend(c1, Send(m, WouldBlock), [HandleWrite(Wrote(|m| - 1))] + ([Send(more, res)] + []));
    Prepend(NewConnection(), Establish,
            [Send(m, WouldBlock)] + ([HandleWrite(Wrote(|m| - 1))] + ([Send(more, res)] + [])));
    assert (c4.sent + c4.out.View())[|m| - 1] == m[PREPEND] && (m + more)[|m| - 1] == m[|m| - 1];
  }

  /** A run with one more step in front. */
  lemma Prepend(c: Conn, e: Event, es: seq<Event>)
    requires Inv(c) && Legal(c, e) && Inv(Step(c, e)) && LegalRun(Step(c, e), es)
    ensures LegalRun(c, [e] + es) && Run(c, [e] + es) == Run(Step(c, e), es)
  {
    assert ([e] + es)[1..] == es;
  }

  /** Once closing, a connection accepts nothing more and never reopens. */
  lemma {:induction false} NothingAcceptedAfterShutDown(c: Conn, es: seq<Event>)
    requires Inv(c) && LegalRun(c, es) && (c.state == Disconnecting || c.state == Disconnected)
    ensures var d := Run(c, es);
            d.accepted == c.accepted && (d.state == Disconnecting || d.state == Disconnected)
    decreases |es|
  {
    if es == [] {
    } else {
      StepKeepsInv(c, es[0]);
      NothingAcceptedAfterShutDown(Step(c, es[0]), es[1..]);
    }
  }

  /** After SHUT_WR nothing is sent and it is not repeated. */
  lemma {:induction false} ShutdownIsFinal(c: Conn, es: seq<Event>)
    requires Inv(c) && LegalRun(c, es) && c.shutdowns == 1
    ensures var d := Run(c, es); d.shutdowns == 1 && d.sent == c.sent && d.accepted == c.accepted
    decreases |es|
  {
    if es == [] {
    } else {
      StepKeepsInv(c, es[0]);
      var d := Step(c, es[0]);
      assert !c.writing;
      ShutdownIsFinal(d, es[1..]);
    }
  }

  /** shutDown on a connected connection starts the half-close: SHUT_WR goes out at once if and only if
      nothing is waiting. On any other connection it does nothing. */
  lemma ShutDownStarts(c: Conn)
    requires Inv(c)
    ensures var d := ShutDownCalled(c);
            if c.state != Connected then d == c
            else
              && d.state == Disconnecting && d.requested
              && d.shutdowns == (if c.out.View() == "" then 1 else 0)
              && d.out == c.out && d.writing == c.writing && d.sent == c.sent && d.accepted == c.accepted
  {
  }

  /** forceClose on an open connection makes it closing and queues one more close; on any other it does
      nothing. */
  lemma ForceCloseStarts(c: Conn)
    ensures var d := ForceCloseCalled(c);
            if c.state == Connected || c.state == Disconnecting then
              && d.state == Disconnecting && d.closeTasks == c.closeTasks + 1
              && d.out == c.out && d.writing == c.writing && d.sent == c.sent && d.accepted == c.accepted
              && d.shutdowns == c.shutdowns && d.requested == c.requested
            else d == c
  {
  }

  /** A queued close is used up by running it. */
  lemma ForceCloseEnds(c: Conn)
    requires Inv(c) && c.closeTasks > 0
    ensures var d := ForceClosed(c);
            d.state == Disconnected && !d.writing && d.closeTasks == c.closeTasks - 1
            && d.out == c.out && d.sent == c.sent && d.accepted == c.accepted && d.shutdowns == c.shutdowns
  {
  }

  predicate Ending(c: Conn) {
    c.state == Disconnecting || c.state == Disconnected
  }

  /** A request to half-close, and a queued close, stay in force until the connection is disconnected. */
  lemma {:induction false} RequestsStay(c: Conn, es: seq<Event>)
    requires Inv(c) && LegalRun(c, es) && Ending(c)
    ensures var d := Run(c, es);
            && Inv(d) && Ending(d) && (c.requested ==> d.requested)
            && (c.closeTasks > 0 || c.state == Disconnected ==> d.closeTasks > 0 || d.state == Disconnected)
    decreases |es|
  {
    if es == [] {
    } else {
      StepKeepsInv(c, es[0]);
      RequestsStay(Step(c, es[0]), es[1..]);
    }
  }

  /** In every run in which shutDown is called on a connected connection: nothing is accepted after the
      call, and once no byte waits and the connection has not been disconnected otherwise, SHUT_WR has
      been issued, exactly once, with everything accepted handed to the socket. */
  lemma ShutDownCompletes(es: seq<Event>, more: seq<Event>)
    requires LegalRun(NewConnection(), es) && Run(NewConnection(), es).state == Connected
    requires (RunKeepsInv(NewConnection(), es); StepKeepsInv(Run(NewConnection(), es), ShutDown);
              LegalRun(Step(Run(NewConnection(), es), ShutDown), more))
    ensures var c := Run(NewConnection(), es);
            && Inv(c) && Inv(Step(c, ShutDown))
            && var f := Run(Step(c, ShutDown), more);
               && f.out.InBounds() && f.accepted == c.accepted && Ending(f)
               && (f.out.View() == "" && f.state != Disconnected ==> f.shutdowns == 1 && |f.sent| == |f.accepted|)
  {
    RunKeepsInv(NewConnection(), es);
    StepKeepsInv(Run(NewConnection(), es), ShutDown);
    var d := Step(Run(NewConnection(), es), ShutDown);
    RequestsStay(d, more);
    NothingAcceptedAfterShutDown(d, more);
  }

  /** In every run in which forceClose is called on an open connection: nothing is accepted after the
      call, and the connection is disconnected as soon as no forced close is queued any more. */
  lemma ForceCloseCompletes(es: seq<Event>, more: seq<Event>)
    requires LegalRun(NewConnection(), es) && Open(Run(NewConnection(), es))
    requires (RunKeepsInv(NewConnection(), es); StepKeepsInv(Run(NewConnection(), es), ForceClose);
              LegalRun(Step(Run(NewConnection(), es), ForceClose), more))
    ensures var c := Run(NewConnection(), es);
            && Inv(c) && Inv(Step(c, ForceClose))
            && var f := Run(Step(c, ForceClose), more);
               f.accepted == c.accepted && (f.closeTasks == 0 ==> f.state == Disconnected)
  {
    RunKeepsInv(NewConnection(), es);
    StepKeepsInv(Run(NewConnection(), es), ForceClose);
    var d := Step(Run(NewConnection(), es), ForceClose);
    RequestsStay(d, more);
    NothingAcceptedAfterShutDown(d, more);
  }

  /** For every mix of calls: SHUT_WR is issued at most once; when it has been, the output buffer is
      empty, every accepted byte has been handed to the socket, and all of this stays so; and a
      requested shutdown is outstanding only while bytes wait. */
  lemma GracefulShutdown(es: seq<Event>, more: seq<Event>)
    requires LegalRun(NewConnection(), es)
    requires (RunKeepsInv(NewConnection(), es); LegalRun(Run(NewConnection(), es), more))
    ensures var c := Run(NewConnection(), es);
            && Inv(c) && c.shutdowns <= 1
            && (c.shutdowns == 1 ==>
                  && c.out.View() == "" && |c.sent| == |c.accepted| && (c.intact ==> c.sent == c.accepted)
                  && Run(c, more).shutdowns == 1 && Run(c, more).accepted == c.accepted)
            && (c.requested && c.state == Disconnecting ==> (c.shutdowns == 1 <==> c.out.View() == ""))
  {
    var c := Run(NewConnection(), es);
    RunKeepsInv(NewConnection(), es);
    if c.shutdowns == 1 {
      ShutdownIsFinal(c, more);
      assert c.sent + "" == c.sent;
    }
  }

  /** In every run, a connection that is closing without a half-close request has a forced close
      queued, and running a queued forced close always leaves it disconnected. */
  lemma ForcedCloseCompletes(es: seq<Event>)
    requires LegalRun(NewConnection(), es)
    ensures var c := Run(NewConnection(), es);
            && (c.state == Disconnecting && !c.requested ==> c.closeTasks > 0)
            && (c.closeTasks > 0 ==> ForceClosed(c).state == Disconnected && !ForceClosed(c).writing)
  {
    RunKeepsInv(NewConnection(), es);
  }

  /** End of file and every failed read close the connection. Handing errno back would make a
      difference exactly where the socket was merely empty. */
  lemma FailedReadCloses(c: Conn, r: ReadResult)
    requires Open(c)
    ensures ReadHandled(c, r, false).state == Disconnected <==> !r.Bytes?
    ensures ReadHandled(c, r, false) == ReadHandled(c, r, true) <==> r != Failed(EAGAIN)
  {
    assert Closed(c).state != c.state;
  }

  /** The members these calls update, the output buffer among them. */
  class TcpConnection {
    var state: ConnState
    const output: Buffer
    var writing: bool
    var sent: string
    var accepted: string
    var shutdowns: nat
    var requested: bool
    var intact: bool
    var closeTasks: nat

    ghost function V(): (c: Conn)
      reads this, output
    {
      Conn(state, output.V(), writing, sent, accepted, shutdowns, requested, intact, closeTasks)
    }

    constructor ()
      ensures fresh(output) && V() == NewConnection() && Inv(V())
    {
      state := Connecting;
      output := new Buffer();
      writing, sent, accepted, shutdowns := false, "", "", 0;
      requested, intact, closeTasks := false, true, 0;
    }

    method ConnectionEstablished()
      requires Inv(V()) && state == Connecting
      modifies this
      ensures Inv(V()) && V() == Step(old(V()), Establish)
    {
      state := Connected;
    }

    method Send(msg: string, res: WriteResult)
      requires Inv(V()) && WrittenNow(V(), res) <= |msg|
      modifies this, output
      ensures Inv(V()) && V() == Sent(old(V()), msg, res)
    {
      SendKeepsInv(V(), msg, res);
      if state == Connected {
        SendInLoop(msg, res);
      }
    }

    method SendInLoop(msg: string, res: WriteResult)
      requires output.Valid() && WrittenNow(V(), res) <= |msg|
      modifies this, output
      ensures V() == SentInLoop(old(V()), msg, res)
    {
      if state == Disconnected {
        return;
      }
      var wrote, fault := TryWrite(msg, res);
      if !fault {
        sent, accepted := sent + msg[..wrote], accepted + msg;
        if wrote == |msg| {
          assert msg[..wrote] == msg;
        } else {
          QueueRest(msg[wrote..]);
        }
      }
    }

    /** The direct write, attempted only when nothing is waiting. */
    method TryWrite(msg: string, res: WriteResult) returns (wrote: nat, fault: bool)
      requires WrittenNow(V(), res) <= |msg|
      ensures wrote == WrittenNow(V(), res) && (fault <==> Direct(V()) && res.Broken?)
    {
      wrote, fault := 0, false;
      if !writing && output.writeIndex - output.readIndex == 0 {
        if res.Wrote? {
          wrote := res.n;
        } else if res.Broken? {
          fault := true;
        }
      }
    }

    method QueueRest(rest: string)
      requires output.Valid()
      modifies this`intact, this`writing, output
      ensures output.Valid() && output.V() == Appended(old(output.V()), rest, false)
      ensures writing && intact == (old(intact) && !Compacts(old(output.V()), |rest|))
    {
      intact := intact && !Compacts(Buf(output.data, output.readIndex, output.writeIndex), |rest|);
      output.Append(rest);
      if !writing {
        writing := true;
      }
    }

    method HandleWrite(res: WriteResult)
      requires Inv(V()) && (res.Wrote? ==> res.n <= output.V().Readable())
      modifies this, output
      ensures Inv(V()) && V() == WriteHandled(old(V()), res)
    {
      WriteKeepsInv(V(), res);
      if writing && res.Wrote? && res.n > 0 {
        sent := sent + output.data[output.readIndex..output.writeIndex][..res.n];
        output.Retrieve(res.n);
        if output.writeIndex - output.readIndex == 0 {
          writing := false;
          if state == Disconnecting {
            ShutDownInLoop();
          }
        }
      }
    }

    method ShutDownInLoop()
      modifies this`shutdowns
      ensures V() == ShutInLoop(old(V()))
    {
      if !writing {
        shutdowns := shutdowns + 1;
      }
    }

    method ShutDown()
      requires Inv(V())
      modifies this
      ensures Inv(V()) && V() == ShutDownCalled(old(V()))
    {
      if state == Connected {
        state, requested := Disconnecting, true;
        ShutDownInLoop();
      }
    }

    method ForceClose()
      requires Inv(V())
      modifies this
      ensures Inv(V()) && V() == ForceCloseCalled(old(V()))
    {
      if state == Connected || state == Disconnecting {
        state, closeTasks := Disconnecting, closeTasks + 1;
      }
    }

    method HandleClose()
      requires Open(V())
      modifies this
      ensures V() == Closed(old(V()))
    {
      state, writing := Disconnected, false;
    }

    method ForceCloseInLoop()
      requires Inv(V()) && closeTasks > 0
      modifies this
      ensures Inv(V()) && V() == ForceClosed(old(V()))
    {
      closeTasks := closeTasks - 1;
      if state == Connected || state == Disconnecting {
        HandleClose();
      }
    }

    /** The input side is read into another buffer; only the result matters here. */
    method HandleRead(r: ReadResult)
      requires Inv(V()) && Open(V())
      modifies this
      ensures Inv(V()) && V() == ReadHandled(old(V()), r, false)
    {
      var savedErrno := 0;
      var n := ReadFd(r, savedErrno);
      if n == 0 {
        HandleClose();
      } else if n < 0 && savedErrno != EAGAIN {
        HandleClose();
      }
    }

    /** Buffer::readFd as handleRead sees it: errno goes into the callee's copy. */
    method ReadFd(r: ReadResult, savedErr: int) returns (n: int)
      ensures (n > 0 <==> r.Bytes?) && (n == 0 <==> r.Eof?)
    {
      var copy := savedErr;
      match r {
        case Bytes => n := 1;
        case Eof => n := 0;
        case Failed(errno) =>
          copy := errno;
          n := -1;
      }
    }
  }
}
