/** Logging/asynclogging.h and Logging/asynclogging.cpp: front-end threads append to a current
    buffer under a mutex; one back-end thread swaps the filled buffers out, writes them to the log
    file and hands empty buffers back. */
module AsyncLoggings {
  import opened Wrappers
  import opened LogStreams

  /** Where the back-end thread stands. */
  datatype Phase = NotStarted | Top | Locked | Writing | Exited

  /** A heap-allocated FixedBuffer: its identity and the text in it. */
  datatype Buffer = Buffer(id: nat, text: string)

  /** The logger as a value; a unique_ptr is an Option, None being null. */
  datatype State = State(
    size: nat,
    nextId: nat,
    running: bool,
    phase: Phase,
    current: Option<Buffer>,
    next: Option<Buffer>,
    full: seq<Buffer>,
    spare1: Option<Buffer>,
    spare2: Option<Buffer>,
    toWrite: seq<Buffer>,
    written: nat,
    log: string)

  /** One atomic step: a front-end call, or a stretch of threadFunc between scheduling points. */
  datatype Event = Start | Stop | Append(msg: string) | Test | Swap | Write | Recycle

  /** Crash stands for what C++ leaves undefined: a null buffer used, back() of an empty vector. */
  datatype Outcome = Ok(state: State) | Crash

  function Initial(size: nat): (s: State) {
    State(size, 2, false, NotStarted, Some(Buffer(0, "")), Some(Buffer(1, "")), [], None, None, [], 0, "")
  }

  /** FixedBuffer::append */
  function Put(size: nat, b: Buffer, msg: string): (c: Buffer)
    ensures c.id == b.id
  {
    b.(text := Fitted(size, b.text, msg))
  }

  function AppendStep(s: State, msg: string): (o: Outcome) {
    if s.current.None? then Crash
    else if |msg| < s.size - |s.current.value.text| then
      Ok(s.(current := Some(Put(s.size, s.current.value, msg))))
    else
      var t := s.(full := s.full + [s.current.value]);
      if s.next.Some? then Ok(t.(current := Some(Put(s.size, s.next.value, msg)), next := None))
      else Ok(t.(current := Some(Put(s.size, Buffer(s.nextId, ""), msg)), nextId := s.nextId + 1))
  }

  function StartStep(s: State): (o: Outcome) {
    Ok(s.(running := true, phase := Top, nextId := s.nextId + 2,
          spare1 := Some(Buffer(s.nextId, "")), spare2 := Some(Buffer(s.nextId + 1, ""))))
  }

  function SwapStep(s: State): (o: Outcome) {
    if s.current.None? then Crash
    else
      var t := s.(phase := Writing, current := s.spare1, spare1 := None, written := 0,
                  toWrite := s.full + [s.current.value], full := s.toWrite);
      if s.next.None? then Ok(t.(next := s.spare2, spare2 := None)) else Ok(t)
  }

  /** back(), pop_back() and reset() into the first spare, if it is null; then the second. */
  function RefillFirst(s: State): (o: Outcome) {
    if s.spare1.Some? then Ok(s)
    else if s.toWrite == [] then Crash
    else
      var n := |s.toWrite| - 1;
      Ok(s.(spare1 := Some(s.toWrite[n].(text := "")), toWrite := s.toWrite[..n]))
  }

  function RefillSecond(s: State): (o: Outcome) {
    if s.spare2.Some? then Ok(s)
    else if s.toWrite == [] then Crash
    else
      var n := |s.toWrite| - 1;
      Ok(s.(spare2 := Some(s.toWrite[n].(text := "")), toWrite := s.toWrite[..n]))
  }

  function RecycleStep(s: State): (o: Outcome) {
    var o1 := RefillFirst(if |s.toWrite| > 2 then s.(toWrite := s.toWrite[..2]) else s);
    if o1.Crash? then Crash
    else
      var o2 := RefillSecond(o1.state);
      if o2.Crash? then Crash else Ok(o2.state.(toWrite := [], phase := Top, written := 0))
  }

  predicate Enabled(s: State, e: Event) {
    match e
    case Start => s.phase == NotStarted || s.phase == Exited
    case Test => s.phase == Top
    case Swap => s.phase == Locked
    case Write => s.phase == Writing && s.written < |s.toWrite|
    case Recycle => s.phase == Writing && s.written == |s.toWrite|
    case _ => true
  }

  function Step(s: State, e: Event): (o: Outcome)
    requires Enabled(s, e)
  {
    match e
    case Start => StartStep(s)
    case Stop => Ok(s.(running := false))
    case Append(msg) => AppendStep(s, msg)
    case Test => Ok(s.(phase := if s.running then Locked else Exited))
    case Swap => SwapStep(s)
    case Write => Ok(s.(log := s.log + s.toWrite[s.written].text, written := s.written + 1))
    case Recycle => RecycleStep(s)
  }

  /** Any interleaving, as long as each step is one its thread can take. */
  predicate LegalRun(o: Outcome, es: seq<Event>)
    decreases |es|
  {
    es == [] || o.Crash? || (Enabled(o.state, es[0]) && LegalRun(Step(o.state, es[0]), es[1..]))
  }

  function Run(o: Outcome, es: seq<Event>): (r: Outcome)
    requires LegalRun(o, es)
    decreases |es|
  {
    if es == [] || o.Crash? then o else Run(Step(o.state, es[0]), es[1..])
  }

  // ----- Buffer pool -----

  /** What holds whenever the mutex is free. */
  predicate Inv(s: State) {
    && s.current.Some?
    && (s.next.None? ==> s.full != [])
    && (s.next.Some? ==> s.next.value.text == "")
    && s.written <= |s.toWrite|
    && match s.phase
       case NotStarted => s.toWrite == [] && s.spare1.None? && s.spare2.None?
       case Top => PoolFull(s)
       case Locked => PoolFull(s)
       case Exited => PoolFull(s)
       case Writing =>
         && s.spare1.None? && s.toWrite != []
         && (if s.spare2.None? then |s.toWrite| >= 2 else s.spare2.value.text == "")
  }

  /** Both spares present and empty, nothing left to write. */
  predicate PoolFull(s: State) {
    s.spare1.Some? && s.spare1.value.text == "" && s.spare2.Some? && s.spare2.value.text == "" && s.toWrite == []
  }

  lemma RecycleKeepsInv(s: State)
    requires Inv(s) && Enabled(s, Recycle)
    ensures RecycleStep(s).Ok? && Inv(RecycleStep(s).state) && RecycleStep(s).state.size == s.size
    ensures var t := RecycleStep(s).state;
            t.log == s.log && t.full == s.full && t.current == s.current && t.toWrite == []
  {
  }

  lemma StepKeepsInv(s: State, e: Event)
    requires Inv(s) && Enabled(s, e)
    ensures Step(s, e).Ok? && Inv(Step(s, e).state) && Step(s, e).state.size == s.size
  {
    if e.Recycle? {
      RecycleKeepsInv(s);
    }
  }

  /** An append goes to the current buffer if that leaves a byte to spare; otherwise the current buffer
      is full and the message starts the next one, the spare if there is one and else a new one. */
  lemma AppendMeaning(s: State, msg: string)
    requires Inv(s)
    ensures var o, cur := AppendStep(s, msg), s.current.value;
            && o.Ok? && o.state.current.Some?
            && var t, now := o.state, o.state.current.value;
               if |cur.text| + |msg| < s.size then
                 t.full == s.full && t.next == s.next && now == Buffer(cur.id, cur.text + msg)
               else
                 && t.full == s.full + [cur] && t.next.None?
                 && now.id == (if s.next.Some? then s.next.value.id else s.nextId)
                 && now.text == if |msg| < s.size then msg else ""
  {
    assert "" + msg == msg;
  }

  /** The order of threadFunc: test, critical section, writes, recycling, test again. */
  function NextPhase(s: State, e: Event): (p: Phase) {
    match e
    case Start => Top
    case Test => if s.running then Locked else Exited
    case Swap => Writing
    case Recycle => Top
    case _ => s.phase
  }

  lemma StepPhase(s: State, e: Event)
    requires Inv(s) && Enabled(s, e)
    ensures Step(s, e).Ok? && Step(s, e).state.phase == NextPhase(s, e)
    ensures Step(s, e).state.running <==> e.Start? || (s.running && !e.Stop?)
  {
    StepKeepsInv(s, e);
  }

  // ----- Ownership -----

  function PtrCount(p: Option<Buffer>, id: nat): (n: nat) {
    if p.Some? && p.value.id == id then 1 else 0
  }

  function VectorCount(bs: seq<Buffer>, id: nat): (n: nat) {
    if bs == [] then 0 else VectorCount(bs[..|bs| - 1], id) + PtrCount(Some(bs[|bs| - 1]), id)
  }

  /** How many pointers own the buffer with this identity. */
  function Owners(s: State, id: nat): (n: nat) {
    PtrCount(s.current, id) + PtrCount(s.next, id) + PtrCount(s.spare1, id) + PtrCount(s.spare2, id)
    + VectorCount(s.full, id) + VectorCount(s.toWrite, id)
  }

  /** No buffer has two owners, and a buffer yet to be allocated has none. */
  ghost predicate Unshared(s: State) {
    forall id: nat :: Owners(s, id) <= if id < s.nextId then 1 else 0
  }

  lemma VectorCountSnoc(bs: seq<Buffer>, b: Buffer, id: nat)
    ensures VectorCount(bs + [b], id) == VectorCount(bs, id) + PtrCount(Some(b), id)
  {
    assert (bs + [b])[..|bs|] == bs;
  }

  lemma {:induction false} VectorCountPrefix(bs: seq<Buffer>, n: nat, id: nat)
    requires n <= |bs|
    ensures VectorCount(bs[..n], id) <= VectorCount(bs, id)
  {
    if n < |bs| {
      VectorCountPrefix(bs[..|bs| - 1], n, id);
      assert bs[..|bs| - 1][..n] == bs[..n];
    } else {
      assert bs[..n] == bs;
    }
  }

  lemma RecycleOwners(s: State, id: nat)
    requires RecycleStep(s).Ok?
    ensures Owners(RecycleStep(s).state, id) <= Owners(s, id)
  {
    var s0 := if |s.toWrite| > 2 then s.(toWrite := s.toWrite[..2]) else s;
    if |s.toWrite| > 2 {
      VectorCountPrefix(s.toWrite, 2, id);
    }
    assert Owners(s0, id) <= Owners(s, id);
    assert RefillFirst(s0).Ok? && Owners(RefillFirst(s0).state, id) == Owners(s0, id);
    var s1 := RefillFirst(s0).state;
    assert RefillSecond(s1).Ok? && Owners(RefillSecond(s1).state, id) == Owners(s1, id);
  }

  lemma AppendOwners(s: State, msg: string, id: nat)
    requires AppendStep(s, msg).Ok?
    ensures var t := AppendStep(s, msg).state;
            Owners(t, id) == Owners(s, id) + if s.nextId == id < t.nextId then 1 else 0
  {
    var t := AppendStep(s, msg).state;
    if t.full != s.full {
      VectorCountSnoc(s.full, s.current.value, id);
      assert PtrCount(t.next, id) == 0;
      assert s.next.Some? ==> PtrCount(t.current, id) == PtrCount(s.next, id);
    } else {
      assert PtrCount(t.current, id) == PtrCount(s.current, id);
    }
  }

  lemma SwapOwners(s: State, id: nat)
    requires SwapStep(s).Ok? && s.toWrite == []
    ensures Owners(SwapStep(s).state, id) == Owners(s, id)
  {
    VectorCountSnoc(s.full, s.current.value, id);
  }

  lemma StepOwners(s: State, e: Event, id: nat)
    requires Inv(s) && Enabled(s, e) && Step(s, e).Ok?
    ensures var t := Step(s, e).state;
            && s.nextId <= t.nextId
            && Owners(t, id) <= Owners(s, id) + if s.nextId <= id < t.nextId then 1 else 0
  {
    match e
    case Append(msg) => AppendOwners(s, msg, id);
    case Swap => SwapOwners(s, id);
    case Recycle => RecycleOwners(s, id);
    case _ =>
  }

  /** No step ever gives a buffer a second owner. */
  lemma StepKeepsUnshared(s: State, e: Event)
    requires Inv(s) && Unshared(s) && Enabled(s, e)
    ensures Step(s, e).Ok? && Unshared(Step(s, e).state)
  {
    StepKeepsInv(s, e);
    forall id: nat
      ensures Owners(Step(s, e).state, id) <= if id < Step(s, e).state.nextId then 1 else 0
    {
      StepOwners(s, e, id);
      assert Owners(s, id) <= if id < s.nextId then 1 else 0;
    }
  }

  // ----- Conservation -----

  function Concat(bs: seq<Buffer>): (s: string) {
    if bs == [] then "" else Concat(bs[..|bs| - 1]) + bs[|bs| - 1].text
  }

  lemma {:induction false} ConcatConcat(a: seq<Buffer>, b: seq<Buffer>)
    ensures Concat(a + b) == Concat(a) + Concat(b)
    decreases |b|
  {
    if b == [] {
      assert a + b == a;
    } else {
      ConcatConcat(a, b[..|b| - 1]);
      assert (a + b)[..|a + b| - 1] == a + b[..|b| - 1];
    }
  }

  /** Already in the log file, or in the back end on its way there. */
  function Delivered(s: State): (d: string)
    requires Inv(s)
  {
    s.log + Concat(s.toWrite[s.written..])
  }

  /** Still with the front end. */
  function Pending(s: State): (p: string)
    requires Inv(s)
  {
    Concat(s.full) + s.current.value.text
  }

  function Everything(s: State): (t: string)
    requires Inv(s)
  {
    Delivered(s) + Pending(s)
  }

  /** What a step promises to log: messages smaller than one buffer. */
  function AcceptedBy(size: nat, e: Event): (m: string) {
    if e.Append? && |e.msg| < size then e.msg else ""
  }

  function Accepted(size: nat, es: seq<Event>): (m: string)
    decreases |es|
  {
    if es == [] then "" else AcceptedBy(size, es[0]) + Accepted(size, es[1..])
  }

  lemma AppendKeepsOrder(s: State, msg: string)
    requires Inv(s)
    ensures var t := AppendStep(s, msg).state;
            Inv(t) && Delivered(t) == Delivered(s) && Pending(t) == Pending(s) + AcceptedBy(s.size, Append(msg))
  {
    StepKeepsInv(s, Append(msg));
    var t := AppendStep(s, msg).state;
    var c := s.current.value.text;
    if |msg| < s.size - |c| {
      assert Concat(s.full) + (c + msg) == Concat(s.full) + c + msg;
    } else {
      assert t.full[..|t.full| - 1] == s.full;
      assert Concat(t.full) == Concat(s.full) + c;
      assert "" + msg == msg;
    }
  }

  lemma SwapDelivers(s: State)
    requires Inv(s) && s.phase == Locked
    ensures var t := SwapStep(s).state;
            Inv(t) && Delivered(t) == Everything(s) && Pending(t) == ""
  {
    StepKeepsInv(s, Swap);
    var t := SwapStep(s).state;
    var c := s.current.value.text;
    assert t.toWrite[..|t.toWrite| - 1] == s.full;
    assert t.toWrite[0..] == t.toWrite;
    assert s.log + (Concat(s.full) + c) == (s.log + "") + (Concat(s.full) + c);
  }

  lemma WriteDelivers(s: State)
    requires Inv(s) && Enabled(s, Write)
    ensures var t := Step(s, Write).state;
            Inv(t) && Delivered(t) == Delivered(s) && Pending(t) == Pending(s)
  {
    StepKeepsInv(s, Write);
    var b, rest := s.toWrite[s.written], s.toWrite[s.written + 1..];
    assert s.toWrite[s.written..] == [b] + rest;
    ConcatConcat([b], rest);
    assert Concat([b]) == "" + b.text && "" + b.text == b.text;
  }

  lemma RecycleDelivers(s: State)
    requires Inv(s) && Enabled(s, Recycle)
    ensures var o := RecycleStep(s);
            o.Ok? && Inv(o.state) && Delivered(o.state) == Delivered(s) && Pending(o.state) == Pending(s)
  {
    RecycleKeepsInv(s);
    assert s.toWrite[s.written..] == [];
  }

  lemma Associative(a: string, b: string, c: string)
    ensures (a + b) + c == a + (b + c)
  {
  }

  /** One step: nothing lost, duplicated or reordered. */
  lemma StepConserves(s: State, e: Event)
    requires Inv(s) && Enabled(s, e)
    ensures var t := Step(s, e).state;
            && Inv(t)
            && Everything(t) == Everything(s) + AcceptedBy(s.size, e)
            && (!e.Swap? ==> Delivered(t) == Delivered(s))
  {
    StepKeepsInv(s, e);
    match e
    case Append(msg) =>
      AppendKeepsOrder(s, msg);
      Associative(Delivered(s), Pending(s), AcceptedBy(s.size, e));
    case Swap =>
      SwapDelivers(s);
    case Write =>
      WriteDelivers(s);
    case Recycle =>
      RecycleDelivers(s);
    case _ =>
  }

  /** In every interleaving: no crash, the pool invariant, and log file, back-end buffers, full
      buffers and current buffer together spell exactly the accepted messages, in order. */
  lemma {:induction false} RunConserves(s: State, es: seq<Event>)
    requires Inv(s) && LegalRun(Ok(s), es)
    ensures var r := Run(Ok(s), es);
            r.Ok? && r.state.size == s.size && Inv(r.state) && Everything(r.state) == Everything(s) + Accepted(s.size, es)
    decreases |es|
  {
    if es == [] {
      assert Everything(s) + "" == Everything(s);
    } else {
      StepKeepsInv(s, es[0]);
      StepConserves(s, es[0]);
      var t := Step(s, es[0]).state;
      RunConserves(t, es[1..]);
      Associative(Everything(s), AcceptedBy(s.size, es[0]), Accepted(s.size, es[1..]));
    }
  }

  lemma {:induction false} RunKeepsUnshared(s: State, es: seq<Event>)
    requires Inv(s) && Unshared(s) && LegalRun(Ok(s), es)
    ensures Run(Ok(s), es).Ok? && Unshared(Run(Ok(s), es).state)
    decreases |es|
  {
    if es == [] {
    } else {
      StepKeepsInv(s, es[0]);
      StepKeepsUnshared(s, es[0]);
      RunKeepsUnshared(Step(s, es[0]).state, es[1..]);
    }
  }

  lemma LoggerConserves(size: nat, es: seq<Event>)
    requires LegalRun(Ok(Initial(size)), es)
    ensures var r := Run(Ok(Initial(size)), es);
            r.Ok? && Inv(r.state) && Unshared(r.state) && Everything(r.state) == Accepted(size, es)
    ensures Run(Ok(Initial(size)), es).state.log <= Accepted(size, es)
  {
    RunConserves(Initial(size), es);
    RunKeepsUnshared(Initial(size), es);
    assert Everything(Initial(size)) == "";
    assert "" + Accepted(size, es) == Accepted(size, es);
  }

  // ----- What reaches the file, and what stop leaves behind -----

  predicate NoSwap(es: seq<Event>) {
    forall i :: 0 <= i < |es| ==> !es[i].Swap?
  }

  lemma {:induction false} DeliveredIsStable(s: State, es: seq<Event>)
    requires Inv(s) && LegalRun(Ok(s), es) && NoSwap(es)
    ensures var r := Run(Ok(s), es); r.Ok? && Inv(r.state) && Delivered(r.state) == Delivered(s)
    decreases |es|
  {
    if es == [] {
    } else {
      StepKeepsInv(s, es[0]);
      StepConserves(s, es[0]);
      DeliveredIsStable(Step(s, es[0]).state, es[1..]);
    }
  }

  /** Once the buffers taken by a swap are written, and until the next swap, the log file holds
      exactly what had been accepted before the swap, whatever is appended meanwhile. */
  lemma SwapReachesFile(s: State, es: seq<Event>)
    requires Inv(s) && s.phase == Locked && NoSwap(es)
    requires LegalRun(Step(s, Swap), es)
    ensures var r := Run(Step(s, Swap), es);
            r.Ok? && (r.state.written == |r.state.toWrite| ==> r.state.log == Everything(s))
  {
    SwapDelivers(s);
    DeliveredIsStable(SwapStep(s).state, es);
    var t := Run(Step(s, Swap), es).state;
    if t.written == |t.toWrite| {
      assert t.toWrite[t.written..] == [];
      assert t.log + "" == t.log;
    }
  }

  /** The number of events up to and including the last swap; 0 if there is none. */
  function LastSwap(es: seq<Event>): (n: nat)
    ensures n <= |es| && NoSwap(es[n..])
    ensures n > 0 ==> es[n - 1].Swap?
  {
    if es == [] || es[|es| - 1].Swap? then |es| else LastSwap(es[..|es| - 1])
  }

  lemma {:induction false} RunSplit(o: Outcome, es: seq<Event>, n: nat)
    requires n <= |es| && LegalRun(o, es)
    ensures LegalRun(o, es[..n]) && LegalRun(Run(o, es[..n]), es[n..])
    ensures Run(o, es) == Run(Run(o, es[..n]), es[n..])
    decreases |es|
  {
    if n == 0 || o.Crash? {
      assert n == 0 ==> es[..n] == [] && es[n..] == es;
    } else {
      RunSplit(Step(o.state, es[0]), es[1..], n - 1);
      assert es[..n][1..] == es[1..][..n - 1] && es[n..] == es[1..][n - 1..];
    }
  }

  /** After a swap, and before anything has been appended, the front end holds nothing. */
  lemma SwapEmptiesFrontEnd(size: nat, es: seq<Event>)
    requires es != [] && es[|es| - 1].Swap? && LegalRun(Ok(Initial(size)), es)
    ensures var r := Run(Ok(Initial(size)), es); r.Ok? && Inv(r.state) && Pending(r.state) == ""
  {
    var n := |es| - 1;
    RunSplit(Ok(Initial(size)), es, n);
    RunConserves(Initial(size), es[..n]);
    var s := Run(Ok(Initial(size)), es[..n]).state;
    assert es[n..] == [Swap] && [Swap][1..] == [];
    SwapDelivers(s);
  }

  /** stop() makes no final swap: whenever the thread has exited, before its first swap too, the file
      holds exactly the messages accepted before the last swap, the front end exactly those accepted
      since, and the log is complete if and only if there are none. */
  lemma StopLosesTail(size: nat, es: seq<Event>)
    requires LegalRun(Ok(Initial(size)), es)
    requires Run(Ok(Initial(size)), es).Ok? && Run(Ok(Initial(size)), es).state.phase == Exited
    ensures var t, n := Run(Ok(Initial(size)), es).state, LastSwap(es);
            && t.log == Accepted(size, es[..n])
            && Inv(t) && Pending(t) == Accepted(size, es[n..])
            && (t.log == Everything(t) <==> Accepted(size, es[n..]) == "")
  {
    var n := LastSwap(es);
    RunSplit(Ok(Initial(size)), es, n);
    RunConserves(Initial(size), es[..n]);
    var u := Run(Ok(Initial(size)), es[..n]).state;
    assert Everything(Initial(size)) == "" && Everything(u) == Accepted(size, es[..n]);
    if n == 0 {
      assert u == Initial(size);
    } else {
      SwapEmptiesFrontEnd(size, es[..n]);
    }
    assert Delivered(u) + "" == Delivered(u);
    TailStays(u, es[n..]);
  }

  /** From a state with an empty front end, a run without a swap that ends with the thread gone. */
  lemma TailStays(u: State, es: seq<Event>)
    requires Inv(u) && Pending(u) == "" && NoSwap(es) && LegalRun(Ok(u), es)
    requires Run(Ok(u), es).Ok? && Run(Ok(u), es).state.phase == Exited
    ensures var t := Run(Ok(u), es).state;
            && t.log == Delivered(u)
            && Inv(t) && Pending(t) == Accepted(u.size, es)
            && (t.log == Everything(t) <==> Accepted(u.size, es) == "")
  {
    RunConserves(u, es);
    DeliveredIsStable(u, es);
    var t := Run(Ok(u), es).state;
    assert t.toWrite[t.written..] == [] && t.log + "" == t.log;
    assert Everything(u) == Delivered(u);
    assert Everything(t)[|t.log|..] == Pending(t);
    assert (t.log + Accepted(u.size, es))[|t.log|..] == Accepted(u.size, es);
  }

  /** The smallest loss: a message appended after the start, a stop, and the thread exits. */
  lemma MessageLostAtStop(size: nat, msg: string)
    requires 0 < |msg| < size
    ensures var es := [Start, Append(msg), Stop, Test];
            && LegalRun(Ok(Initial(size)), es)
            && var r := Run(Ok(Initial(size)), es);
               r.Ok? && r.state.phase == Exited && r.state.log == "" && Accepted(size, es) == msg
  {
    var es := [Start, Append(msg), Stop, Test];
    var o1 := Step(Initial(size), Start);
    var o2 := Step(o1.state, Append(msg));
    var o3 := Step(o2.state, Stop);
    var o4 := Step(o3.state, Test);
    assert es[1..] == [Append(msg), Stop, Test] && es[1..][1..] == [Stop, Test] && es[1..][1..][1..] == [Test];
    assert [Test][1..] == [];
    assert LegalRun(o3, [Test]) && Run(o3, [Test]) == o4;
    assert LegalRun(o2, [Stop, Test]) && Run(o2, [Stop, Test]) == o4;
    assert LegalRun(o1, es[1..]) && Run(o1, es[1..]) == o4;
    assert Accepted(size, [Stop, Test]) == "" && Accepted(size, es[1..]) == msg + "";
  }

  /** Starting the logger again recovers the tail: its first swap takes everything that was left. */
  lemma RestartDeliversTail(s: State)
    requires Inv(s) && s.phase == Exited
    ensures var t := Step(s, Start).state;
            && Enabled(t, Test) && Enabled(Step(t, Test).state, Swap)
            && var u := Step(Step(t, Test).state, Swap);
               u.Ok? && Inv(u.state) && Delivered(u.state) == Everything(s) && Pending(u.state) == ""
  {
    StepConserves(s, Start);
    var t := Step(s, Start).state;
    StepConserves(t, Test);
    SwapDelivers(Step(t, Test).state);
    assert Everything(s) + "" == Everything(s) && Everything(t) + "" == Everything(t);
  }

  /** The members of AsyncLogging and the locals of threadFunc, each method one atomic step. A method
      requires that its step is defined; StepKeepsInv shows that it is in every reachable state. */
  class AsyncLogging {
    const size: nat
    var nextId: nat
    var running: bool
    var phase: Phase
    var currentBuffer: Option<Buffer>
    var nextBuffer: Option<Buffer>
    var buffers: seq<Buffer>
    var newBuffer1: Option<Buffer>
    var newBuffer2: Option<Buffer>
    var buffersToWrite: seq<Buffer>
    var written: nat
    var log: string

    ghost function V(): (s: State)
      reads this
    {
      State(size, nextId, running, phase, currentBuffer, nextBuffer, buffers,
            newBuffer1, newBuffer2, buffersToWrite, written, log)
    }

    constructor (size: nat := LARGE_BUFFER)
      ensures V() == Initial(size) && Inv(V()) && Unshared(V())
    {
      this.size := size;
      nextId, running, phase := 2, false, NotStarted;
      currentBuffer, nextBuffer := Some(Buffer(0, "")), Some(Buffer(1, ""));
      newBuffer1, newBuffer2 := None, None;
      buffers, buffersToWrite, written, log := [], [], 0, "";
    }

    method NewBuffer() returns (b: Buffer)
      modifies this`nextId
      ensures b == Buffer(old(nextId), "") && nextId == old(nextId) + 1
    {
      b := Buffer(nextId, "");
      nextId := nextId + 1;
    }

    method Append(msg: string)
      requires AppendStep(V(), msg).Ok?
      modifies this
      ensures Ok(V()) == AppendStep(old(V()), msg)
    {
      if size - |currentBuffer.value.text| > |msg| {
        currentBuffer := Some(Put(size, currentBuffer.value, msg));
      } else {
        buffers := buffers + [currentBuffer.value];
        if nextBuffer.Some? {
          currentBuffer, nextBuffer := nextBuffer, None;
        } else {
          var b := NewBuffer();
          currentBuffer := Some(b);
        }
        currentBuffer := Some(Put(size, currentBuffer.value, msg));
      }
    }

    method StartAsyncLogging()
      requires phase == NotStarted || phase == Exited
      modifies this
      ensures Ok(V()) == StartStep(old(V()))
    {
      running, phase := true, Top;
      var b1 := NewBuffer();
      var b2 := NewBuffer();
      newBuffer1, newBuffer2 := Some(b1), Some(b2);
    }

    /** The critical section of threadFunc. */
    method SwapBuffers()
      requires SwapStep(V()).Ok?
      modifies this
      ensures Ok(V()) == SwapStep(old(V()))
    {
      buffers := buffers + [currentBuffer.value];
      currentBuffer, newBuffer1 := newBuffer1, None;
      buffersToWrite, buffers := buffers, buffersToWrite;
      if nextBuffer.None? {
        nextBuffer, newBuffer2 := newBuffer2, None;
      }
      phase, written := Writing, 0;
    }

    /** The write loop: every buffer, in order. Appends may come in between its iterations; they
        touch none of the fields it uses. */
    method WriteBuffers()
      requires Inv(V()) && phase == Writing && written == 0
      modifies this`log, this`written
      ensures Inv(V()) && Enabled(V(), Recycle)
      ensures log == old(log) + Concat(buffersToWrite)
      ensures Delivered(V()) == old(Delivered(V()))
    {
      assert buffersToWrite[..0] == [];
      while written < |buffersToWrite|
        invariant written <= |buffersToWrite|
        invariant log == old(log) + Concat(buffersToWrite[..written])
      {
        log := log + buffersToWrite[written].text;
        written := written + 1;
        assert buffersToWrite[..written][..written - 1] == buffersToWrite[..written - 1];
      }
      assert buffersToWrite[..written] == buffersToWrite && buffersToWrite[0..] == buffersToWrite;
      assert buffersToWrite[written..] == [];
    }

    method RefillFirstSpare()
      requires RefillFirst(V()).Ok?
      modifies this`newBuffer1, this`buffersToWrite
      ensures Ok(V()) == RefillFirst(old(V()))
    {
      if newBuffer1.None? {
        newBuffer1 := Some(buffersToWrite[|buffersToWrite| - 1].(text := ""));
        buffersToWrite := buffersToWrite[..|buffersToWrite| - 1];
      }
    }

    method RefillSecondSpare()
      requires RefillSecond(V()).Ok?
      modifies this`newBuffer2, this`buffersToWrite
      ensures Ok(V()) == RefillSecond(old(V()))
    {
      if newBuffer2.None? {
        newBuffer2 := Some(buffersToWrite[|buffersToWrite| - 1].(text := ""));
        buffersToWrite := buffersToWrite[..|buffersToWrite| - 1];
      }
    }

    /** resize, back, pop_back, reset and clear. */
    method RecycleBuffers()
      requires RecycleStep(V()).Ok?
      modifies this
      ensures Ok(V()) == RecycleStep(old(V()))
    {
      if |buffersToWrite| > 2 {
        buffersToWrite := buffersToWrite[..2];
      }
      RefillFirstSpare();
      RefillSecondSpare();
      buffersToWrite := [];
      phase, written := Top, 0;
    }

    method Stop()
      modifies this`running
      ensures V() == old(V()).(running := false)
    {
      running := false;
    }
  }
}
