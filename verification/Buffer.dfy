/** Net/buffer.h and Net/buffer.cpp: a growing byte buffer with a read and a write index. */
module Buffers {

  const PREPEND := 8
  const INITIAL_SIZE := 1024
  const EXTRA := 64 * 1024

  /** The three fields of a Buffer as a value. */
  datatype Buf = Buf(data: string, r: nat, w: nat) {

    predicate InBounds() {
      r <= w <= |data|
    }

    /** What every operation keeps. */
    predicate Inv() {
      && InBounds()
      && PREPEND <= |data|
      && (r == w ==> r == 0 || r == PREPEND)
    }

    function View(): (v: string)
      requires InBounds()
    {
      data[r..w]
    }

    function Readable(): (n: int) {
      w - r
    }

    function Writeable(): (n: int) {
      |data| - w
    }
  }

  function Fresh(size: nat): (b: Buf) {
    Buf(seq(size, _ => '\0'), 0, 0)
  }

  /** The guard of the branch that moves the indices to the front. */
  predicate Compacts(b: Buf, len: nat) {
    b.Writeable() < len && b.Writeable() + b.r >= len + PREPEND
  }

  // The flag `move` says whether the bytes move along with the indices. Buffer leaves the copy
  // commented out, so the code is `move == false`; `move == true` is the repaired variant.

  function Ensured(b: Buf, len: nat, move: bool): (c: Buf)
    requires b.InBounds()
  {
    if b.Writeable() >= len then b
    else if Compacts(b, len) then
      var n := b.w - b.r;
      var bytes := if move then b.data[..PREPEND] + b.View() + b.data[PREPEND + n..] else b.data;
      Buf(bytes, PREPEND, PREPEND + n)
    else
      b.(data := b.data + seq(b.w + len - |b.data|, _ => '\0'))
  }

  /** Bytes copied to the write position, which then moves past them. */
  function Written(b: Buf, msg: string): (c: Buf)
    requires b.InBounds() && |msg| <= b.Writeable()
    ensures c.InBounds() && |c.data| == |b.data| && c.View() == b.View() + msg
  {
    Buf(b.data[..b.w] + msg + b.data[b.w + |msg|..], b.r, b.w + |msg|)
  }

  lemma EnsuredHasRoom(b: Buf, len: nat, move: bool)
    requires b.Inv()
    ensures var c := Ensured(b, len, move);
            && c.Inv() && c.Writeable() >= len && c.Readable() == b.Readable()
            && |c.data| >= |b.data|
            && (move || !Compacts(b, len) ==> c.View() == b.View())
            && (!move && Compacts(b, len) ==> c.View() == b.data[PREPEND..PREPEND + b.Readable()])
            && (Compacts(b, len) ==> b.r >= PREPEND + 1 && b.Readable() > 0)
            // the storage grows, by as much as is missing, only if the bytes would not fit behind the
            // prepend area; if they would, the indices go there unless the tail has room anyway
            && (|c.data| > |b.data| <==> len > b.Writeable() && PREPEND + b.Readable() + len > |b.data|)
            && (|c.data| > |b.data| ==> c.Writeable() == len)
            && (c.r != b.r || c.w != b.w ==> c.r == PREPEND && |c.data| == |b.data|)
  {
    var c := Ensured(b, len, move);
    if Compacts(b, len) {
      var n := b.w - b.r;
      if move {
        assert c.data[PREPEND..PREPEND + n] == b.View();
      }
    } else {
      assert c.data[b.r..b.w] == b.data[b.r..b.w];
    }
  }

  function Appended(b: Buf, msg: string, move: bool): (c: Buf)
    requires b.Inv()
  {
    EnsuredHasRoom(b, |msg|, move);
    Written(Ensured(b, |msg|, move), msg)
  }

  function RetrievedAll(b: Buf): (c: Buf) {
    b.(r := PREPEND, w := PREPEND)
  }

  function Retrieved(b: Buf, len: nat): (c: Buf)
    requires len <= b.Readable()
  {
    if len < b.Readable() then b.(r := b.r + len) else RetrievedAll(b)
  }

  /** How many bytes readv may deliver: the overflow segment is offered only to small buffers. */
  function ReadLimit(b: Buf): (n: int) {
    b.Writeable() + if b.Writeable() < EXTRA then EXTRA else 0
  }

  /** readFd after readv delivered `bytes`. */
  function ReadIn(b: Buf, bytes: string, move: bool): (c: Buf)
    requires b.Inv() && |bytes| <= ReadLimit(b)
  {
    var writeable := b.Writeable();
    if |bytes| <= writeable then Written(b, bytes)
    else
      var full := Written(b, bytes[..writeable]);
      assert full.Inv();
      Appended(full, bytes[writeable..], move)
  }

  datatype Op = Append(msg: string) | ReadFd(bytes: string) | Retrieve(len: nat) | RetrieveAll

  predicate Legal(b: Buf, op: Op) {
    match op
    case ReadFd(bytes) => |bytes| <= ReadLimit(b)
    case Retrieve(len) => len <= b.Readable()
    case _ => true
  }

  function Apply(b: Buf, op: Op, move: bool): (c: Buf)
    requires b.Inv() && Legal(b, op)
  {
    match op
    case Append(msg) => Appended(b, msg, move)
    case ReadFd(bytes) => ReadIn(b, bytes, move)
    case Retrieve(len) => Retrieved(b, len)
    case RetrieveAll => RetrievedAll(b)
  }

  /** Whether the operation takes the compaction branch. */
  predicate CompactsOn(b: Buf, op: Op)
    requires b.Inv()
  {
    match op
    case Append(msg) => Compacts(b, |msg|)
    case ReadFd(bytes) => |bytes| > b.Writeable() && b.r >= |bytes| - b.Writeable() + PREPEND
    case _ => false
  }

  /** The plain byte queue a Buffer stands for. */
  function Queued(q: string, op: Op): (p: string) {
    match op
    case Append(msg) => q + msg
    case ReadFd(bytes) => q + bytes
    case Retrieve(len) => if len <= |q| then q[len..] else q
    case RetrieveAll => ""
  }

  lemma AppendedMeaning(b: Buf, msg: string, move: bool)
    requires b.Inv()
    ensures var c := Appended(b, msg, move);
            && c.Inv() && |c.View()| == |b.View()| + |msg|
            && (move || !Compacts(b, |msg|) ==> c.View() == b.View() + msg)
            && (!move && Compacts(b, |msg|) ==>
                  c.View() == b.data[PREPEND..PREPEND + b.Readable()] + msg)
  {
    EnsuredHasRoom(b, |msg|, move);
  }

  lemma ReadInMeaning(b: Buf, bytes: string, move: bool)
    requires b.Inv() && |bytes| <= ReadLimit(b)
    ensures var c := ReadIn(b, bytes, move);
            && c.Inv() && |c.View()| == |b.View()| + |bytes|
            && (move || !CompactsOn(b, ReadFd(bytes)) ==> c.View() == b.View() + bytes)
            && (!move && CompactsOn(b, ReadFd(bytes)) ==>
                  var full := Written(b, bytes[..b.Writeable()]);
                  c.View() == full.data[PREPEND..PREPEND + full.Readable()] + bytes[b.Writeable()..])
  {
    var writeable := b.Writeable();
    if |bytes| > writeable {
      var full := Written(b, bytes[..writeable]);
      AppendedMeaning(full, bytes[writeable..], move);
      assert b.View() + bytes[..writeable] + bytes[writeable..] == b.View() + bytes;
    }
  }

  /** One step: the invariant and the byte count always, the bytes unless compaction loses them. */
  lemma StepRefinesQueue(b: Buf, op: Op, move: bool)
    requires b.Inv() && Legal(b, op)
    ensures var c := Apply(b, op, move);
            && c.Inv()
            && |c.View()| == |Queued(b.View(), op)|
            && (move || !CompactsOn(b, op) ==> c.View() == Queued(b.View(), op))
    ensures CompactsOn(b, op) ==> b.r >= PREPEND + 1 && b.Readable() > 0
  {
    match op
    case Append(msg) =>
      AppendedMeaning(b, msg, move);
    case ReadFd(bytes) =>
      ReadInMeaning(b, bytes, move);
    case Retrieve(len) =>
      assert b.View()[len..] == b.data[b.r + len..b.w];
    case RetrieveAll =>
  }

  predicate LegalRun(b: Buf, ops: seq<Op>, move: bool)
    requires b.Inv()
    decreases |ops|
  {
    ops != [] ==>
      && Legal(b, ops[0])
      && (StepRefinesQueue(b, ops[0], move); LegalRun(Apply(b, ops[0], move), ops[1..], move))
  }

  function Run(b: Buf, ops: seq<Op>, move: bool): (c: Buf)
    requires b.Inv() && LegalRun(b, ops, move)
    decreases |ops|
  {
    if ops == [] then b
    else
      StepRefinesQueue(b, ops[0], move);
      Run(Apply(b, ops[0], move), ops[1..], move)
  }

  function QueueRun(q: string, ops: seq<Op>): (p: string)
    decreases |ops|
  {
    if ops == [] then q else QueueRun(Queued(q, ops[0]), ops[1..])
  }

  predicate CompactionFree(b: Buf, ops: seq<Op>, move: bool)
    requires b.Inv() && LegalRun(b, ops, move)
    decreases |ops|
  {
    ops == [] ||
    (StepRefinesQueue(b, ops[0], move);
     !CompactsOn(b, ops[0]) && CompactionFree(Apply(b, ops[0], move), ops[1..], move))
  }

  lemma {:induction false} QueueRunLength(q: string, p: string, ops: seq<Op>)
    requires |q| == |p|
    ensures |QueueRun(q, ops)| == |QueueRun(p, ops)|
    decreases |ops|
  {
    if ops == [] {
    } else {
      QueueRunLength(Queued(q, ops[0]), Queued(p, ops[0]), ops[1..]);
    }
  }

  /** Every run of the code keeps the invariant and the byte count; it is a byte queue as long as
      compaction is not taken, and the repaired variant is a byte queue unconditionally. */
  lemma {:induction false} BufferRefinesQueue(b: Buf, ops: seq<Op>, move: bool)
    requires b.Inv() && LegalRun(b, ops, move)
    ensures Run(b, ops, move).Inv()
    ensures |Run(b, ops, move).View()| == |QueueRun(b.View(), ops)|
    ensures move || CompactionFree(b, ops, move) ==> Run(b, ops, move).View() == QueueRun(b.View(), ops)
    decreases |ops|
  {
    if ops == [] {
    } else {
      StepRefinesQueue(b, ops[0], move);
      var c := Apply(b, ops[0], move);
      BufferRefinesQueue(c, ops[1..], move);
      QueueRunLength(c.View(), Queued(b.View(), ops[0]), ops[1..]);
    }
  }

  /** The code's append keeps the queue contents exactly when it does not compact, or when the
      stale bytes at the front happen to equal the unread ones. */
  lemma AppendExactness(b: Buf, msg: string)
    requires b.Inv()
    ensures Appended(b, msg, false).View() == b.View() + msg <==>
            (Compacts(b, |msg|) ==> b.data[PREPEND..PREPEND + b.Readable()] == b.View())
  {
    AppendedMeaning(b, msg, false);
    if Compacts(b, |msg|) {
      EnsuredHasRoom(b, |msg|, false);
      var stale := b.data[PREPEND..PREPEND + b.Readable()];
      assert (stale + msg)[..|stale|] == stale && (b.View() + msg)[..|stale|] == b.View();
    }
  }

  /** A buffer filled up to its capacity, all but its last byte consumed. */
  function NearlyDrained(m: string): (b: Buf)
    requires m != ""
  {
    Buf(m, |m| - 1, |m|)
  }

  /** A reachable loss in a buffer of any capacity of at least 10: filled, drained but for one byte,
      and appended to, it hands out a byte consumed before instead of the unread one. */
  lemma CompactionLosesBytes(m: string, more: string)
    requires |m| >= 10 && m[PREPEND] != m[|m| - 1] && 1 <= |more| <= |m| - 1 - PREPEND
    ensures Appended(Fresh(|m|), m, false) == Buf(m, 0, |m|)
    ensures Retrieved(Buf(m, 0, |m|), |m| - 1) == NearlyDrained(m) && NearlyDrained(m).Inv()
    ensures NearlyDrained(m).View() == [m[|m| - 1]]
    ensures Appended(NearlyDrained(m), more, false).View() == [m[PREPEND]] + more
  {
    assert Ensured(Fresh(|m|), |m|, false) == Fresh(|m|);
    var b := NearlyDrained(m);
    AppendedMeaning(b, more, false);
    assert Compacts(b, |more|) && b.data[PREPEND..PREPEND + 1] == [m[PREPEND]];
  }

  /** Net/buffer.h: the vector and the two indices, updated in place. */
  class Buffer {
    var data: seq<char>
    var readIndex: nat
    var writeIndex: nat

    ghost function V(): (b: Buf)
      reads this
    {
      Buf(data, readIndex, writeIndex)
    }

    ghost predicate Valid()
      reads this
    {
      V().Inv()
    }

    constructor (size: nat := INITIAL_SIZE)
      requires size >= PREPEND
      ensures Valid() && V() == Fresh(size) && V().View() == ""
    {
      data := seq(size, _ => '\0');
      readIndex, writeIndex := 0, 0;
    }

    method ReadableBytes() returns (n: int)
      ensures n == V().Readable()
    {
      n := writeIndex - readIndex;
    }

    method EnsureWriteableBytes(len: nat)
      requires Valid()
      modifies this
      ensures V() == Ensured(old(V()), len, false)
      ensures Valid() && V().Writeable() >= len && V().Readable() == old(V().Readable())
    {
      EnsuredHasRoom(V(), len, false);
      if |data| - writeIndex >= len {
        return;
      }
      if |data| - writeIndex + readIndex >= len + PREPEND {
        writeIndex := PREPEND + (writeIndex - readIndex);
        readIndex := PREPEND;
      } else {
        data := data + seq(writeIndex + len - |data|, _ => '\0');
      }
    }

    method Append(msg: string)
      requires Valid()
      modifies this
      ensures Valid() && V() == Appended(old(V()), msg, false)
      ensures !Compacts(old(V()), |msg|) ==> V().View() == old(V().View()) + msg
    {
      AppendedMeaning(V(), msg, false);
      EnsureWriteableBytes(|msg|);
      CopyIn(msg);
    }

    /** std::copy to the write position, which then moves. */
    method CopyIn(msg: string)
      requires V().InBounds() && |msg| <= V().Writeable()
      modifies this
      ensures V() == Written(old(V()), msg)
    {
      data := data[..writeIndex] + msg + data[writeIndex + |msg|..];
      writeIndex := writeIndex + |msg|;
    }

    method RetrieveAll()
      requires Valid()
      modifies this
      ensures Valid() && V() == RetrievedAll(old(V())) && V().View() == ""
      ensures data == old(data) && readIndex == writeIndex == 8
    {
      readIndex := PREPEND;
      writeIndex := PREPEND;
    }

    method Retrieve(len: nat)
      requires Valid() && len <= V().Readable()
      modifies this
      ensures Valid() && V() == Retrieved(old(V()), len)
      ensures V().View() == old(V().View())[len..]
    {
      if len < writeIndex - readIndex {
        readIndex := readIndex + len;
      } else {
        RetrieveAll();
      }
    }

    /** index points into the unread bytes, as an offset from the read index. */
    method RetrieveUntilIndex(index: nat)
      requires Valid() && index <= V().Readable()
      modifies this
      ensures Valid() && V().View() == old(V().View())[index..]
    {
      Retrieve(index);
    }

    method ReadFd(bytes: string)
      requires Valid() && |bytes| <= ReadLimit(V())
      modifies this
      ensures Valid() && V() == ReadIn(old(V()), bytes, false)
    {
      StepRefinesQueue(V(), Op.ReadFd(bytes), false);
      var writeable := |data| - writeIndex;
      if |bytes| <= writeable {
        CopyIn(bytes);
      } else {
        CopyIn(bytes[..writeable]);
        Append(bytes[writeable..]);
      }
    }

    method RetrieveAllAsString() returns (s: string)
      requires Valid()
      modifies this
      ensures Valid() && s == old(V().View()) && V().View() == ""
    {
      s := data[readIndex..writeIndex];
      RetrieveAll();
    }
  }
}
