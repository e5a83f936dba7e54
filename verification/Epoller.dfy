/** Net/epoller.cpp, Net/channel.h and Net/channel.cpp: keeping the kernel interest set, the table
    of channels and the three-state index of each channel in agreement. */
module Epollers {

  datatype Index = New | Added | Deleted

  /** The epoll event bits in use; a mask is the set of its bits. */
  datatype Bit = EpollIn | EpollPri | EpollOut | EpollEt

  type Mask = set<Bit>

  const READ_EVENT: Mask := {EpollIn, EpollPri}
  const WRITE_EVENT: Mask := {EpollOut}

  predicate Writing(events: Mask) {
    events * WRITE_EVENT != {}
  }

  predicate Reading(events: Mask) {
    events * READ_EVENT != {}
  }

  /** Each switch sets its own interest and leaves the other one as it was. */
  lemma SwitchesAreIndependent(events: Mask)
    ensures Reading(events + READ_EVENT) && !Reading(events - READ_EVENT)
    ensures Writing(events + WRITE_EVENT) && !Writing(events - WRITE_EVENT)
    ensures Writing(events + READ_EVENT) == Writing(events - READ_EVENT) == Writing(events)
    ensures Reading(events + WRITE_EVENT) == Reading(events - WRITE_EVENT) == Reading(events)
  {
    assert EpollIn in (events + READ_EVENT) * READ_EVENT && EpollOut in (events + WRITE_EVENT) * WRITE_EVENT;
    assert (events + READ_EVENT) * WRITE_EVENT == (events - READ_EVENT) * WRITE_EVENT == events * WRITE_EVENT;
    assert (events + WRITE_EVENT) * READ_EVENT == (events - WRITE_EVENT) * READ_EVENT == events * READ_EVENT;
  }

  /** The bits each switch sets or clears, and no other. */
  lemma SwitchBits(events: Mask, b: Bit)
    ensures b in events + READ_EVENT <==> b in events || b == EpollIn || b == EpollPri
    ensures b in events - READ_EVENT <==> b in events && b != EpollIn && b != EpollPri
    ensures b in events + WRITE_EVENT <==> b in events || b == EpollOut
    ensures b in events - WRITE_EVENT <==> b in events && b != EpollOut
  {
  }

  // ----- Channels, table and kernel as a value; P stands for pointers to channels -----

  datatype Chan = Chan(fd: int, events: Mask, index: Index)

  /** What the kernel holds for a descriptor: the mask, and the pointer handed back by epoll_wait. */
  datatype Interest<P> = Interest(mask: Mask, channel: P)

  /** The channel objects alive on one epoller, its table of channels, and the kernel's set. */
  datatype Registry<P(==)> = Registry(chans: map<P, Chan>, table: map<int, P>, kernel: map<int, Interest<P>>)

  /** Fault: an assertion of the source fails, or epoll_ctl refuses the operation. */
  datatype Outcome<P(==)> = Ok(r: Registry<P>) | Fault

  predicate Has<P(==)>(r: Registry<P>, c: P)
    requires c in r.chans
  {
    r.chans[c].fd in r.table && r.table[r.chans[c].fd] == c
  }

  /** Taken out by removeChannel: still an object, no longer in the table. */
  predicate Retired<P(==)>(r: Registry<P>, c: P)
    requires c in r.chans
  {
    r.chans[c].index == Deleted && !Has(r, c)
  }

  function WithChan<P(==)>(r: Registry<P>, c: P, k: Chan): (s: Registry<P>) {
    r.(chans := r.chans[c := k])
  }

  datatype Op = CtlAdd | CtlMod | CtlDel

  /** epoll_ctl: the kernel refuses to add what it has, and to change or delete what it has not. */
  function Ctl<P(==)>(r: Registry<P>, op: Op, c: P): (o: Outcome<P>)
    requires c in r.chans
  {
    var k := r.chans[c];
    if op == CtlAdd <==> k.fd in r.kernel then Fault
    else if op == CtlDel then Ok(r.(kernel := r.kernel - {k.fd}))
    else Ok(r.(kernel := r.kernel[k.fd := Interest(k.events, c)]))
  }

  /** updateChannel, with its assertions. */
  function Updated<P(==)>(r: Registry<P>, c: P): (o: Outcome<P>)
    requires c in r.chans
  {
    var k := r.chans[c];
    if k.index == New then
      Ctl(WithChan(r, c, k.(index := Added)).(table := r.table[k.fd := c]), CtlAdd, c)
    else if !Has(r, c) then Fault
    else if k.index == Deleted then Ctl(WithChan(r, c, k.(index := Added)), CtlAdd, c)
    else if k.events != {} then Ctl(r, CtlMod, c)
    else
      var o := Ctl(r, CtlDel, c);
      if o.Fault? then Fault else Ok(WithChan(o.r, c, k.(index := Deleted)))
  }

  /** removeChannel, with its assertions. */
  function Removed<P(==)>(r: Registry<P>, c: P): (o: Outcome<P>)
    requires c in r.chans
  {
    var k := r.chans[c];
    if !Has(r, c) || k.index == New then Fault
    else
      var o := if k.index == Added then Ctl(r, CtlDel, c) else Ok(r);
      if o.Fault? then Fault
      else Ok(WithChan(o.r, c, k.(index := Deleted)).(table := r.table - {k.fd}))
  }

  /** A change of the mask followed by update(). */
  function Switched<P(==)>(r: Registry<P>, c: P, mask: Mask): (o: Outcome<P>)
    requires c in r.chans
  {
    Updated(WithChan(r, c, r.chans[c].(events := mask)), c)
  }

  function Dropped<P(==)>(r: Registry<P>, c: P): (s: Registry<P>) {
    r.(chans := r.chans - {c})
  }

  /** ~Channel */
  function Destroyed<P(==)>(r: Registry<P>, c: P): (o: Outcome<P>)
    requires c in r.chans
  {
    if !Has(r, c) then Ok(Dropped(r, c))
    else
      var o := Switched(r, c, {});
      if o.Fault? then Fault
      else
        var q := Removed(o.r, c);
        if q.Fault? then Fault else Ok(Dropped(q.r, c))
  }

  datatype Event<P> =
    | Create(c: P, fd: int)
    | Preset(c: P, mask: Mask)     // setEvents before the first registration
    | EnableReading(c: P)
    | EnableWriting(c: P)
    | DisableReading(c: P)
    | DisableWriting(c: P)
    | DisableAll(c: P)
    | Remove(c: P)
    | Destroy(c: P)

  /** No channel uses the descriptor, except perhaps one that is only waiting for its destruction. */
  predicate FreeFd<P(==)>(r: Registry<P>, fd: int) {
    forall c | c in r.chans && !Retired(r, c) :: r.chans[c].fd != fd
  }

  /** What callers owe: distinct descriptors, live objects, and after the final remove nothing but
      the destruction. */
  predicate Legal<P(==)>(r: Registry<P>, e: Event<P>) {
    match e
    case Create(c, fd) => c !in r.chans && FreeFd(r, fd)
    case Preset(c, _) => c in r.chans && r.chans[c].index == New
    case Remove(c) => c in r.chans && Has(r, c)
    case Destroy(c) => c in r.chans
    case _ => e.c in r.chans && !Retired(r, e.c)
  }

  function Step<P(==)>(r: Registry<P>, e: Event<P>): (o: Outcome<P>)
    requires Legal(r, e)
  {
    match e
    case Create(c, fd) => Ok(WithChan(r, c, Chan(fd, {}, New)))
    case Preset(c, mask) => Ok(WithChan(r, c, r.chans[c].(events := mask)))
    case EnableReading(c) => Switched(r, c, r.chans[c].events + READ_EVENT)
    case EnableWriting(c) => Switched(r, c, r.chans[c].events + WRITE_EVENT)
    case DisableReading(c) => Switched(r, c, r.chans[c].events - READ_EVENT)
    case DisableWriting(c) => Switched(r, c, r.chans[c].events - WRITE_EVENT)
    case DisableAll(c) => Switched(r, c, {})
    case Remove(c) => Removed(r, c)
    case Destroy(c) => Destroyed(r, c)
  }

  // ----- What every run keeps -----

  predicate TableFiled<P(==)>(r: Registry<P>) {
    forall fd | fd in r.table ::
      r.table[fd] in r.chans && r.chans[r.table[fd]].fd == fd && r.chans[r.table[fd]].index != New
  }

  /** The kernel holds added channels only, each with its own mask. */
  predicate KernelFiled<P(==)>(r: Registry<P>)
    requires TableFiled(r)
  {
    forall fd | fd in r.kernel ::
      && fd in r.table && r.chans[r.table[fd]].index == Added
      && r.kernel[fd] == Interest(r.chans[r.table[fd]].events, r.table[fd])
  }

  predicate AddedFiled<P(==)>(r: Registry<P>) {
    forall c | c in r.chans && r.chans[c].index == Added :: Has(r, c) && r.chans[c].fd in r.kernel
  }

  predicate FdsDistinct<P(==)>(r: Registry<P>) {
    forall c, d | c in r.chans && d in r.chans && c != d && !Retired(r, c) && !Retired(r, d) ::
      r.chans[c].fd != r.chans[d].fd
  }

  predicate Inv<P(==)>(r: Registry<P>) {
    TableFiled(r) && KernelFiled(r) && AddedFiled(r) && FdsDistinct(r)
  }

  /** The registry with channel c registered under mask, or disabled. */
  function Placed<P(==)>(r: Registry<P>, c: P, mask: Mask): (s: Registry<P>)
    requires c in r.chans
  {
    var fd := r.chans[c].fd;
    if r.chans[c].index == Added && mask == {} then
      Registry(r.chans[c := Chan(fd, mask, Deleted)], r.table[fd := c], r.kernel - {fd})
    else
      Registry(r.chans[c := Chan(fd, mask, Added)], r.table[fd := c], r.kernel[fd := Interest(mask, c)])
  }

  lemma PlacedKeepsInv<P>(r: Registry<P>, c: P, mask: Mask)
    requires Inv(r) && c in r.chans && !Retired(r, c)
    ensures Inv(Placed(r, c, mask)) && !Retired(Placed(r, c, mask), c)
  {
    var s := Placed(r, c, mask);
    assert forall d | d in r.chans && d != c :: s.chans[d] == r.chans[d] && (Has(s, d) <==> Has(r, d));
  }

  /** What a switch does: the channel is in the table, and in the kernel with the new mask unless it
      was there before and the mask is empty. Nothing else changes. */
  lemma SwitchMeaning<P>(r: Registry<P>, c: P, mask: Mask)
    requires Inv(r) && c in r.chans && !Retired(r, c)
    ensures Switched(r, c, mask) == Ok(Placed(r, c, mask)) && Inv(Placed(r, c, mask))
  {
    var fd := r.chans[c].fd;
    assert fd in r.kernel ==> r.table[fd] == c;
    assert r.chans[c].index != New ==> r.table[fd := c] == r.table;
    PlacedKeepsInv(r, c, mask);
  }

  /** The final remove leaves neither table entry nor kernel entry. */
  lemma RemoveMeaning<P>(r: Registry<P>, c: P)
    requires Inv(r) && c in r.chans && Has(r, c)
    ensures var o, fd := Removed(r, c), r.chans[c].fd;
            && o.Ok? && Inv(o.r) && Retired(o.r, c)
            && o.r == Registry(r.chans[c := r.chans[c].(index := Deleted)], r.table - {fd}, r.kernel - {fd})
  {
    var s := Removed(r, c).r;
    assert forall d | d in r.chans && d != c :: s.chans[d] == r.chans[d] && (Has(s, d) <==> Has(r, d));
    assert r.chans[c].index == Deleted ==> r.kernel - {r.chans[c].fd} == r.kernel;
  }

  lemma DropKeepsInv<P>(r: Registry<P>, c: P)
    requires Inv(r) && c in r.chans && !Has(r, c)
    ensures Inv(Dropped(r, c))
  {
    var s := Dropped(r, c);
    assert forall d | d in s.chans :: s.chans[d] == r.chans[d] && (Has(s, d) <==> Has(r, d));
  }

  /** ~Channel always succeeds, for a channel removed before too, and leaves no trace. */
  lemma DestroyMeaning<P>(r: Registry<P>, c: P)
    requires Inv(r) && c in r.chans
    ensures var o, gone := Destroyed(r, c), if Has(r, c) then {r.chans[c].fd} else {};
            o.Ok? && Inv(o.r) && o.r == Registry(r.chans - {c}, r.table - gone, r.kernel - gone)
  {
    if Has(r, c) {
      SwitchMeaning(r, c, {});
      var s := Switched(r, c, {}).r;
      RemoveMeaning(s, c);
      var t := Removed(s, c).r;
      DropKeepsInv(t, c);
      assert t.chans - {c} == r.chans - {c};
      assert t.table == r.table - {r.chans[c].fd} && t.kernel == r.kernel - {r.chans[c].fd};
    } else {
      DropKeepsInv(r, c);
      assert r.table - {} == r.table && r.kernel - {} == r.kernel;
    }
  }

  lemma DestroyedInSteps<P>(r: Registry<P>, s: Registry<P>, t: Registry<P>, c: P)
    requires c in r.chans && Has(r, c) && Switched(r, c, {}) == Ok(s)
    requires c in s.chans && Removed(s, c) == Ok(t)
    ensures Destroyed(r, c) == Ok(Dropped(t, c))
  {
  }

  /** On live channels the code fails exactly where its callers break the rules: a switch after the
      final remove, and a remove of a channel that is not in the table. */
  lemma FaultExactness<P>(r: Registry<P>, c: P, mask: Mask)
    requires Inv(r) && c in r.chans
    ensures Switched(r, c, mask).Fault? <==> Retired(r, c)
    ensures Removed(r, c).Fault? <==> !Has(r, c)
    ensures Destroyed(r, c).Ok?
  {
    if !Retired(r, c) {
      SwitchMeaning(r, c, mask);
    }
    if Has(r, c) {
      RemoveMeaning(r, c);
    }
    DestroyMeaning(r, c);
  }

  /** Without distinct descriptors: the second channel's first switch is refused by the kernel. */
  lemma SharedFdFaults<P>(r: Registry<P>, c: P, d: P, mask: Mask)
    requires Inv(r) && d in r.chans && r.chans[d].index == Added && c !in r.chans
    ensures Switched(WithChan(r, c, Chan(r.chans[d].fd, {}, New)), c, mask).Fault?
  {
  }

  lemma PresetKeepsInv<P>(r: Registry<P>, c: P, k: Chan)
    requires Inv(r) && k.index == New
    requires if c in r.chans then r.chans[c].index == New && r.chans[c].fd == k.fd else FreeFd(r, k.fd)
    ensures Inv(WithChan(r, c, k))
  {
    var s := WithChan(r, c, k);
    assert forall d | d in r.chans && d != c :: s.chans[d] == r.chans[d] && (Has(s, d) <==> Has(r, d));
  }

  lemma StepKeepsInv<P>(r: Registry<P>, e: Event<P>)
    requires Inv(r) && Legal(r, e)
    ensures Step(r, e).Ok? && Inv(Step(r, e).r)
  {
    match e
    case Create(c, fd) => PresetKeepsInv(r, c, Chan(fd, {}, New));
    case Preset(c, mask) => PresetKeepsInv(r, c, r.chans[c].(events := mask));
    case EnableReading(c) => SwitchMeaning(r, c, r.chans[c].events + READ_EVENT);
    case EnableWriting(c) => SwitchMeaning(r, c, r.chans[c].events + WRITE_EVENT);
    case DisableReading(c) => SwitchMeaning(r, c, r.chans[c].events - READ_EVENT);
    case DisableWriting(c) => SwitchMeaning(r, c, r.chans[c].events - WRITE_EVENT);
    case DisableAll(c) => SwitchMeaning(r, c, {});
    case Remove(c) => RemoveMeaning(r, c);
    case Destroy(c) => DestroyMeaning(r, c);
  }

  predicate LegalRun<P(==)>(o: Outcome<P>, es: seq<Event<P>>)
    decreases |es|
  {
    es == [] || o.Fault? || (Legal(o.r, es[0]) && LegalRun(Step(o.r, es[0]), es[1..]))
  }

  function Run<P(==)>(o: Outcome<P>, es: seq<Event<P>>): (p: Outcome<P>)
    requires LegalRun(o, es)
    decreases |es|
  {
    if es == [] || o.Fault? then o else Run(Step(o.r, es[0]), es[1..])
  }

  lemma {:induction false} RunKeepsInv<P>(r: Registry<P>, es: seq<Event<P>>)
    requires Inv(r) && LegalRun(Ok(r), es)
    ensures Run(Ok(r), es).Ok? && Inv(Run(Ok(r), es).r)
    decreases |es|
  {
    if es == [] {
    } else {
      StepKeepsInv(r, es[0]);
      RunKeepsInv(Step(r, es[0]).r, es[1..]);
    }
  }

  /** In the kernel exactly when the index says so, with the channel's own mask and pointer. */
  predicate Agrees<P(==)>(r: Registry<P>, c: P)
    requires c in r.chans
  {
    var k := r.chans[c];
    && (k.index == Added <==> k.fd in r.kernel)
    && (k.fd in r.kernel ==> Has(r, c) && r.kernel[k.fd] == Interest(k.events, c))
  }

  /** Nothing in the table or in the kernel points to this channel. */
  predicate Untraced<P(==)>(r: Registry<P>, c: P) {
    && (forall fd | fd in r.table :: r.table[fd] != c)
    && (forall fd | fd in r.kernel :: r.kernel[fd].channel != c)
  }

  lemma InvAgrees<P>(r: Registry<P>)
    requires Inv(r)
    ensures forall c | c in r.chans && !Retired(r, c) :: Agrees(r, c)
    ensures r.kernel.Keys <= r.table.Keys
    ensures forall c: P :: c !in r.chans || Retired(r, c) ==> Untraced(r, c)
  {
    assert forall fd | fd in r.kernel :: fd in r.table && !Retired(r, r.table[fd]);
  }

  /** Over every run of any number of channels with distinct descriptors: no assertion fails and
      every ADD, MOD and DEL is accepted; each channel in use is in the kernel if and only if its
      index is Added, with its own mask; the kernel's descriptors are among the table's; and a
      channel that has been removed or destroyed is pointed to from nowhere. */
  lemma RegistrationAgrees<P>(es: seq<Event<P>>)
    requires LegalRun(Ok(Registry(map[], map[], map[])), es)
    ensures var o := Run(Ok(Registry(map[], map[], map[])), es);
            && o.Ok?
            && (forall c | c in o.r.chans && !Retired(o.r, c) :: Agrees(o.r, c))
            && o.r.kernel.Keys <= o.r.table.Keys
            && (forall c: P :: c !in o.r.chans || Retired(o.r, c) ==> Untraced(o.r, c))
  {
    var start: Registry<P> := Registry(map[], map[], map[]);
    RunKeepsInv(start, es);
    InvAgrees(Run(Ok(start), es).r);
  }

  /** The members of Epoller; all are the channel objects alive on it. A method requires that its
      step is defined; StepKeepsInv shows that it is in every reachable state. */
  class Epoller {
    var channels: map<int, Channel>
    var kernel: map<int, Interest<Channel>>
    ghost var all: set<Channel>

    ghost function V(): (r: Registry<Channel>)
      reads this, all
    {
      Registry(map c | c in all :: Chan(c.fd, c.events, c.index), channels, kernel)
    }

    ghost predicate Valid()
      reads this, all
    {
      Inv(V()) && forall c | c in all :: c.poller == this
    }

    constructor ()
      ensures Valid() && all == {} && V() == Registry(map[], map[], map[])
    {
      channels, kernel, all := map[], map[], {};
    }

    predicate HasChannel(c: Channel)
      reads this
    {
      c.fd in channels && channels[c.fd] == c
    }

    method Update(op: Op, c: Channel)
      requires c in all && Ctl(V(), op, c).Ok?
      modifies this`kernel
      ensures Ok(V()) == Ctl(old(V()), op, c)
    {
      if op == CtlDel {
        kernel := kernel - {c.fd};
      } else {
        kernel := kernel[c.fd := Interest(c.events, c)];
      }
    }

    method SetIndex(c: Channel, index: Index)
      requires c in all
      modifies c`index
      ensures V() == WithChan(old(V()), c, old(V()).chans[c].(index := index))
    {
      c.index := index;
    }

    method UpdateChannel(c: Channel)
      requires c in all && Updated(V(), c).Ok?
      modifies this`channels, this`kernel, c`index
      ensures Ok(V()) == Updated(old(V()), c)
    {
      if c.index == New || c.index == Deleted {
        if c.index == New {
          channels := channels[c.fd := c];
        }
        SetIndex(c, Added);
        Update(CtlAdd, c);
      } else if c.events != {} {
        Update(CtlMod, c);
      } else {
        Update(CtlDel, c);
        SetIndex(c, Deleted);
      }
    }

    method RemoveChannel(c: Channel)
      requires Valid() && c in all && HasChannel(c)
      modifies this`channels, this`kernel, c`index
      ensures Valid() && Ok(V()) == Removed(old(V()), c) && Retired(V(), c)
      ensures channels == old(channels) - {c.fd} && kernel == old(kernel) - {c.fd}
    {
      RemoveMeaning(V(), c);
      if c.index == Added {
        Update(CtlDel, c);
        SetIndex(c, Deleted);
      }
      channels := channels - {c.fd};
      assert V().chans == Removed(old(V()), c).r.chans;
    }
  }

  class Channel {
    const fd: int
    const poller: Epoller
    var events: Mask
    var index: Index

    /** A live channel of an agreeing epoller, not removed yet. */
    ghost predicate Usable()
      reads this, poller, poller.all
    {
      poller.Valid() && this in poller.all && !Retired(poller.V(), this)
    }

    constructor (poller: Epoller, fd: int)
      requires poller.Valid() && FreeFd(poller.V(), fd)
      modifies poller`all
      ensures this.poller == poller && this.fd == fd && index == New
      ensures Usable() && poller.all == old(poller.all) + {this}
      ensures poller.V() == WithChan(old(poller.V()), this, Chan(fd, {}, New))
    {
      this.poller, this.fd := poller, fd;
      events, index := {}, New;
      new;
      PresetKeepsInv(poller.V(), this, Chan(fd, {}, New));
      poller.all := poller.all + {this};
      assert poller.V() == WithChan(old(poller.V()), this, Chan(fd, {}, New));
    }

    /** Whatever the new mask, the kernel ends up with it, and no other channel is affected; the
        one way out of the kernel set is an added channel losing its last event. */
    method SetEvents(mask: Mask)
      requires Usable()
      modifies this, poller`channels, poller`kernel
      ensures Usable() && Ok(poller.V()) == Switched(old(poller.V()), this, mask)
      ensures events == mask && poller.channels == old(poller.channels)[fd := this]
      ensures index == if old(index) == Added && mask == {} then Deleted else Added
      ensures poller.kernel == if index == Added then old(poller.kernel)[fd := Interest(mask, this)]
                               else old(poller.kernel) - {fd}
    {
      SwitchMeaning(poller.V(), this, mask);
      events := mask;
      assert poller.V() == WithChan(old(poller.V()), this, old(poller.V()).chans[this].(events := mask));
      poller.UpdateChannel(this);
      assert poller.V().chans[this].index == index;
    }

    method EnableReading()
      requires Usable()
      modifies this, poller`channels, poller`kernel
      ensures Usable() && Ok(poller.V()) == Step(old(poller.V()), Event.EnableReading(this))
      ensures index == Added && Reading(events) && Writing(events) == old(Writing(events))
      ensures events == old(events) + {EpollIn, EpollPri}
      ensures poller.channels == old(poller.channels)[fd := this]
      ensures poller.kernel == old(poller.kernel)[fd := Interest(events, this)]
    {
      SwitchesAreIndependent(events);
      SetEvents(events + READ_EVENT);
    }

    method EnableWriting()
      requires Usable()
      modifies this, poller`channels, poller`kernel
      ensures Usable() && Ok(poller.V()) == Step(old(poller.V()), Event.EnableWriting(this))
      ensures index == Added && Writing(events) && Reading(events) == old(Reading(events))
      ensures events == old(events) + {EpollOut}
      ensures poller.channels == old(poller.channels)[fd := this]
      ensures poller.kernel == old(poller.kernel)[fd := Interest(events, this)]
    {
      SwitchesAreIndependent(events);
      SetEvents(events + WRITE_EVENT);
    }

    method DisableReading()
      requires Usable()
      modifies this, poller`channels, poller`kernel
      ensures Usable() && Ok(poller.V()) == Step(old(poller.V()), Event.DisableReading(this))
      ensures !Reading(events) && Writing(events) == old(Writing(events))
      ensures events == old(events) - {EpollIn, EpollPri}
      ensures poller.channels == old(poller.channels)[fd := this]
      ensures index == if old(index) == Added && events == {} then Deleted else Added
      ensures poller.kernel == if index == Added then old(poller.kernel)[fd := Interest(events, this)]
                               else old(poller.kernel) - {fd}
    {
      SwitchesAreIndependent(events);
      SetEvents(events - READ_EVENT);
    }

    method DisableWriting()
      requires Usable()
      modifies this, poller`channels, poller`kernel
      ensures Usable() && Ok(poller.V()) == Step(old(poller.V()), Event.DisableWriting(this))
      ensures !Writing(events) && Reading(events) == old(Reading(events))
      ensures events == old(events) - {EpollOut}
      ensures poller.channels == old(poller.channels)[fd := this]
      ensures index == if old(index) == Added && events == {} then Deleted else Added
      ensures poller.kernel == if index == Added then old(poller.kernel)[fd := Interest(events, this)]
                               else old(poller.kernel) - {fd}
    {
      SwitchesAreIndependent(events);
      SetEvents(events - WRITE_EVENT);
    }

    /** Leaves the kernel set only if the channel was in it: disabling everything a second time, or
        before the first registration, puts the descriptor back with an empty mask. */
    method DisableAll()
      requires Usable()
      modifies this, poller`channels, poller`kernel
      ensures Usable() && Ok(poller.V()) == Step(old(poller.V()), Event.DisableAll(this))
      ensures events == {} && poller.channels == old(poller.channels)[fd := this]
      ensures fd in poller.kernel <==> old(index) != Added
      ensures poller.kernel == if old(index) == Added then old(poller.kernel) - {fd}
                               else old(poller.kernel)[fd := Interest({}, this)]
    {
      SetEvents({});
    }

    /** ~Channel, for a channel in use, a new one or one already removed: no trace is left. */
    method Destroy()
      requires poller.Valid() && this in poller.all
      modifies this, poller
      ensures poller.Valid() && poller.all == old(poller.all) - {this}
      ensures Ok(poller.V()) == Destroyed(old(poller.V()), this) && Untraced(poller.V(), this)
      ensures poller.channels == old(poller.channels) - (if old(poller.HasChannel(this)) then {fd} else {})
      ensures poller.kernel == old(poller.kernel) - (if old(poller.HasChannel(this)) then {fd} else {})
    {
      DestroyMeaning(poller.V(), this);
      Unregister();
      InvAgrees(poller.V());
      ghost var before := poller.V();
      poller.all := poller.all - {this};
      assert poller.V() == Dropped(before, this);
    }

    method Unregister()
      requires poller.Valid() && this in poller.all
      modifies this, poller`channels, poller`kernel
      ensures poller.Valid() && !poller.HasChannel(this)
      ensures Destroyed(old(poller.V()), this) == Ok(Dropped(poller.V(), this))
    {
      if poller.HasChannel(this) {
        assert Has(poller.V(), this);
        DisableAll();
        ghost var disabled := poller.V();
        assert poller.HasChannel(this) && Ok(disabled) == Switched(old(poller.V()), this, {});
        poller.RemoveChannel(this);
        ghost var removed := poller.V();
        assert Ok(removed) == Removed(disabled, this);
        DestroyedInSteps(old(poller.V()), disabled, removed, this);
      }
    }
  }
}
