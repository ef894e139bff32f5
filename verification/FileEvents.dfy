/**
  File events: the table of redis-stable/src/ae.c and the epoll backend of
  redis-stable/src/ae_epoll.c, against a model of the kernel's interest table.
 */
module FileEvents {
  import opened Text

  /** AE_READABLE, AE_WRITABLE and AE_BARRIER. */
  datatype Mask = Mask(readable: bool, writable: bool, barrier: bool)

  const AE_NONE: Mask := Mask(false, false, false)

  function Union(a: Mask, b: Mask): Mask {
    Mask(a.readable || b.readable, a.writable || b.writable, a.barrier || b.barrier)
  }

  function Without(a: Mask, b: Mask): Mask {
    Mask(a.readable && !b.readable, a.writable && !b.writable, a.barrier && !b.barrier)
  }

  /** EPOLLIN and EPOLLOUT. */
  datatype Interest = Interest(epollin: bool, epollout: bool)

  function Wanted(m: Mask): Interest {
    Interest(m.readable, m.writable)
  }

  datatype Ctl = Add | Mod | Del

  type Kernel = map<int, Interest>

  /** epoll_ctl: EEXIST when adding a registered descriptor, ENOENT when changing or removing one
      that is not registered. */
  function EpollCtl(k: Kernel, op: Ctl, fd: int, ev: Interest): Option<Kernel> {
    match op
    case Add => if fd in k then None else Some(k[fd := ev])
    case Mod => if fd in k then Some(k[fd := ev]) else None
    case Del => if fd in k then Some(k - {fd}) else None
  }

  datatype Slot = Slot(mask: Mask, rfileProc: int, wfileProc: int, clientData: int)

  const EmptySlot: Slot := Slot(AE_NONE, 0, 0, 0)

  /** The file event part of an event loop; setsize is the number of slots. */
  datatype Loop = Loop(slots: seq<Slot>, maxfd: int, kernel: Kernel)

  // ----- the operations -----------------------------------------------------

  function AddOp(l: Loop, fd: nat): Ctl
    requires fd < |l.slots|
  {
    if l.slots[fd].mask == AE_NONE then Add else Mod
  }

  /** aeApiAddEvent; accepted is false when the kernel refuses for reasons of its own. */
  function ApiAdd(l: Loop, fd: nat, mask: Mask, accepted: bool): Option<Kernel>
    requires fd < |l.slots|
  {
    if accepted then EpollCtl(l.kernel, AddOp(l, fd), fd, Wanted(Union(mask, l.slots[fd].mask))) else None
  }

  /** aeCreateFileEvent; None is AE_ERR, which leaves everything as it was. */
  function Create(l: Loop, fd: nat, mask: Mask, proc: int, data: int, accepted: bool): Option<Loop> {
    if fd >= |l.slots| then None
    else
      var k := ApiAdd(l, fd, mask, accepted);
      if k.None? then None
      else
        var was := l.slots[fd];
        var slot := Slot(Union(was.mask, mask),
                         if mask.readable then proc else was.rfileProc,
                         if mask.writable then proc else was.wfileProc,
                         data);
        Some(Loop(l.slots[fd := slot], if fd > l.maxfd then fd else l.maxfd, k.value))
  }

  function DelOp(l: Loop, fd: nat, mask: Mask): Ctl
    requires fd < |l.slots|
  {
    if Without(l.slots[fd].mask, mask) != AE_NONE then Mod else Del
  }

  /** aeApiDelEvent ignores the result of epoll_ctl. */
  function ApiDel(l: Loop, fd: nat, mask: Mask): Kernel
    requires fd < |l.slots|
  {
    var k := EpollCtl(l.kernel, DelOp(l, fd, mask), fd, Wanted(Without(l.slots[fd].mask, mask)));
    if k.None? then l.kernel else k.value
  }

  /** The greatest descriptor below j with a mask, or -1. */
  function Highest(slots: seq<Slot>, j: nat): (h: int)
    requires j <= |slots|
    ensures -1 <= h < j
    ensures h >= 0 ==> slots[h].mask != AE_NONE
    ensures forall i :: h < i < j ==> slots[i].mask == AE_NONE
  {
    if j == 0 then -1 else if slots[j - 1].mask != AE_NONE then j - 1 else Highest(slots, j - 1)
  }

  /** Removing AE_WRITABLE always removes AE_BARRIER. */
  function DelMask(mask: Mask): Mask {
    if mask.writable then mask.(barrier := true) else mask
  }

  /** aeDeleteFileEvent */
  function Delete(l: Loop, fd: nat, mask: Mask): Loop {
    if fd >= |l.slots| || l.slots[fd].mask == AE_NONE then l
    else
      var m := DelMask(mask);
      var slots := l.slots[fd := l.slots[fd].(mask := Without(l.slots[fd].mask, m))];
      var maxfd := if fd == l.maxfd && slots[fd].mask == AE_NONE then Highest(slots, fd) else l.maxfd;
      Loop(slots, maxfd, ApiDel(l, fd, m))
  }

  /** aeResizeSetSize; None is AE_ERR. New slots start without a mask. */
  function Resize(l: Loop, setsize: nat): Option<Loop> {
    if setsize == |l.slots| then Some(l)
    else if l.maxfd >= setsize then None
    else Some(l.(slots := Resized(l, setsize)))
  }

  function Resized(l: Loop, setsize: nat): (slots: seq<Slot>)
    ensures |slots| == setsize
    ensures forall i :: 0 <= i < setsize ==>
      slots[i] == var s := if i < |l.slots| then l.slots[i] else EmptySlot;
                  if i <= l.maxfd then s else s.(mask := AE_NONE)
  {
    seq(setsize, i requires 0 <= i =>
      var s := if i < |l.slots| then l.slots[i] else EmptySlot;
      if i <= l.maxfd then s else s.(mask := AE_NONE))
  }

  // ----- the invariant ------------------------------------------------------

  /** maxfd is the greatest descriptor with a mask, or -1. */
  predicate MaxfdOk(l: Loop) {
    && -1 <= l.maxfd < |l.slots|
    && (l.maxfd >= 0 ==> l.slots[l.maxfd].mask != AE_NONE)
    && (forall i :: l.maxfd < i < |l.slots| ==> l.slots[i].mask == AE_NONE)
  }

  /** The kernel watches exactly the descriptors with a mask, for exactly the mask's events. */
  predicate KernelOk(l: Loop) {
    && (forall fd :: fd in l.kernel ==> 0 <= fd < |l.slots| && l.slots[fd].mask != AE_NONE)
    && (forall fd :: 0 <= fd < |l.slots| && l.slots[fd].mask != AE_NONE ==>
          fd in l.kernel && l.kernel[fd] == Wanted(l.slots[fd].mask))
  }

  predicate Good(l: Loop) {
    MaxfdOk(l) && KernelOk(l)
  }

  function Fresh(setsize: nat): Loop {
    Loop(seq(setsize, i => EmptySlot), -1, map[])
  }

  /** In a good loop every epoll_ctl call is the right one for the descriptor's state, so an
      error comes only from the range check or from the kernel itself. */
  lemma RightCall(l: Loop, fd: nat, mask: Mask)
    requires Good(l) && fd < |l.slots|
    ensures EpollCtl(l.kernel, AddOp(l, fd), fd, Wanted(Union(mask, l.slots[fd].mask))).Some?
    ensures l.slots[fd].mask != AE_NONE ==>
      EpollCtl(l.kernel, DelOp(l, fd, mask), fd, Wanted(Without(l.slots[fd].mask, mask))).Some?
  {
    assert l.slots[fd].mask != AE_NONE ==> fd in l.kernel;
  }

  lemma CreateFailsIff(l: Loop, fd: nat, mask: Mask, proc: int, data: int, accepted: bool)
    requires Good(l)
    ensures Create(l, fd, mask, proc, data, accepted).None? <==> fd >= |l.slots| || !accepted
  {
    if fd < |l.slots| {
      RightCall(l, fd, mask);
    }
  }

  lemma CreateKeepsMaxfd(l: Loop, fd: nat, mask: Mask, proc: int, data: int, accepted: bool)
    requires Good(l) && Create(l, fd, mask, proc, data, accepted).Some?
    requires mask != AE_NONE || l.slots[fd].mask != AE_NONE
    ensures MaxfdOk(Create(l, fd, mask, proc, data, accepted).value)
  {
  }

  /** Creating a file event keeps the loop good exactly when the descriptor ends up with a mask. */
  lemma CreateKeepsGoodIff(l: Loop, fd: nat, mask: Mask, proc: int, data: int, accepted: bool)
    requires Good(l) && Create(l, fd, mask, proc, data, accepted).Some?
    ensures fd < |l.slots|
    ensures Good(Create(l, fd, mask, proc, data, accepted).value) <==> mask != AE_NONE || l.slots[fd].mask != AE_NONE
  {
    var n := Create(l, fd, mask, proc, data, accepted).value;
    if mask == AE_NONE && l.slots[fd].mask == AE_NONE {
      assert fd in n.kernel && n.slots[fd].mask == AE_NONE;
    } else {
      CreateKeepsMaxfd(l, fd, mask, proc, data, accepted);
      assert KernelOk(n);
    }
  }

  lemma DeleteKeepsMaxfd(l: Loop, fd: nat, mask: Mask)
    requires Good(l)
    ensures MaxfdOk(Delete(l, fd, mask))
  {
  }

  lemma DeleteKeepsGood(l: Loop, fd: nat, mask: Mask)
    requires Good(l)
    ensures Good(Delete(l, fd, mask))
  {
    DeleteKeepsMaxfd(l, fd, mask);
    if fd < |l.slots| && l.slots[fd].mask != AE_NONE {
      RightCall(l, fd, DelMask(mask));
    }
  }

  /** A resize that succeeds keeps the loop good and every descriptor that has a mask; it fails
      exactly when the greatest one would not fit. */
  lemma ResizeKeepsGood(l: Loop, setsize: nat)
    requires Good(l)
    ensures Resize(l, setsize).None? <==> exists fd :: fd in l.kernel && fd >= setsize
    ensures Resize(l, setsize).Some? ==> Good(Resize(l, setsize).value)
    ensures Resize(l, setsize).Some? ==> forall fd :: fd in l.kernel ==>
              fd < setsize && Resize(l, setsize).value.slots[fd] == l.slots[fd]
  {
    if l.maxfd >= 0 {
      assert l.maxfd in l.kernel;
    }
  }

  /** What is undone: a mask created on a descriptor without one and then deleted leaves masks,
      kernel table and maxfd as they were. */
  lemma CreateThenDelete(l: Loop, fd: nat, mask: Mask, proc: int, data: int)
    requires Good(l) && fd < |l.slots| && l.slots[fd].mask == AE_NONE && mask != AE_NONE
    ensures var n := Create(l, fd, mask, proc, data, true);
            && n.Some?
            && Delete(n.value, fd, mask).kernel == l.kernel
            && Delete(n.value, fd, mask).maxfd == l.maxfd
  {
    CreateFailsIff(l, fd, mask, proc, data, true);
    CreateKeepsGoodIff(l, fd, mask, proc, data, true);
    var n := Create(l, fd, mask, proc, data, true).value;
    DeleteKeepsGood(n, fd, mask);
    var d := Delete(n, fd, mask);
    assert d.slots[fd].mask == AE_NONE;
    assert forall i :: 0 <= i < |l.slots| ==> d.slots[i].mask == l.slots[i].mask;
    hide Delete;
    SameMasks(l, d);
  }

  /** Masks determine maxfd and the kernel table of a good loop. */
  lemma SameMasks(a: Loop, b: Loop)
    requires Good(a) && Good(b) && |a.slots| == |b.slots|
    requires forall i :: 0 <= i < |a.slots| ==> a.slots[i].mask == b.slots[i].mask
    ensures a.maxfd == b.maxfd && a.kernel == b.kernel
  {
    forall fd: int ensures fd in a.kernel <==> fd in b.kernel {
      if 0 <= fd < |a.slots| {
        assert a.slots[fd].mask == b.slots[fd].mask;
      }
    }
    forall fd | fd in a.kernel ensures a.kernel[fd] == b.kernel[fd] {
      assert a.slots[fd].mask == b.slots[fd].mask;
    }
  }

  // ----- runs ---------------------------------------------------------------

  datatype Op =
    | CreateOp(fd: nat, mask: Mask, proc: int, data: int, accepted: bool)
    | DeleteOp(fd: nat, mask: Mask)
    | ResizeOp(setsize: nat)

  function Apply(l: Loop, op: Op): Loop {
    match op
    case CreateOp(fd, mask, proc, data, accepted) =>
      var n := Create(l, fd, mask, proc, data, accepted);
      if n.Some? then n.value else l
    case DeleteOp(fd, mask) => Delete(l, fd, mask)
    case ResizeOp(setsize) =>
      var n := Resize(l, setsize);
      if n.Some? then n.value else l
  }

  function ApplyAll(l: Loop, ops: seq<Op>): Loop
    decreases |ops|
  {
    if ops == [] then l else ApplyAll(Apply(l, ops[0]), ops[1..])
  }

  /** Registered without a mask, or without a slot. */
  predicate Stuck(l: Loop, fd: nat) {
    fd in l.kernel && (fd < |l.slots| ==> l.slots[fd].mask == AE_NONE)
  }

  lemma ApplyKeepsStuck(l: Loop, op: Op, fd: nat)
    requires Stuck(l, fd)
    ensures Stuck(Apply(l, op), fd)
  {
  }

  lemma {:induction false} RunKeepsStuck(l: Loop, ops: seq<Op>, fd: nat)
    requires Stuck(l, fd)
    ensures Stuck(ApplyAll(l, ops), fd)
    decreases |ops|
  {
    if ops != [] {
      ApplyKeepsStuck(l, ops[0], fd);
      RunKeepsStuck(Apply(l, ops[0]), ops[1..], fd);
    }
  }

  /** Once an empty mask was registered, the descriptor stays in the kernel table whatever
      operations follow, and after any of them a registration of it fails and a deletion does
      nothing. */
  lemma EmptyMaskBlocks(l: Loop, fd: nat, proc: int, data: int, ops: seq<Op>,
                        mask: Mask, proc2: int, data2: int, accepted: bool)
    requires Good(l) && fd < |l.slots| && l.slots[fd].mask == AE_NONE
    ensures var n := Create(l, fd, AE_NONE, proc, data, true);
            && n.Some?
            && var later := ApplyAll(n.value, ops);
               && fd in later.kernel
               && Create(later, fd, mask, proc2, data2, accepted).None?
               && Delete(later, fd, mask) == later
  {
    CreateFailsIff(l, fd, AE_NONE, proc, data, true);
    RunKeepsStuck(Create(l, fd, AE_NONE, proc, data, true).value, ops, fd);
  }

  /** The guard a caller could test: an empty mask for a descriptor that has none. */
  predicate Harmful(l: Loop, op: Op) {
    op.CreateOp? && op.mask == AE_NONE && op.accepted && op.fd < |l.slots| && l.slots[op.fd].mask == AE_NONE
  }

  predicate NeverHarmful(l: Loop, ops: seq<Op>)
    decreases |ops|
  {
    ops == [] || (!Harmful(l, ops[0]) && NeverHarmful(Apply(l, ops[0]), ops[1..]))
  }

  lemma ApplyKeepsGood(l: Loop, op: Op)
    requires Good(l)
    ensures !Harmful(l, op) ==> Good(Apply(l, op))
    ensures Harmful(l, op) ==> Stuck(Apply(l, op), op.fd)
  {
    match op
    case CreateOp(fd, mask, proc, data, accepted) =>
      CreateFailsIff(l, fd, mask, proc, data, accepted);
      if Create(l, fd, mask, proc, data, accepted).Some? {
        CreateKeepsGoodIff(l, fd, mask, proc, data, accepted);
      }
    case DeleteOp(fd, mask) => DeleteKeepsGood(l, fd, mask);
    case ResizeOp(setsize) => ResizeKeepsGood(l, setsize);
  }

  lemma StuckIsNotGood(l: Loop, fd: nat)
    requires Stuck(l, fd)
    ensures !Good(l)
  {
  }

  /** After any sequence of operations the loop is good if and only if none of them registered an
      empty mask for a descriptor without one. */
  lemma {:induction false} RunKeepsGoodIff(l: Loop, ops: seq<Op>)
    requires Good(l)
    ensures Good(ApplyAll(l, ops)) <==> NeverHarmful(l, ops)
    decreases |ops|
  {
    hide Good;
    hide Stuck;
    hide Harmful;
    hide Apply;
    if ops != [] {
      ApplyKeepsGood(l, ops[0]);
      if Harmful(l, ops[0]) {
        HarmfulCreates(l, ops[0]);
        RunKeepsStuck(Apply(l, ops[0]), ops[1..], ops[0].fd);
        StuckIsNotGood(ApplyAll(l, ops), ops[0].fd);
      } else {
        RunKeepsGoodIff(Apply(l, ops[0]), ops[1..]);
      }
    }
  }

  lemma HarmfulCreates(l: Loop, op: Op)
    requires Harmful(l, op)
    ensures op.CreateOp?
  {
  }

  lemma FreshIsGood(setsize: nat)
    ensures Good(Fresh(setsize))
  {
  }

  /** From a new event loop, after any sequence of creations with a mask, deletions and resizes,
      maxfd and the kernel table are exact. */
  lemma RunKeepsGood(setsize: nat, ops: seq<Op>)
    requires forall i :: 0 <= i < |ops| && ops[i].CreateOp? ==> ops[i].mask != AE_NONE
    ensures Good(ApplyAll(Fresh(setsize), ops))
  {
    FreshIsGood(setsize);
    MasksAreHarmless(Fresh(setsize), ops);
    RunKeepsGoodIff(Fresh(setsize), ops);
  }

  lemma {:induction false} MasksAreHarmless(l: Loop, ops: seq<Op>)
    requires forall i :: 0 <= i < |ops| && ops[i].CreateOp? ==> ops[i].mask != AE_NONE
    ensures NeverHarmful(l, ops)
    decreases |ops|
  {
    hide Apply;
    if ops != [] {
      MasksAreHarmless(Apply(l, ops[0]), ops[1..]);
    }
  }

  // ----- which handler a descriptor has ---------------------------------------

  /** What a descriptor is registered for, by meaning: a handler for reading and one for writing exactly
      if it waits for that, and the data of the last registration. */
  datatype Reg = Reg(reader: Option<int>, writer: Option<int>, barrier: bool, data: int)

  /** The registrations as a plain dictionary, for descriptors below size. */
  datatype Registry = Registry(size: nat, regs: map<nat, Reg>)

  function RegOf(s: Slot): Reg {
    Reg(if s.mask.readable then Some(s.rfileProc) else None, if s.mask.writable then Some(s.wfileProc) else None,
        s.mask.barrier, s.clientData)
  }

  function View(l: Loop): Registry {
    Registry(|l.slots|, map fd: nat | fd < |l.slots| && l.slots[fd].mask != AE_NONE :: RegOf(l.slots[fd]))
  }

  predicate Idle(r: Reg) {
    r.reader.None? && r.writer.None? && !r.barrier
  }

  /** Registering adds: the new handler replaces the old one only where the mask says so. */
  function Registered(g: Registry, fd: nat, mask: Mask, proc: int, data: int): Registry {
    var was := if fd in g.regs then g.regs[fd] else Reg(None, None, false, 0);
    var r := Reg(if mask.readable then Some(proc) else was.reader, if mask.writable then Some(proc) else was.writer,
                 was.barrier || mask.barrier, data);
    g.(regs := g.regs[fd := r])
  }

  /** Unregistering removes; a barrier goes with the writer. */
  function Unregistered(g: Registry, fd: nat, mask: Mask): Registry {
    if fd !in g.regs then g
    else
      var was := g.regs[fd];
      var r := Reg(if mask.readable then None else was.reader, if mask.writable then None else was.writer,
                   was.barrier && !mask.barrier && !mask.writable, was.data);
      if Idle(r) then g.(regs := g.regs - {fd}) else g.(regs := g.regs[fd := r])
  }

  function Registering(g: Registry, op: Op): Registry {
    match op
    case CreateOp(fd, mask, proc, data, accepted) => if fd < g.size && accepted then Registered(g, fd, mask, proc, data) else g
    case DeleteOp(fd, mask) => Unregistered(g, fd, mask)
    case ResizeOp(setsize) => if exists fd :: fd in g.regs && fd >= setsize then g else g.(size := setsize)
  }

  function RegisteringAll(g: Registry, ops: seq<Op>): Registry
    decreases |ops|
  {
    if ops == [] then g else RegisteringAll(Registering(g, ops[0]), ops[1..])
  }

  lemma CreateRefines(l: Loop, fd: nat, mask: Mask, proc: int, data: int, accepted: bool)
    requires Good(l) && !Harmful(l, CreateOp(fd, mask, proc, data, accepted))
    ensures var op := CreateOp(fd, mask, proc, data, accepted); View(Apply(l, op)) == Registering(View(l), op)
  {
    CreateFailsIff(l, fd, mask, proc, data, accepted);
    var n := Create(l, fd, mask, proc, data, accepted);
    if n.Some? {
      var v, w := View(n.value), Registered(View(l), fd, mask, proc, data);
      assert v.regs[fd] == w.regs[fd];
      assert forall i :: 0 <= i < |l.slots| && i != fd ==> n.value.slots[i] == l.slots[i];
      assert v.regs == w.regs;
    }
  }

  lemma DeleteRefines(l: Loop, fd: nat, mask: Mask)
    ensures View(Delete(l, fd, mask)) == Registering(View(l), DeleteOp(fd, mask))
  {
    if fd < |l.slots| && l.slots[fd].mask != AE_NONE {
      var d, w := Delete(l, fd, mask), Unregistered(View(l), fd, mask);
      assert forall i :: 0 <= i < |l.slots| && i != fd ==> d.slots[i] == l.slots[i];
      assert RegOf(d.slots[fd]) == var was := View(l).regs[fd];
        Reg(if mask.readable then None else was.reader, if mask.writable then None else was.writer,
            was.barrier && !mask.barrier && !mask.writable, was.data);
      assert View(d).regs == w.regs;
    }
  }

  lemma ResizeRefines(l: Loop, setsize: nat)
    requires Good(l)
    ensures View(Apply(l, ResizeOp(setsize))) == Registering(View(l), ResizeOp(setsize))
  {
    ResizeKeepsGood(l, setsize);
    var g, n := View(l), Resize(l, setsize);
    assert forall fd: nat :: fd in g.regs <==> fd in l.kernel;
    if n.None? {
      var fd :| fd in l.kernel && fd >= setsize;
      assert fd in g.regs && fd >= setsize;
    } else {
      assert forall fd :: fd in g.regs ==> fd < setsize;
      assert View(n.value).regs == g.regs;
    }
  }

  /** Every run refines the dictionary: after any operations, none of which registers an empty mask for a
      descriptor without one, each descriptor has the reader, the writer, the barrier and the data of the
      registrations that were not deleted since, whatever stale pointers the slots hold. */
  lemma {:induction false} RunRefines(l: Loop, ops: seq<Op>)
    requires Good(l) && NeverHarmful(l, ops)
    ensures View(ApplyAll(l, ops)) == RegisteringAll(View(l), ops)
    decreases |ops|
  {
    hide Good;
    hide Apply;
    hide Harmful;
    hide View;
    hide Registering;
    if ops != [] {
      ApplyKeepsGood(l, ops[0]);
      ApplyRefines(l, ops[0]);
      RunRefines(Apply(l, ops[0]), ops[1..]);
    }
  }

  lemma ApplyRefines(l: Loop, op: Op)
    requires Good(l) && !Harmful(l, op)
    ensures View(Apply(l, op)) == Registering(View(l), op)
  {
    hide Good;
    hide View;
    hide Harmful;
    match op
    case CreateOp(fd, mask, proc, data, accepted) => CreateRefines(l, fd, mask, proc, data, accepted);
    case DeleteOp(fd, mask) => DeleteRefines(l, fd, mask);
    case ResizeOp(setsize) => ResizeRefines(l, setsize);
  }

  // ----- the event loop object ------------------------------------------------

  class EventLoop {
    var events: array<Slot>
    var setsize: nat
    var maxfd: int
    var kernel: Kernel

    ghost predicate Valid()
      reads this, events
    {
      events.Length == setsize && -1 <= maxfd < setsize
    }

    ghost function State(): Loop
      reads this, events
    {
      Loop(events[..], maxfd, kernel)
    }

    /** aeCreateEventLoop */
    constructor (setsize: nat)
      ensures Valid() && fresh(events) && Good(State()) && |State().slots| == setsize
      ensures maxfd == -1 && kernel == map[]
    {
      events := new Slot[setsize](_ => EmptySlot);
      this.setsize := setsize;
      maxfd := -1;
      kernel := map[];
    }

    /** aeApiAddEvent */
    method ApiAddEvent(fd: nat, mask: Mask, accepted: bool) returns (ok: bool)
      requires Valid() && fd < setsize
      modifies this`kernel
      ensures ok == ApiAdd(old(State()), fd, mask, accepted).Some?
      ensures kernel == if ok then ApiAdd(old(State()), fd, mask, accepted).value else old(kernel)
    {
      var op := if events[fd].mask == AE_NONE then Add else Mod;
      var merged := Union(mask, events[fd].mask);
      var res := EpollCtl(kernel, op, fd, Interest(merged.readable, merged.writable));
      if !accepted || res.None? { return false; }
      kernel := res.value;
      return true;
    }

    /** aeCreateFileEvent */
    method CreateFileEvent(fd: nat, mask: Mask, proc: int, data: int, accepted: bool) returns (ok: bool)
      requires Valid()
      modifies this`maxfd, this`kernel, events
      ensures Valid() && ok == Create(old(State()), fd, mask, proc, data, accepted).Some?
      ensures State() == Apply(old(State()), CreateOp(fd, mask, proc, data, accepted))
    {
      if fd >= setsize { return false; }
      var added := ApiAddEvent(fd, mask, accepted);
      if !added { return false; }
      var fe := events[fd];
      fe := fe.(mask := Union(fe.mask, mask));
      if mask.readable { fe := fe.(rfileProc := proc); }
      if mask.writable { fe := fe.(wfileProc := proc); }
      fe := fe.(clientData := data);
      events[fd] := fe;
      if fd > maxfd { maxfd := fd; }
      assert events[..] == old(events[..])[fd := fe];
      return true;
    }

    /** aeApiDelEvent */
    method ApiDelEvent(fd: nat, delmask: Mask)
      requires Valid() && fd < setsize
      modifies this`kernel
      ensures kernel == ApiDel(old(State()), fd, delmask)
    {
      var mask := Without(events[fd].mask, delmask);
      var ev := Interest(mask.readable, mask.writable);
      var res := EpollCtl(kernel, if mask != AE_NONE then Mod else Del, fd, ev);
      if res.Some? { kernel := res.value; }
    }

    /** aeDeleteFileEvent, with its search for the next lower descriptor in use. */
    method DeleteFileEvent(fd: nat, mask: Mask)
      requires Valid()
      modifies this`maxfd, this`kernel, events
      ensures Valid() && State() == Delete(old(State()), fd, mask)
    {
      if fd >= setsize { return; }
      if events[fd].mask == AE_NONE { return; }
      var m := mask;
      if m.writable { m := m.(barrier := true); }
      ApiDelEvent(fd, m);
      events[fd] := events[fd].(mask := Without(events[fd].mask, m));
      assert events[..] == old(events[..])[fd := events[fd]];
      if fd == maxfd && events[fd].mask == AE_NONE {
        var j := maxfd - 1;
        while j >= 0 && events[j].mask == AE_NONE
          invariant -1 <= j < maxfd
          invariant Highest(events[..], j + 1) == Highest(events[..], maxfd)
        {
          j := j - 1;
        }
        maxfd := j;
      }
    }

    /** aeResizeSetSize */
    method ResizeSetSize(size: nat) returns (ok: bool)
      requires Valid()
      modifies this`events, this`setsize
      ensures Valid() && ok == Resize(old(State()), size).Some?
      ensures State() == Apply(old(State()), ResizeOp(size))
    {
      if size == setsize { return true; }
      if maxfd >= size { return false; }
      ghost var was := State();
      var bigger := new Slot[size](i requires 0 <= i < size reads this, events =>
        if i < events.Length then events[i] else EmptySlot);
      var i := maxfd + 1;
      while i < size
        invariant maxfd + 1 <= i <= size
        invariant forall k :: 0 <= k < size ==>
          bigger[k] == var s := if k < |was.slots| then was.slots[k] else EmptySlot;
                       if maxfd < k < i then s.(mask := AE_NONE) else s
      {
        bigger[i] := bigger[i].(mask := AE_NONE);
        i := i + 1;
      }
      events := bigger;
      setsize := size;
      assert events[..] == Resized(was, size);
      return true;
    }
  }
}
