/**
  Time events of redis-stable/src/ae.c: the timer list, passes of processTimeEvents with callbacks
  that create and delete timers or run passes of their own, and the sleep of aeProcessEvents.
 */
module Timers {
  import opened Text

  // ----- instants -----------------------------------------------------------

  /** aeGetTime: gettimeofday gives 0 <= ms < 1000. */
  datatype Clock = Clock(sec: int, ms: int)

  predicate Normal(c: Clock) {
    0 <= c.ms < 1000
  }

  function Millis(c: Clock): int {
    1000 * c.sec + c.ms
  }

  /** C division and remainder by 1000, towards zero. */
  function Div1000(x: int): int {
    if x >= 0 then x / 1000 else -((-x) / 1000)
  }

  function Mod1000(x: int): int {
    if x >= 0 then x % 1000 else -((-x) % 1000)
  }

  /** aeAddMillisecondsToNow */
  function AddMs(now: Clock, ms: int): Clock {
    var c := Clock(now.sec + Div1000(ms), now.ms + Mod1000(ms));
    if c.ms >= 1000 then Clock(c.sec + 1, c.ms - 1000) else c
  }

  /** The comparison used for nearest timers: seconds, then milliseconds. */
  predicate Before(a: Clock, b: Clock) {
    a.sec < b.sec || (a.sec == b.sec && a.ms < b.ms)
  }

  /** The sum is the right instant for every delay; it is also normal exactly when the remainder of
      a negative delay does not reach below the current millisecond. */
  lemma AddMsExact(now: Clock, ms: int)
    requires Normal(now)
    ensures Millis(AddMs(now, ms)) == Millis(now) + ms
    ensures Normal(AddMs(now, ms)) <==> now.ms + Mod1000(ms) >= 0
    ensures ms >= 0 ==> Normal(AddMs(now, ms))
  {
  }

  // ----- the timer list -----------------------------------------------------

  /** name is the identifier given at creation; id becomes -1 on deletion. */
  datatype Timer = Timer(name: nat, id: int, due: Clock, refcount: int)

  const DELETED: int := -1

  function Head(list: seq<Timer>): Option<nat> {
    if list == [] then None else Some(list[0].name)
  }

  /** The next pointer of the node at place i. */
  function NextAt(list: seq<Timer>, i: nat): Option<nat>
    requires i < |list|
  {
    Head(list[i + 1..])
  }

  /** Place of a node, or the length when it is not in the list any more. */
  function Place(list: seq<Timer>, name: nat): (i: nat)
    ensures i <= |list| && (i < |list| ==> list[i].name == name)
    ensures i == |list| ==> forall j :: 0 <= j < |list| ==> list[j].name != name
  {
    if list == [] then 0 else if list[0].name == name then 0 else 1 + Place(list[1..], name)
  }

  predicate Linked(list: seq<Timer>, name: nat) {
    Place(list, name) < |list|
  }

  function Unlink(list: seq<Timer>, i: nat): (r: seq<Timer>)
    requires i < |list|
  {
    list[..i] + list[i + 1..]
  }

  // ----- passes -------------------------------------------------------------

  /** Where a pass stands: at the top of its loop with the pointer te; inside the callback of te;
      or inside the finalizer of a node already unlinked, with the saved next pointer. */
  datatype Phase = At(te: Option<nat>) | Calling(timer: nat) | Finalizing(next: Option<nat>)

  datatype Frame = Frame(pass: nat, maxId: int, phase: Phase)

  datatype Firing = Firing(pass: nat, maxId: int, timer: nat)

  /** stack holds the passes in progress, the innermost first; fired and deleted are history. */
  datatype State = State(list: seq<Timer>, nextId: nat, lastTime: int, stack: seq<Frame>, passes: nat,
                         fired: seq<Firing>, deleted: set<nat>)

  function Initial(time: int): State {
    State([], 0, time, [], 0, [], {})
  }

  datatype Event =
    | Create(delay: int, now: Clock)
    | Delete(id: int)
    | StartPass(time: int)
    | Step(now: Clock)
    | Return(retval: int, now: Clock)
    | Finalized

  /** Program code runs outside all passes, in a callback or in a finalizer. */
  predicate InCode(s: State) {
    s.stack == [] || !s.stack[0].phase.At?
  }

  function GoTo(s: State, p: Phase): State
    requires s.stack != []
  {
    s.(stack := [s.stack[0].(phase := p)] + s.stack[1..])
  }

  /** aeCreateTimeEvent: new timers go to the head. */
  function Created(s: State, delay: int, now: Clock): State {
    s.(list := [Timer(s.nextId, s.nextId, AddMs(now, delay), 0)] + s.list, nextId := s.nextId + 1)
  }

  function PlaceOfId(list: seq<Timer>, id: int): (i: nat)
    ensures i <= |list| && (i < |list| ==> list[i].id == id)
    ensures forall j :: 0 <= j < i ==> list[j].id != id
  {
    if list == [] || list[0].id == id then 0 else 1 + PlaceOfId(list[1..], id)
  }

  /** aeDeleteTimeEvent marks the timer; None is AE_ERR. */
  function Marked(s: State, id: int): Option<State> {
    var i := PlaceOfId(s.list, id);
    if i == |s.list| then None
    else Some(s.(list := s.list[i := s.list[i].(id := DELETED)], deleted := s.deleted + {s.list[i].name}))
  }

  /** The clock went back: everything is due at once. */
  function AllAsap(list: seq<Timer>): (r: seq<Timer>)
    ensures |r| == |list|
    ensures forall i :: 0 <= i < |list| ==> r[i] == list[i].(due := list[i].due.(sec := 0))
  {
    if list == [] then [] else [list[0].(due := list[0].due.(sec := 0))] + AllAsap(list[1..])
  }

  /** The beginning of processTimeEvents. */
  function Started(s: State, time: int): State {
    var list := if time < s.lastTime then AllAsap(s.list) else s.list;
    s.(list := list, lastTime := time, passes := s.passes + 1,
       stack := [Frame(s.passes, s.nextId - 1, At(Head(list)))] + s.stack)
  }

  predicate IsDue(t: Timer, now: Clock) {
    now.sec > t.due.sec || (now.sec == t.due.sec && now.ms >= t.due.ms)
  }

  /** One turn of the loop for the timer at place i. */
  function Turn(s: State, i: nat, now: Clock): State
    requires s.stack != [] && i < |s.list|
  {
    var t := s.list[i];
    var next := NextAt(s.list, i);
    if t.id == DELETED then
      if t.refcount != 0 then GoTo(s, At(next))
      else GoTo(s.(list := Unlink(s.list, i)), Finalizing(next))
    else if t.id > s.stack[0].maxId then GoTo(s, At(next))
    else if IsDue(t, now) then
      GoTo(s.(list := s.list[i := t.(refcount := t.refcount + 1)],
              fired := s.fired + [Firing(s.stack[0].pass, s.stack[0].maxId, t.name)]),
           Calling(t.name))
    else GoTo(s, At(next))
  }

  /** The callback came back: reschedule or delete, and go on with the next pointer. */
  function Returned(s: State, i: nat, retval: int, now: Clock): State
    requires s.stack != [] && i < |s.list|
  {
    var t := s.list[i].(refcount := s.list[i].refcount - 1);
    var next := NextAt(s.list, i);
    if retval != -1 then GoTo(s.(list := s.list[i := t.(due := AddMs(now, retval))]), At(next))
    else GoTo(s.(list := s.list[i := t.(id := DELETED)], deleted := s.deleted + {t.name}), At(next))
  }

  /** The next state; None when the event cannot happen, or when a pass would follow a pointer to
      a node that is gone. */
  function Next(s: State, e: Event): Option<State> {
    match e
    case Create(delay, now) => if InCode(s) then Some(Created(s, delay, now)) else None
    case Delete(id) => if InCode(s) then Marked(s, id) else None
    case StartPass(time) => if InCode(s) then Some(Started(s, time)) else None
    case Step(now) =>
      if s.stack == [] || !s.stack[0].phase.At? then None
      else if s.stack[0].phase.te.None? then Some(s.(stack := s.stack[1..]))
      else
        var i := Place(s.list, s.stack[0].phase.te.value);
        if i == |s.list| then None else Some(Turn(s, i, now))
    case Return(retval, now) =>
      if s.stack == [] || !s.stack[0].phase.Calling? then None
      else
        var i := Place(s.list, s.stack[0].phase.timer);
        if i == |s.list| then None else Some(Returned(s, i, retval, now))
    case Finalized =>
      if s.stack == [] || !s.stack[0].phase.Finalizing? then None
      else Some(GoTo(s, At(s.stack[0].phase.next)))
  }

  function Run(s: State, es: seq<Event>): State
    decreases |es|
  {
    if es == [] then s
    else
      var n := Next(s, es[0]);
      Run(if n.Some? then n.value else s, es[1..])
  }

  // ----- the invariant ------------------------------------------------------

  /** Newest first; an identifier is the name until deletion. */
  predicate ListOk(list: seq<Timer>, nextId: nat, deleted: set<nat>) {
    && (forall i, j :: 0 <= i < j < |list| ==> list[i].name > list[j].name)
    && (forall i :: 0 <= i < |list| ==> list[i].name < nextId)
    && (forall i :: 0 <= i < |list| ==> list[i].id == if list[i].name in deleted then DELETED else list[i].name)
    && (forall n :: n in deleted ==> n < nextId)
  }

  function Calls(stack: seq<Frame>, name: nat): nat {
    if stack == [] then 0 else (if stack[0].phase == Calling(name) then 1 else 0) + Calls(stack[1..], name)
  }

  /** refcount is the number of passes inside the timer's callback. */
  predicate RefsOk(list: seq<Timer>, stack: seq<Frame>) {
    forall i :: 0 <= i < |list| ==> list[i].refcount == Calls(stack, list[i].name)
  }

  function Pointer(p: Phase): Option<nat> {
    match p
    case At(te) => te
    case Calling(timer) => Some(timer)
    case Finalizing(next) => next
  }

  /** Timers in a callback are linked, pointers are identifiers already given out, and passes below
      the innermost are in a callback or a finalizer. */
  predicate FramesOk(list: seq<Timer>, stack: seq<Frame>, nextId: nat) {
    && (forall k :: 0 <= k < |stack| ==> stack[k].phase.Calling? ==> Linked(list, stack[k].phase.timer))
    && (forall k :: 0 <= k < |stack| ==> Pointer(stack[k].phase).Some? ==> Pointer(stack[k].phase).value < nextId)
    && (forall k :: 1 <= k < |stack| ==> !stack[k].phase.At?)
  }

  predicate PassesOk(stack: seq<Frame>, passes: nat, nextId: nat) {
    && (forall k :: 0 <= k < |stack| ==> stack[k].pass < passes && stack[k].maxId < nextId)
    && (forall i, j :: 0 <= i < j < |stack| ==> stack[i].pass > stack[j].pass)
  }

  /** What a pass has fired lies before its pointer in the list. */
  predicate Behind(p: Phase, timer: nat) {
    match p
    case At(te) => te.Some? ==> te.value < timer
    case Calling(t) => t <= timer
    case Finalizing(next) => next.Some? ==> next.value < timer
  }

  predicate FiredOk(fired: seq<Firing>, stack: seq<Frame>, passes: nat) {
    && (forall k :: 0 <= k < |fired| ==> fired[k].pass < passes && fired[k].timer <= fired[k].maxId)
    && (forall k, f :: 0 <= k < |fired| && 0 <= f < |stack| && fired[k].pass == stack[f].pass ==>
          Behind(stack[f].phase, fired[k].timer))
    && (forall i, j :: 0 <= i < j < |fired| && fired[i].pass == fired[j].pass ==> fired[i].timer > fired[j].timer)
  }

  /** Holds in every run. */
  predicate Inv(s: State) {
    && ListOk(s.list, s.nextId, s.deleted)
    && RefsOk(s.list, s.stack)
    && FramesOk(s.list, s.stack, s.nextId)
    && PassesOk(s.stack, s.passes, s.nextId)
    && FiredOk(s.fired, s.stack, s.passes)
  }

  // ----- small facts about the list -------------------------------------------

  lemma LinkedAt(list: seq<Timer>, i: nat)
    requires i < |list|
    ensures Linked(list, list[i].name)
  {
  }

  lemma NextFacts(list: seq<Timer>, nextId: nat, deleted: set<nat>, i: nat)
    requires ListOk(list, nextId, deleted) && i < |list|
    ensures NextAt(list, i).Some? ==> Linked(list, NextAt(list, i).value) && NextAt(list, i).value < list[i].name
    ensures NextAt(list, i).Some? ==> Linked(Unlink(list, i), NextAt(list, i).value)
    ensures list[i].name < nextId
  {
    if i + 1 < |list| {
      LinkedAt(list, i + 1);
      assert Unlink(list, i)[i] == list[i + 1];
      LinkedAt(Unlink(list, i), i);
    }
  }

  lemma SameNames(a: seq<Timer>, b: seq<Timer>, name: nat)
    requires |a| == |b| && forall i :: 0 <= i < |a| ==> a[i].name == b[i].name
    ensures Linked(a, name) == Linked(b, name)
  {
    if Linked(a, name) {
      LinkedAt(b, Place(a, name));
    } else if Linked(b, name) {
      LinkedAt(a, Place(b, name));
    }
  }

  lemma StillLinked(list: seq<Timer>, i: nat, name: nat)
    requires i < |list| && Linked(list, name) && name != list[i].name
    ensures Linked(Unlink(list, i), name)
  {
    var j := Place(list, name);
    var k := if j < i then j else j - 1;
    assert Unlink(list, i)[k] == list[j];
    LinkedAt(Unlink(list, i), k);
  }

  lemma LinkedBehindHead(t: Timer, list: seq<Timer>, name: nat)
    requires Linked(list, name)
    ensures Linked([t] + list, name)
  {
    LinkedAt([t] + list, Place(list, name) + 1);
  }

  // ----- lists and frames change, one at a time ---------------------------------

  lemma FramesSameNames(a: seq<Timer>, b: seq<Timer>, stack: seq<Frame>, nextId: nat)
    requires FramesOk(a, stack, nextId) && |a| == |b| && forall i :: 0 <= i < |a| ==> a[i].name == b[i].name
    ensures FramesOk(b, stack, nextId)
  {
    hide Linked;
    forall k | 0 <= k < |stack| && stack[k].phase.Calling? ensures Linked(b, stack[k].phase.timer) {
      SameNames(a, b, stack[k].phase.timer);
    }
  }

  /** Marking the timer at place i as deleted. */
  lemma MarkKeepsList(list: seq<Timer>, nextId: nat, deleted: set<nat>, i: nat, t: Timer)
    requires ListOk(list, nextId, deleted) && i < |list| && t.name == list[i].name && t.id == DELETED
    ensures ListOk(list[i := t], nextId, deleted + {t.name})
  {
  }

  lemma UpdateKeepsList(list: seq<Timer>, nextId: nat, deleted: set<nat>, i: nat, t: Timer)
    requires ListOk(list, nextId, deleted) && i < |list| && t.name == list[i].name && t.id == list[i].id
    ensures ListOk(list[i := t], nextId, deleted)
  {
  }

  lemma UnlinkKeepsList(list: seq<Timer>, nextId: nat, deleted: set<nat>, i: nat)
    requires ListOk(list, nextId, deleted) && i < |list|
    ensures ListOk(Unlink(list, i), nextId, deleted)
  {
    var r := Unlink(list, i);
    assert forall j :: 0 <= j < |r| ==> r[j] == list[if j < i then j else j + 1];
  }

  lemma UnlinkKeepsRefs(list: seq<Timer>, stack: seq<Frame>, i: nat)
    requires RefsOk(list, stack) && i < |list|
    ensures RefsOk(Unlink(list, i), stack)
  {
    var r := Unlink(list, i);
    assert forall j :: 0 <= j < |r| ==> r[j] == list[if j < i then j else j + 1];
  }

  /** A node nobody is inside can be unlinked. */
  lemma UnlinkKeepsFrames(list: seq<Timer>, stack: seq<Frame>, nextId: nat, i: nat)
    requires FramesOk(list, stack, nextId) && i < |list| && Calls(stack, list[i].name) == 0
    ensures FramesOk(Unlink(list, i), stack, nextId)
  {
    hide Linked;
    hide Unlink;
    forall k | 0 <= k < |stack| && stack[k].phase.Calling?
      ensures Linked(Unlink(list, i), stack[k].phase.timer)
    {
      NotCalled(stack, k, list[i].name);
      StillLinked(list, i, stack[k].phase.timer);
    }
  }

  lemma {:induction false} NotCalled(stack: seq<Frame>, k: nat, name: nat)
    requires k < |stack| && Calls(stack, name) == 0
    ensures stack[k].phase != Calling(name)
  {
    if k > 0 {
      NotCalled(stack[1..], k - 1, name);
    }
  }

  /** The innermost pass moves to another phase. */
  lemma MoveFrames(list: seq<Timer>, stack: seq<Frame>, nextId: nat, p: Phase)
    requires stack != [] && FramesOk(list, stack, nextId)
    requires p.Calling? ==> Linked(list, p.timer)
    requires Pointer(p).Some? ==> Pointer(p).value < nextId
    ensures FramesOk(list, [stack[0].(phase := p)] + stack[1..], nextId)
  {
    hide Linked;
  }

  lemma MovePasses(stack: seq<Frame>, passes: nat, nextId: nat, p: Phase)
    requires stack != [] && PassesOk(stack, passes, nextId)
    ensures PassesOk([stack[0].(phase := p)] + stack[1..], passes, nextId)
  {
  }

  lemma MoveFired(fired: seq<Firing>, stack: seq<Frame>, passes: nat, p: Phase)
    requires stack != [] && FiredOk(fired, stack, passes)
    requires forall k :: 0 <= k < |fired| && fired[k].pass == stack[0].pass ==> Behind(p, fired[k].timer)
    ensures FiredOk(fired, [stack[0].(phase := p)] + stack[1..], passes)
  {
    var moved := [stack[0].(phase := p)] + stack[1..];
    assert forall f :: 1 <= f < |moved| ==> moved[f] == stack[f];
  }

  /** Leaving or entering a callback changes one reference count. */
  lemma MoveRefs(list: seq<Timer>, stack: seq<Frame>, p: Phase, i: nat, t: Timer)
    requires stack != [] && RefsOk(list, stack) && i < |list| && t.name == list[i].name
    requires forall j :: 0 <= j < |list| && j != i ==> list[j].name != t.name
    requires forall n: nat :: p == Calling(n) || stack[0].phase == Calling(n) ==> n == t.name
    requires t.refcount == list[i].refcount + (if p.Calling? then 1 else 0) - (if stack[0].phase.Calling? then 1 else 0)
    ensures RefsOk(list[i := t], [stack[0].(phase := p)] + stack[1..])
  {
    var moved := [stack[0].(phase := p)] + stack[1..];
    assert moved[1..] == stack[1..];
  }

  lemma SameRefs(list: seq<Timer>, stack: seq<Frame>, p: Phase)
    requires stack != [] && RefsOk(list, stack) && !p.Calling? && !stack[0].phase.Calling?
    ensures RefsOk(list, [stack[0].(phase := p)] + stack[1..])
  {
    var moved := [stack[0].(phase := p)] + stack[1..];
    assert moved[1..] == stack[1..];
  }

  lemma UpdateRefs(a: seq<Timer>, b: seq<Timer>, stack: seq<Frame>)
    requires RefsOk(a, stack) && |a| == |b|
    requires forall i :: 0 <= i < |a| ==> a[i].name == b[i].name && a[i].refcount == b[i].refcount
    ensures RefsOk(b, stack)
  {
  }

  // ----- every event keeps the invariant ----------------------------------------

  lemma {:induction false} NotInside(list: seq<Timer>, stack: seq<Frame>, name: nat)
    requires !Linked(list, name)
    requires forall k :: 0 <= k < |stack| ==> stack[k].phase.Calling? ==> Linked(list, stack[k].phase.timer)
    ensures Calls(stack, name) == 0
  {
    hide Linked;
    if stack != [] {
      assert stack[0].phase != Calling(name);
      assert forall k :: 0 <= k < |stack[1..]| ==> stack[1..][k] == stack[k + 1];
      NotInside(list, stack[1..], name);
    }
  }

  lemma CreateKeepsInv(s: State, delay: int, now: Clock)
    requires Inv(s)
    ensures Inv(Created(s, delay, now))
  {
    hide FiredOk;
    hide Linked;
    hide AddMs;
    var t := Timer(s.nextId, s.nextId, AddMs(now, delay), 0);
    assert !Linked(s.list, s.nextId) by { NotYet(s.list, s.nextId, s.deleted); }
    NotInside(s.list, s.stack, s.nextId);
    forall k | 0 <= k < |s.stack| && s.stack[k].phase.Calling?
      ensures Linked([t] + s.list, s.stack[k].phase.timer)
    {
      LinkedBehindHead(t, s.list, s.stack[k].phase.timer);
    }
  }

  lemma NotYet(list: seq<Timer>, nextId: nat, deleted: set<nat>)
    requires ListOk(list, nextId, deleted)
    ensures !Linked(list, nextId)
  {
  }

  lemma DeleteKeepsInv(s: State, id: int)
    requires Inv(s) && Marked(s, id).Some?
    ensures Inv(Marked(s, id).value)
  {
    hide FiredOk;
    hide PassesOk;
    hide ListOk;
    hide RefsOk;
    hide FramesOk;
    var i := PlaceOfId(s.list, id);
    var t := s.list[i].(id := DELETED);
    MarkKeepsList(s.list, s.nextId, s.deleted, i, t);
    UpdateRefs(s.list, s.list[i := t], s.stack);
    FramesSameNames(s.list, s.list[i := t], s.stack, s.nextId);
  }

  lemma StartKeepsInv(s: State, time: int)
    requires Inv(s) && InCode(s)
    ensures Inv(Started(s, time))
  {
    hide Linked;
    hide AllAsap;
    hide ListOk;
    hide RefsOk;
    hide FramesOk;
    hide PassesOk;
    hide FiredOk;
    var list := if time < s.lastTime then AllAsap(s.list) else s.list;
    var f := Frame(s.passes, s.nextId - 1, At(Head(list)));
    AsapKeepsList(s.list, s.nextId, s.deleted);
    UpdateRefs(s.list, list, s.stack);
    PushRefs(list, s.stack, f);
    FramesSameNames(s.list, list, s.stack, s.nextId);
    HeadIsOld(list, s.nextId, s.deleted);
    PushFrames(list, s.stack, s.nextId, f);
    PushPasses(s.stack, s.passes, s.nextId, f);
    PushFired(s.fired, s.stack, s.passes, f);
  }

  lemma HeadIsOld(list: seq<Timer>, nextId: nat, deleted: set<nat>)
    requires ListOk(list, nextId, deleted)
    ensures Head(list).Some? ==> Head(list).value < nextId && Linked(list, Head(list).value)
  {
    if list != [] {
      LinkedAt(list, 0);
    }
  }

  lemma PushPasses(stack: seq<Frame>, passes: nat, nextId: nat, f: Frame)
    requires PassesOk(stack, passes, nextId) && f.pass == passes && f.maxId < nextId
    ensures PassesOk([f] + stack, passes + 1, nextId)
  {
  }

  lemma AsapKeepsList(list: seq<Timer>, nextId: nat, deleted: set<nat>)
    requires ListOk(list, nextId, deleted)
    ensures ListOk(AllAsap(list), nextId, deleted)
  {
  }

  lemma PushRefs(list: seq<Timer>, stack: seq<Frame>, f: Frame)
    requires RefsOk(list, stack) && !f.phase.Calling?
    ensures RefsOk(list, [f] + stack)
  {
    assert ([f] + stack)[1..] == stack;
  }

  lemma PushFrames(list: seq<Timer>, stack: seq<Frame>, nextId: nat, f: Frame)
    requires FramesOk(list, stack, nextId) && (stack == [] || !stack[0].phase.At?)
    requires f.phase.At? && (f.phase.te.Some? ==> f.phase.te.value < nextId)
    ensures FramesOk(list, [f] + stack, nextId)
  {
    hide Linked;
    var more := [f] + stack;
    assert forall k :: 1 <= k < |more| ==> more[k] == stack[k - 1];
  }

  lemma PushFired(fired: seq<Firing>, stack: seq<Frame>, passes: nat, f: Frame)
    requires FiredOk(fired, stack, passes) && f.pass == passes
    ensures FiredOk(fired, [f] + stack, passes + 1)
  {
    var more := [f] + stack;
    assert forall k :: 1 <= k < |more| ==> more[k] == stack[k - 1];
  }

  lemma PopKeepsInv(s: State)
    requires Inv(s) && s.stack != [] && !s.stack[0].phase.Calling?
    ensures Inv(s.(stack := s.stack[1..]))
  {
    var rest := s.stack[1..];
    assert forall k :: 0 <= k < |rest| ==> rest[k] == s.stack[k + 1];
  }

  /** Going on with the next pointer. */
  lemma SkipKeepsInv(s: State, i: nat)
    requires Inv(s) && s.stack != [] && i < |s.list| && s.stack[0].phase == At(Some(s.list[i].name))
    ensures Inv(GoTo(s, At(NextAt(s.list, i))))
  {
    hide Linked;
    hide NextAt;
    var p := At(NextAt(s.list, i));
    NextFacts(s.list, s.nextId, s.deleted, i);
    MoveFrames(s.list, s.stack, s.nextId, p);
    MovePasses(s.stack, s.passes, s.nextId, p);
    MoveFired(s.fired, s.stack, s.passes, p);
    SameRefs(s.list, s.stack, p);
    hide ListOk;
    hide RefsOk;
    hide FramesOk;
    hide PassesOk;
    hide FiredOk;
  }

  lemma UnlinkKeepsInv(s: State, i: nat)
    requires Inv(s) && s.stack != [] && i < |s.list| && s.stack[0].phase == At(Some(s.list[i].name))
    requires s.list[i].refcount == 0
    ensures Inv(GoTo(s.(list := Unlink(s.list, i)), Finalizing(NextAt(s.list, i))))
  {
    hide Linked;
    hide NextAt;
    hide Unlink;
    var p := Finalizing(NextAt(s.list, i));
    var list := Unlink(s.list, i);
    assert Calls(s.stack, s.list[i].name) == 0;
    NextFacts(s.list, s.nextId, s.deleted, i);
    UnlinkKeepsFrames(s.list, s.stack, s.nextId, i);
    MoveFrames(list, s.stack, s.nextId, p);
    MovePasses(s.stack, s.passes, s.nextId, p);
    MoveFired(s.fired, s.stack, s.passes, p);
    UnlinkKeepsList(s.list, s.nextId, s.deleted, i);
    UnlinkKeepsRefs(s.list, s.stack, i);
    SameRefs(list, s.stack, p);
    hide ListOk;
    hide RefsOk;
    hide FramesOk;
    hide PassesOk;
    hide FiredOk;
  }

  lemma FireKeepsInv(s: State, i: nat)
    requires Inv(s) && s.stack != [] && i < |s.list| && s.stack[0].phase == At(Some(s.list[i].name))
    requires s.list[i].id != DELETED && s.list[i].id <= s.stack[0].maxId
    ensures var t := s.list[i];
            Inv(GoTo(s.(list := s.list[i := t.(refcount := t.refcount + 1)],
                        fired := s.fired + [Firing(s.stack[0].pass, s.stack[0].maxId, t.name)]), Calling(t.name)))
  {
    hide Linked;
    var t := s.list[i].(refcount := s.list[i].refcount + 1);
    var list := s.list[i := t];
    var p := Calling(t.name);
    UpdateKeepsList(s.list, s.nextId, s.deleted, i, t);
    MoveRefs(s.list, s.stack, p, i, t);
    FramesSameNames(s.list, list, s.stack, s.nextId);
    LinkedAt(list, i);
    MoveFrames(list, s.stack, s.nextId, p);
    MovePasses(s.stack, s.passes, s.nextId, p);
    FireOne(s.fired, s.stack, s.passes, s.list[i].name);
    hide ListOk;
    hide RefsOk;
    hide FramesOk;
    hide PassesOk;
    hide FiredOk;
  }

  lemma FireOne(fired: seq<Firing>, stack: seq<Frame>, passes: nat, name: nat)
    requires stack != [] && FiredOk(fired, stack, passes) && stack[0].phase == At(Some(name)) && name <= stack[0].maxId
    requires stack[0].pass < passes && forall k :: 1 <= k < |stack| ==> stack[k].pass < stack[0].pass
    ensures FiredOk(fired + [Firing(stack[0].pass, stack[0].maxId, name)],
                    [stack[0].(phase := Calling(name))] + stack[1..], passes)
  {
    var p := Calling(name);
    MoveFired(fired, stack, passes, p);
    var moved := [stack[0].(phase := p)] + stack[1..];
    assert forall k :: 1 <= k < |moved| ==> moved[k] == stack[k];
  }

  lemma TurnKeepsInv(s: State, i: nat, now: Clock)
    requires Inv(s) && s.stack != [] && i < |s.list| && s.stack[0].phase == At(Some(s.list[i].name))
    ensures Inv(Turn(s, i, now))
  {
    hide Inv;
    hide IsDue;
    var t := s.list[i];
    if t.id == DELETED && t.refcount == 0 {
      UnlinkKeepsInv(s, i);
    } else if t.id != DELETED && t.id <= s.stack[0].maxId && IsDue(t, now) {
      FireKeepsInv(s, i);
    } else {
      SkipKeepsInv(s, i);
    }
  }

  lemma ReturnKeepsInv(s: State, i: nat, retval: int, now: Clock)
    requires Inv(s) && s.stack != [] && i < |s.list| && s.stack[0].phase == Calling(s.list[i].name)
    ensures Inv(Returned(s, i, retval, now))
  {
    hide Linked;
    hide NextAt;
    hide AddMs;
    var u := s.list[i].(refcount := s.list[i].refcount - 1);
    var t := if retval != -1 then u.(due := AddMs(now, retval)) else u.(id := DELETED);
    var p := At(NextAt(s.list, i));
    if retval != -1 {
      UpdateKeepsList(s.list, s.nextId, s.deleted, i, t);
    } else {
      MarkKeepsList(s.list, s.nextId, s.deleted, i, t);
    }
    NextFacts(s.list, s.nextId, s.deleted, i);
    MoveRefs(s.list, s.stack, p, i, t);
    MoveFrames(s.list, s.stack, s.nextId, p);
    FramesSameNames(s.list, s.list[i := t], [s.stack[0].(phase := p)] + s.stack[1..], s.nextId);
    MovePasses(s.stack, s.passes, s.nextId, p);
    MoveFired(s.fired, s.stack, s.passes, p);
    hide ListOk;
    hide RefsOk;
    hide FramesOk;
    hide PassesOk;
    hide FiredOk;
  }

  lemma FinalizedKeepsInv(s: State)
    requires Inv(s) && s.stack != [] && s.stack[0].phase.Finalizing?
    ensures Inv(GoTo(s, At(s.stack[0].phase.next)))
  {
    hide Linked;
    var p := At(s.stack[0].phase.next);
    MoveFrames(s.list, s.stack, s.nextId, p);
    MovePasses(s.stack, s.passes, s.nextId, p);
    MoveFired(s.fired, s.stack, s.passes, p);
    SameRefs(s.list, s.stack, p);
    hide ListOk;
    hide RefsOk;
    hide FramesOk;
    hide PassesOk;
    hide FiredOk;
  }

  lemma NextKeepsInv(s: State, e: Event)
    requires Inv(s) && Next(s, e).Some?
    ensures Inv(Next(s, e).value)
  {
    hide Inv;
    hide Turn;
    hide Returned;
    hide Started;
    hide Created;
    hide Marked;
    match e
    case Create(delay, now) => CreateKeepsInv(s, delay, now);
    case Delete(id) => DeleteKeepsInv(s, id);
    case StartPass(time) => StartKeepsInv(s, time);
    case Step(now) =>
      if s.stack[0].phase.te.None? {
        PopKeepsInv(s);
      } else {
        TurnKeepsInv(s, Place(s.list, s.stack[0].phase.te.value), now);
      }
    case Return(retval, now) =>
      ReturnKeepsInv(s, Place(s.list, s.stack[0].phase.timer), retval, now);
    case Finalized => FinalizedKeepsInv(s);
  }

  lemma {:induction false} RunKeepsInv(s: State, es: seq<Event>)
    requires Inv(s)
    ensures Inv(Run(s, es))
    decreases |es|
  {
    if es != [] {
      var n := Next(s, es[0]);
      if n.Some? {
        NextKeepsInv(s, es[0]);
        RunKeepsInv(n.value, es[1..]);
      } else {
        RunKeepsInv(s, es[1..]);
      }
    }
  }

  // ----- what holds over every run ------------------------------------------------

  lemma InitialInv(time: int)
    ensures Inv(Initial(time))
  {
  }

  /** In every run, with callbacks and finalizers that create, delete and run passes of their own: a
      pass fires a timer at most once and only timers that existed when the pass began, and a timer
      whose callback is running is there when the callback returns. */
  lemma EveryRun(time: int, es: seq<Event>, now: Clock, retval: int)
    ensures var s := Run(Initial(time), es);
            && (forall i, j :: 0 <= i < j < |s.fired| && s.fired[i].pass == s.fired[j].pass ==>
                  s.fired[i].timer != s.fired[j].timer)
            && (forall i :: 0 <= i < |s.fired| ==> s.fired[i].timer <= s.fired[i].maxId)
            && (s.stack != [] && s.stack[0].phase.Calling? ==> Next(s, Return(retval, now)).Some?)
  {
    InitialInv(time);
    RunKeepsInv(Initial(time), es);
    var s := Run(Initial(time), es);
    hide Run;
    hide ListOk;
    hide RefsOk;
    hide PassesOk;
    if s.stack != [] && s.stack[0].phase.Calling? {
      assert Linked(s.list, s.stack[0].phase.timer);
    }
  }

  function Firings(fired: seq<Firing>, name: nat): nat {
    if fired == [] then 0
    else Firings(fired[..|fired| - 1], name) + if fired[|fired| - 1].timer == name then 1 else 0
  }

  lemma OneMore(fired: seq<Firing>, f: Firing, name: nat)
    ensures Firings(fired + [f], name) == Firings(fired, name) + if f.timer == name then 1 else 0
  {
    assert (fired + [f])[..|fired|] == fired;
  }

  lemma DeletedStays(s: State, e: Event, name: nat)
    requires Inv(s) && Next(s, e).Some? && name in s.deleted
    ensures name in Next(s, e).value.deleted
    ensures Firings(Next(s, e).value.fired, name) == Firings(s.fired, name)
  {
    hide RefsOk;
    hide FramesOk;
    hide PassesOk;
    hide FiredOk;
    hide Firings;
    if e.Step? && s.stack[0].phase.te.Some? {
      var i := Place(s.list, s.stack[0].phase.te.value);
      OneMore(s.fired, Firing(s.stack[0].pass, s.stack[0].maxId, s.list[i].name), name);
    }
  }

  /** A timer deleted by aeDeleteTimeEvent, also from its own callback, or by its callback's return
      value, never fires again. */
  lemma {:induction false} DeletedNeverFires(s: State, es: seq<Event>, name: nat)
    requires Inv(s) && name in s.deleted
    ensures Firings(Run(s, es).fired, name) == Firings(s.fired, name)
    decreases |es|
  {
    if es != [] {
      var n := Next(s, es[0]);
      if n.Some? {
        NextKeepsInv(s, es[0]);
        DeletedStays(s, es[0], name);
        DeletedNeverFires(n.value, es[1..], name);
      } else {
        DeletedNeverFires(s, es[1..], name);
      }
    }
  }

  /** Deleting a timer that is in the list marks exactly that one. */
  lemma DeleteMarks(s: State, name: nat)
    requires Inv(s) && Linked(s.list, name) && name !in s.deleted
    ensures Marked(s, name).Some? && Marked(s, name).value.deleted == s.deleted + {name}
  {
    var i := Place(s.list, name);
    assert s.list[i].id == name;
    var k := PlaceOfId(s.list, name);
    assert k <= i;
  }

  /** A node some callback is running for is never unlinked. */
  lemma HeldStaysLinked(s: State, e: Event, i: nat)
    requires Inv(s) && i < |s.list| && s.list[i].refcount > 0 && Next(s, e).Some?
    ensures Linked(Next(s, e).value.list, s.list[i].name)
  {
    hide RefsOk;
    hide FramesOk;
    hide PassesOk;
    hide FiredOk;
    hide AllAsap;
    var n := Next(s, e).value;
    LinkedAt(s.list, i);
    if e.Create? {
      LinkedBehindHead(n.list[0], s.list, s.list[i].name);
    } else if |n.list| == |s.list| {
      SameNames(s.list, n.list, s.list[i].name);
    } else {
      StillLinked(s.list, Place(s.list, s.stack[0].phase.te.value), s.list[i].name);
    }
  }

  // ----- finalizers that run passes -----------------------------------------------

  /** No pass holds a pointer to a node that is gone. */
  predicate PointersOk(list: seq<Timer>, stack: seq<Frame>) {
    forall k :: 0 <= k < |stack| ==> PointerOk(list, stack[k].phase)
  }

  predicate PointerOk(list: seq<Timer>, p: Phase) {
    Pointer(p).Some? ==> Linked(list, Pointer(p).value)
  }

  /** The step that frees the node which an outer pass, inside a finalizer, saved as its next. */
  predicate FreesSaved(s: State, e: Event) {
    && e.Step? && s.stack != [] && s.stack[0].phase.At? && s.stack[0].phase.te.Some?
    && var i := Place(s.list, s.stack[0].phase.te.value);
       && i < |s.list| && s.list[i].id == DELETED && s.list[i].refcount == 0
       && exists k :: 1 <= k < |s.stack| && s.stack[k].phase == Finalizing(Some(s.list[i].name))
  }

  predicate NeverFreesSaved(s: State, es: seq<Event>)
    decreases |es|
  {
    es == [] ||
    (!FreesSaved(s, es[0]) &&
     var n := Next(s, es[0]);
     NeverFreesSaved(if n.Some? then n.value else s, es[1..]))
  }

  lemma PointersSameNames(a: seq<Timer>, b: seq<Timer>, stack: seq<Frame>)
    requires PointersOk(a, stack) && |a| == |b| && forall i :: 0 <= i < |a| ==> a[i].name == b[i].name
    ensures PointersOk(b, stack)
  {
    hide Linked;
    forall k | 0 <= k < |stack| && Pointer(stack[k].phase).Some?
      ensures Linked(b, Pointer(stack[k].phase).value)
    {
      assert PointerOk(a, stack[k].phase);
      SameNames(a, b, Pointer(stack[k].phase).value);
    }
  }

  lemma PointersGrow(t: Timer, list: seq<Timer>, stack: seq<Frame>)
    requires PointersOk(list, stack)
    ensures PointersOk([t] + list, stack)
  {
    hide Linked;
    forall k | 0 <= k < |stack| && Pointer(stack[k].phase).Some?
      ensures Linked([t] + list, Pointer(stack[k].phase).value)
    {
      assert PointerOk(list, stack[k].phase);
      LinkedBehindHead(t, list, Pointer(stack[k].phase).value);
    }
  }

  lemma PointersCons(list: seq<Timer>, f: Frame, rest: seq<Frame>)
    ensures PointersOk(list, [f] + rest) <==> PointerOk(list, f.phase) && PointersOk(list, rest)
  {
    hide PointerOk;
    var all := [f] + rest;
    if PointersOk(list, all) {
      assert all[0] == f;
      forall k | 0 <= k < |rest| ensures PointerOk(list, rest[k].phase) {
        assert all[k + 1] == rest[k];
      }
    }
  }

  lemma UnlinkPointerIff(list: seq<Timer>, p: Phase, i: nat)
    requires i < |list| && PointerOk(list, p) && !p.At? && p != Calling(list[i].name)
    requires forall j :: 0 <= j < |list| && j != i ==> list[j].name != list[i].name
    ensures PointerOk(Unlink(list, i), p) <==> p != Finalizing(Some(list[i].name))
  {
    hide Linked;
    hide Unlink;
    UnlinkedIsGone(list, i);
    if Pointer(p).Some? && Pointer(p).value != list[i].name {
      StillLinked(list, i, Pointer(p).value);
    }
  }

  /** After unlinking, the outer passes are fine exactly when none of them saved this node. */
  lemma UnlinkPointersIff(list: seq<Timer>, rest: seq<Frame>, i: nat)
    requires PointersOk(list, rest) && i < |list| && Calls(rest, list[i].name) == 0
    requires forall j :: 0 <= j < |list| && j != i ==> list[j].name != list[i].name
    requires forall k :: 0 <= k < |rest| ==> !rest[k].phase.At?
    ensures PointersOk(Unlink(list, i), rest) <==>
            !exists k :: 0 <= k < |rest| && rest[k].phase == Finalizing(Some(list[i].name))
  {
    hide PointerOk;
    hide Unlink;
    forall k | 0 <= k < |rest|
      ensures PointerOk(Unlink(list, i), rest[k].phase) <==> rest[k].phase != Finalizing(Some(list[i].name))
    {
      NotCalled(rest, k, list[i].name);
      UnlinkPointerIff(list, rest[k].phase, i);
    }
  }

  lemma UnlinkedIsGone(list: seq<Timer>, i: nat)
    requires i < |list| && forall j :: 0 <= j < |list| && j != i ==> list[j].name != list[i].name
    ensures !Linked(Unlink(list, i), list[i].name)
  {
    var r := Unlink(list, i);
    assert forall j :: 0 <= j < |r| ==> r[j] == list[if j < i then j else j + 1];
  }

  lemma TurnPointers(s: State, i: nat, now: Clock)
    requires Inv(s) && PointersOk(s.list, s.stack) && s.stack != [] && i < |s.list|
    requires s.stack[0].phase == At(Some(s.list[i].name)) && Place(s.list, s.list[i].name) == i
    ensures PointersOk(Turn(s, i, now).list, Turn(s, i, now).stack) <==> !FreesSaved(s, Step(now))
  {
    hide Linked;
    hide NextAt;
    hide Unlink;
    hide FiredOk;
    hide PassesOk;
    hide Place;
    hide PointersOk;
    hide PointerOk;
    var rest, t := s.stack[1..], s.list[i];
    assert s.stack == [s.stack[0]] + rest;
    PointersCons(s.list, s.stack[0], rest);
    NextFacts(s.list, s.nextId, s.deleted, i);
    NextPointer(s.list, i);
    assert forall k :: 0 <= k < |rest| ==> rest[k] == s.stack[k + 1];
    if t.id == DELETED && t.refcount == 0 {
      assert Calls(rest, t.name) == 0;
      UnlinkPointersIff(s.list, rest, i);
      PointersCons(Unlink(s.list, i), s.stack[0].(phase := Finalizing(NextAt(s.list, i))), rest);
      SavedInRest(s, now, i);
    } else if t.id != DELETED && t.id <= s.stack[0].maxId && IsDue(t, now) {
      var list := s.list[i := t.(refcount := t.refcount + 1)];
      PointersSameNames(s.list, list, rest);
      LinkedAt(list, i);
      CallingPointer(list, t.name);
      PointersCons(list, s.stack[0].(phase := Calling(t.name)), rest);
    } else {
      PointersCons(s.list, s.stack[0].(phase := At(NextAt(s.list, i))), rest);
    }
  }

  lemma NextPointer(list: seq<Timer>, i: nat)
    requires i < |list|
    requires NextAt(list, i).Some? ==> Linked(list, NextAt(list, i).value) && Linked(Unlink(list, i), NextAt(list, i).value)
    ensures PointerOk(list, At(NextAt(list, i))) && PointerOk(Unlink(list, i), Finalizing(NextAt(list, i)))
  {
  }

  lemma CallingPointer(list: seq<Timer>, name: nat)
    requires Linked(list, name)
    ensures PointerOk(list, Calling(name))
  {
  }

  lemma SavedInRest(s: State, now: Clock, i: nat)
    requires s.stack != [] && i < |s.list| && Place(s.list, s.list[i].name) == i
    requires s.stack[0].phase == At(Some(s.list[i].name)) && s.list[i].id == DELETED && s.list[i].refcount == 0
    ensures FreesSaved(s, Step(now)) <==>
            exists k :: 0 <= k < |s.stack[1..]| && s.stack[1..][k].phase == Finalizing(Some(s.list[i].name))
  {
    var rest := s.stack[1..];
    if FreesSaved(s, Step(now)) {
      var k :| 1 <= k < |s.stack| && s.stack[k].phase == Finalizing(Some(s.list[i].name));
      assert rest[k - 1] == s.stack[k];
    }
    if k :| 0 <= k < |rest| && rest[k].phase == Finalizing(Some(s.list[i].name)) {
      assert s.stack[k + 1] == rest[k];
    }
  }

  /** The events that cannot free anything. */
  lemma OthersKeepPointers(s: State, e: Event)
    requires Inv(s) && PointersOk(s.list, s.stack) && Next(s, e).Some? && !e.Step?
    ensures PointersOk(Next(s, e).value.list, Next(s, e).value.stack)
  {
    hide Linked;
    hide NextAt;
    hide PointersOk;
    hide PointerOk;
    hide AllAsap;
    hide AddMs;
    hide FiredOk;
    hide PassesOk;
    hide RefsOk;
    match e
    case Create(delay, now) => PointersGrow(Next(s, e).value.list[0], s.list, s.stack);
    case Delete(id) => PointersSameNames(s.list, Next(s, e).value.list, s.stack);
    case StartPass(time) =>
      var n := Next(s, e).value;
      PointersSameNames(s.list, n.list, s.stack);
      HeadPointer(n.list);
      PointersCons(n.list, n.stack[0], s.stack);
    case Return(retval, now) =>
      var i := Place(s.list, s.stack[0].phase.timer);
      var n := Next(s, e).value;
      assert s.stack == [s.stack[0]] + s.stack[1..];
      PointersCons(s.list, s.stack[0], s.stack[1..]);
      NextFacts(s.list, s.nextId, s.deleted, i);
      NextPointer(s.list, i);
      PointersCons(s.list, n.stack[0], s.stack[1..]);
      PointersSameNames(s.list, n.list, n.stack);
    case Finalized =>
      assert s.stack == [s.stack[0]] + s.stack[1..];
      PointersCons(s.list, s.stack[0], s.stack[1..]);
      PointersCons(s.list, Next(s, e).value.stack[0], s.stack[1..]);
      SavedPointer(s.list, s.stack[0].phase.next);
  }

  lemma HeadPointer(list: seq<Timer>)
    ensures PointerOk(list, At(Head(list)))
  {
    if list != [] {
      LinkedAt(list, 0);
    }
  }

  lemma SavedPointer(list: seq<Timer>, next: Option<nat>)
    ensures PointerOk(list, At(next)) == PointerOk(list, Finalizing(next))
  {
  }

  /** The exact condition, step by step: from valid pointers, only freeing a saved node loses them. */
  lemma PointersStep(s: State, e: Event)
    requires Inv(s) && PointersOk(s.list, s.stack) && Next(s, e).Some?
    ensures PointersOk(Next(s, e).value.list, Next(s, e).value.stack) <==> !FreesSaved(s, e)
  {
    hide PointersOk;
    hide PointerOk;
    hide Turn;
    hide Inv;
    if !e.Step? {
      OthersKeepPointers(s, e);
    } else if s.stack[0].phase.te.None? {
      assert s.stack == [s.stack[0]] + s.stack[1..];
      PointersCons(s.list, s.stack[0], s.stack[1..]);
    } else {
      TurnPointers(s, Place(s.list, s.stack[0].phase.te.value), e.now);
    }
  }

  /** A pass that lost its node stays where it is for good. */
  predicate Dangling(s: State, k: nat) {
    && k < |s.stack|
    && !s.stack[|s.stack| - 1 - k].phase.Calling?
    && !PointerOk(s.list, s.stack[|s.stack| - 1 - k].phase)
  }

  /** Linked nodes after an event were linked before, or are new. */
  lemma NothingComesBack(s: State, e: Event, name: nat)
    requires Next(s, e).Some? && name < s.nextId
    ensures Linked(Next(s, e).value.list, name) ==> Linked(s.list, name)
  {
    hide AllAsap;
    hide AddMs;
    var n := Next(s, e).value;
    if Linked(n.list, name) {
      var j := Place(n.list, name);
      if e.Create? {
        LinkedAt(s.list, j - 1);
      } else if |n.list| == |s.list| {
        SameNames(s.list, n.list, name);
      } else {
        var i := Place(s.list, s.stack[0].phase.te.value);
        LinkedAt(s.list, if j < i then j else j + 1);
      }
    }
  }

  lemma DanglingStays(s: State, e: Event, k: nat)
    requires Inv(s) && Dangling(s, k) && Next(s, e).Some?
    ensures Dangling(Next(s, e).value, k)
  {
    hide ListOk;
    hide RefsOk;
    hide PassesOk;
    hide FiredOk;
    hide Linked;
    hide AllAsap;
    hide AddMs;
    hide NextAt;
    var f := s.stack[|s.stack| - 1 - k];
    NothingComesBack(s, e, Pointer(f.phase).value);
    StepNeedsNode(s, e);
  }

  lemma StepNeedsNode(s: State, e: Event)
    ensures e.Step? && Next(s, e).Some? && s.stack[0].phase.te.Some? ==> Linked(s.list, s.stack[0].phase.te.value)
  {
  }

  lemma DanglingIff(s: State)
    requires Inv(s)
    ensures PointersOk(s.list, s.stack) <==> !exists k: nat :: Dangling(s, k)
  {
    hide Linked;
    if !PointersOk(s.list, s.stack) {
      var k :| 0 <= k < |s.stack| && !PointerOk(s.list, s.stack[k].phase);
      assert Dangling(s, |s.stack| - 1 - k);
    }
  }

  lemma {:induction false} RunStaysDangling(s: State, es: seq<Event>, k: nat)
    requires Inv(s) && Dangling(s, k)
    ensures Dangling(Run(s, es), k)
    decreases |es|
  {
    hide Inv;
    hide Dangling;
    if es != [] {
      var n := Next(s, es[0]);
      if n.Some? {
        NextKeepsInv(s, es[0]);
        DanglingStays(s, es[0], k);
        RunStaysDangling(n.value, es[1..], k);
      } else {
        RunStaysDangling(s, es[1..], k);
      }
    }
  }

  /** The exact condition over runs: after any events no pass points to a freed node if and only if
      no step freed the node that an outer pass, inside a finalizer, had saved as its next. */
  lemma {:induction false} PointersIff(s: State, es: seq<Event>)
    requires Inv(s) && PointersOk(s.list, s.stack)
    ensures PointersOk(Run(s, es).list, Run(s, es).stack) <==> NeverFreesSaved(s, es)
    decreases |es|
  {
    hide Inv;
    hide Dangling;
    hide PointersOk;
    hide FreesSaved;
    if es != [] {
      var n := Next(s, es[0]);
      if n.None? {
        FreeingIsAStep(s, es[0]);
        PointersIff(s, es[1..]);
      } else {
        NextKeepsInv(s, es[0]);
        PointersStep(s, es[0]);
        if FreesSaved(s, es[0]) {
          DanglingIff(n.value);
          var k: nat :| Dangling(n.value, k);
          RunStaysDangling(n.value, es[1..], k);
          RunKeepsInv(n.value, es[1..]);
          DanglingIff(Run(n.value, es[1..]));
        } else {
          PointersIff(n.value, es[1..]);
        }
      }
    }
  }

  lemma FreeingIsAStep(s: State, e: Event)
    ensures FreesSaved(s, e) ==> Next(s, e).Some?
  {
  }

  /** So a pass never follows a freed node in a run from the start, if and only if no step of the run
      freed a saved node; without passes in finalizers there is no such step. */
  lemma NoFreedNodeIff(time: int, es: seq<Event>, now: Clock)
    ensures var s := Run(Initial(time), es);
            && (PointersOk(s.list, s.stack) <==> NeverFreesSaved(Initial(time), es))
            && (NeverFreesSaved(Initial(time), es) && s.stack != [] && s.stack[0].phase.At? ==> Next(s, Step(now)).Some?)
  {
    InitialInv(time);
    PointersIff(Initial(time), es);
    var s := Run(Initial(time), es);
    hide Run;
    if PointersOk(s.list, s.stack) && s.stack != [] {
      assert PointerOk(s.list, s.stack[0].phase);
    }
  }

  /** Passes start only outside of finalizers. */
  predicate QuietFinalizers(s: State, es: seq<Event>)
    decreases |es|
  {
    es == [] ||
    (!(es[0].StartPass? && s.stack != [] && s.stack[0].phase.Finalizing?) &&
     var n := Next(s, es[0]);
     QuietFinalizers(if n.Some? then n.value else s, es[1..]))
  }

  lemma {:induction false} QuietIsSafe(s: State, es: seq<Event>)
    requires Inv(s) && QuietFinalizers(s, es) && forall k :: 1 <= k < |s.stack| ==> s.stack[k].phase.Calling?
    ensures NeverFreesSaved(s, es)
    decreases |es|
  {
    hide Inv;
    if es != [] {
      var n := Next(s, es[0]);
      if n.Some? {
        NextKeepsInv(s, es[0]);
        QuietIsSafe(n.value, es[1..]);
      } else {
        QuietIsSafe(s, es[1..]);
      }
    }
  }

  /** In particular, when no finalizer starts a pass, no pass ever follows a freed node. */
  lemma QuietRunIsSafe(time: int, es: seq<Event>, now: Clock)
    requires QuietFinalizers(Initial(time), es)
    ensures var s := Run(Initial(time), es);
            && PointersOk(s.list, s.stack)
            && (s.stack != [] && s.stack[0].phase.At? ==> Next(s, Step(now)).Some?)
  {
    hide Run;
    InitialInv(time);
    QuietIsSafe(Initial(time), es);
    NoFreedNodeIff(time, es, now);
  }

  /** What an idle pass frees. */
  predicate Gone(t: Timer) {
    t.id == DELETED && t.refcount == 0
  }

  function Swept(list: seq<Timer>): seq<Timer> {
    if list == [] then []
    else Swept(list[..|list| - 1]) + if Gone(list[|list| - 1]) then [] else [list[|list| - 1]]
  }

  lemma SweptStep(list: seq<Timer>, i: nat)
    requires i < |list|
    ensures Swept(list[..i + 1]) == Swept(list[..i]) + if Gone(list[i]) then [] else [list[i]]
  {
    assert list[..i + 1][..i] == list[..i];
  }

  lemma {:induction false} SweptHas(list: seq<Timer>, t: Timer)
    ensures t in Swept(list) <==> t in list && !Gone(t)
  {
    if list != [] {
      var z := |list| - 1;
      SweptHas(list[..z], t);
      assert list == list[..z] + [list[z]];
    }
  }

  lemma SweptLinked(list: seq<Timer>, nextId: nat, deleted: set<nat>, i: nat)
    requires ListOk(list, nextId, deleted) && i < |list|
    ensures Linked(Swept(list), list[i].name) <==> !Gone(list[i])
  {
    hide Swept;
    hide Gone;
    SweptHas(list, list[i]);
    var r := Swept(list);
    if Linked(r, list[i].name) {
      var k := Place(r, list[i].name);
      SweptHas(list, r[k]);
      assert r[k] == list[i];
    }
    if list[i] in r {
      var k :| 0 <= k < |r| && r[k] == list[i];
      LinkedAt(r, k);
    }
  }

  lemma PlaceOf(list: seq<Timer>, nextId: nat, deleted: set<nat>, j: nat)
    requires ListOk(list, nextId, deleted) && j < |list|
    ensures Place(list, list[j].name) == j
  {
    LinkedAt(list, j);
  }

  /** The first state of the run with no more than depth passes in progress. */
  function PassEnd(s: State, es: seq<Event>, depth: nat): Option<State>
    decreases |es|
  {
    if |s.stack| <= depth then Some(s)
    else if es == [] then None
    else
      var n := Next(s, es[0]);
      PassEnd(if n.Some? then n.value else s, es[1..], depth)
  }

  /** Nothing but the turns of the pass itself: its finalizers do nothing. */
  predicate OnlyTurns(es: seq<Event>) {
    forall i :: 0 <= i < |es| ==> es[i].Step? || es[i].Finalized?
  }

  /** An idle pass that began as `start` and has dealt with i timers. */
  predicate Sweeping(start: State, s: State, i: nat) {
    && i <= |start.list| && s.stack != [] && start.stack != [] && s.stack[1..] == start.stack[1..]
    && s.list == Swept(start.list[..i]) + start.list[i..]
    && (s.stack[0].phase == At(Head(start.list[i..])) || s.stack[0].phase == Finalizing(Head(start.list[i..])))
  }

  /** One event of an idle pass: it goes on, is over, or fires. */
  lemma SweepTurn(start: State, s: State, i: nat, e: Event)
    requires Inv(s) && Sweeping(start, s, i) && (e.Step? || e.Finalized?) && Next(s, e).Some?
    ensures var n := Next(s, e).value;
            || Sweeping(start, n, i) || (i < |start.list| && Sweeping(start, n, i + 1))
            || (n.stack == start.stack[1..] && n.list == Swept(start.list))
            || (n.stack != [] && n.stack[1..] == start.stack[1..] && n.stack[0].phase.Calling?)
  {
    hide Swept;
    hide Gone;
    hide RefsOk;
    hide FramesOk;
    hide PassesOk;
    hide FiredOk;
    hide Place;
    var j := |Swept(start.list[..i])|;
    if e.Step? && i < |start.list| {
      assert s.list[j] == start.list[i] && s.list[j + 1..] == start.list[i + 1..];
      PlaceOf(s.list, s.nextId, s.deleted, j);
      hide ListOk;
      SweptStep(start.list, i);
      TurnSweeps(start, s, i, j, e.now);
    } else if e.Step? {
      assert start.list[i..] == [] && start.list[..i] == start.list;
      assert s.list == Swept(start.list);
    }
  }

  lemma TurnSweeps(start: State, s: State, i: nat, j: nat, now: Clock)
    requires Sweeping(start, s, i) && i < |start.list| && j == |Swept(start.list[..i])| && s.stack[0].phase.At?
    requires j < |s.list| && s.list[j] == start.list[i] && s.list[j + 1..] == start.list[i + 1..]
    ensures var n := Turn(s, j, now);
            || Sweeping(start, n, i + 1)
            || (n.stack != [] && n.stack[1..] == start.stack[1..] && n.stack[0].phase.Calling?)
  {
    hide Swept;
    hide IsDue;
    var front := Swept(start.list[..i]);
    var t := start.list[i];
    SweptStep(start.list, i);
    assert s.list[..j] == front && start.list[i..] == [t] + start.list[i + 1..];
    assert front + start.list[i..] == front + [t] + start.list[i + 1..];
    assert Turn(s, j, now).stack[1..] == s.stack[1..];
  }

  lemma {:induction false} CallingNeverEnds(s: State, es: seq<Event>, depth: nat)
    requires |s.stack| > depth && s.stack[0].phase.Calling? && OnlyTurns(es)
    ensures PassEnd(s, es, depth) == None
    decreases |es|
  {
    if es != [] {
      CallingNeverEnds(s, es[1..], depth);
    }
  }

  /** An idle pass, wherever it was started, removes exactly the deleted timers nobody is inside. */
  lemma {:induction false} IdlePassSweeps(start: State, s: State, i: nat, es: seq<Event>)
    requires Inv(s) && Sweeping(start, s, i) && OnlyTurns(es)
    ensures var end := PassEnd(s, es, |start.stack| - 1);
            end.Some? ==> end.value.list == Swept(start.list) && end.value.stack == start.stack[1..]
    decreases |es|
  {
    hide Inv;
    hide Swept;
    var depth := |start.stack| - 1;
    if es != [] {
      var n := Next(s, es[0]);
      if n.None? {
        IdlePassSweeps(start, s, i, es[1..]);
      } else {
        NextKeepsInv(s, es[0]);
        SweepTurn(start, s, i, es[0]);
        if Sweeping(start, n.value, i) {
          IdlePassSweeps(start, n.value, i, es[1..]);
        } else if i < |start.list| && Sweeping(start, n.value, i + 1) {
          IdlePassSweeps(start, n.value, i + 1, es[1..]);
        } else if n.value.stack != start.stack[1..] {
          CallingNeverEnds(n.value, es[1..], depth);
        }
      }
    }
  }

  /** A finalizer that runs a pass of its own in which no timer fires leaves the pass around it with a
      pointer to a freed node if and only if the saved next timer was deleted, with no callback
      running for it, when the finalizer started the pass. */
  lemma FinalizerPassIff(s: State, time: int, es: seq<Event>)
    requires Inv(s) && s.stack != [] && s.stack[0].phase.Finalizing? && s.stack[0].phase.next.Some?
    requires Linked(s.list, s.stack[0].phase.next.value) && OnlyTurns(es)
    ensures var end := PassEnd(Started(s, time), es, |s.stack|);
            end.Some? ==>
              && end.value.stack == s.stack
              && (!PointerOk(end.value.list, s.stack[0].phase) <==>
                  Gone(s.list[Place(s.list, s.stack[0].phase.next.value)]))
  {
    hide *;
    var start, next := Started(s, time), s.stack[0].phase.next.value;
    FinalizersRunCode(s);
    NestedPassSweeps(s, time, es);
    LinkedMeansPlace(s.list, next);
    SameGone(s, time, Place(s.list, next));
    StartKeepsInv(s, time);
    InvGivesList(start);
    SweptLinked(start.list, start.nextId, start.deleted, Place(s.list, next));
    SavedPointerIs(Swept(start.list), next);
  }

  /** A pass started from a callback, a finalizer or outside. */
  lemma NestedPassSweeps(s: State, time: int, es: seq<Event>)
    requires Inv(s) && InCode(s) && OnlyTurns(es)
    ensures var end := PassEnd(Started(s, time), es, |s.stack|);
            end.Some? ==> end.value.stack == s.stack && end.value.list == Swept(Started(s, time).list)
  {
    hide Swept;
    hide PassEnd;
    hide Inv;
    hide AllAsap;
    hide Sweeping;
    hide OnlyTurns;
    var start := Started(s, time);
    StartKeepsInv(s, time);
    assert start.stack[1..] == s.stack;
    SweepingStarts(start);
    IdlePassSweeps(start, start, 0, es);
  }

  lemma FinalizersRunCode(s: State)
    requires s.stack != [] && s.stack[0].phase.Finalizing?
    ensures InCode(s)
  {
  }

  lemma SavedPointerIs(list: seq<Timer>, next: nat)
    ensures PointerOk(list, Finalizing(Some(next))) == Linked(list, next)
  {
  }

  lemma SameGone(s: State, time: int, i: nat)
    requires i < |s.list|
    ensures var list := Started(s, time).list;
            |list| == |s.list| && list[i].name == s.list[i].name && Gone(list[i]) == Gone(s.list[i])
  {
  }

  lemma InvGivesList(s: State)
    requires Inv(s)
    ensures ListOk(s.list, s.nextId, s.deleted)
  {
  }

  lemma LinkedMeansPlace(list: seq<Timer>, name: nat)
    requires Linked(list, name)
    ensures Place(list, name) < |list|
  {
  }

  lemma SweepingStarts(start: State)
    requires start.stack != [] && start.stack[0].phase == At(Head(start.list))
    ensures Sweeping(start, start, 0)
  {
    assert start.list[..0] == [] && start.list[0..] == start.list && [] + start.list == start.list;
  }

  lemma RunTo(s: State, es: seq<Event>, i: nat, n: State)
    requires i < |es| && Next(s, es[i]) == Some(n)
    ensures Run(s, es[i..]) == Run(n, es[i + 1..])
  {
    assert es[i..][1..] == es[i + 1..];
  }

  /** Two deleted timers; the finalizer of the first runs a pass, which frees the second; then the
      pass around it cannot go on. */
  function FatalRun(now: Clock, time: int): seq<Event> {
    [Create(0, now), Create(0, now), Delete(0), Delete(1), StartPass(time), Step(now),
     StartPass(time), Step(now), Finalized, Step(now), Finalized]
  }

  /** A run from the start in which a finalizer's pass makes the pass around it follow a freed node. */
  lemma FinalizerPassIsFatal(now: Clock, time: int)
    ensures var s := Run(Initial(time), FatalRun(now, time));
            && s.stack != [] && s.stack[0].phase == At(Some(0)) && Next(s, Step(now)) == None
  {
    FatalStart(now, time);
    FatalEnd(now, time);
  }

  function FatalMiddle(now: Clock, time: int): State {
    State([Timer(0, DELETED, AddMs(now, 0), 0)], 2, time, [Frame(0, 1, Finalizing(Some(0)))], 1, [], {0, 1})
  }

  /** Two timers, the older one deleted. */
  function FatalTwo(now: Clock, time: int): State {
    var due := AddMs(now, 0);
    State([Timer(1, 1, due, 0), Timer(0, DELETED, due, 0)], 2, time, [], 0, [], {0})
  }

  lemma FatalCreate(now: Clock, time: int)
    ensures Run(Initial(time), FatalRun(now, time)) == Run(FatalTwo(now, time), FatalRun(now, time)[3..])
  {
    hide AddMs;
    hide Run;
    var es := FatalRun(now, time);
    var due := AddMs(now, 0);
    var s0 := Initial(time);
    var s1 := s0.(list := [Timer(0, 0, due, 0)], nextId := 1);
    assert Created(s0, 0, now).list == s1.list;
    RunTo(s0, es, 0, s1);
    assert es[0..] == es;
    var s2 := s1.(list := [Timer(1, 1, due, 0), Timer(0, 0, due, 0)], nextId := 2);
    assert Created(s1, 0, now).list == s2.list;
    RunTo(s1, es, 1, s2);
    FindsSecond(s2.list);
    var two := FatalTwo(now, time);
    assert s2.list[1 := s2.list[1].(id := DELETED)] == two.list && s2.deleted + {0} == two.deleted;
    assert Marked(s2, 0) == Some(two);
    RunTo(s2, es, 2, two);
  }

  lemma FatalStart(now: Clock, time: int)
    ensures Run(Initial(time), FatalRun(now, time)) == Run(FatalMiddle(now, time), FatalRun(now, time)[6..])
  {
    hide AddMs;
    hide Run;
    FatalCreate(now, time);
    var es := FatalRun(now, time);
    var due := AddMs(now, 0);
    var s3 := FatalTwo(now, time);
    var s4 := s3.(list := [Timer(1, DELETED, due, 0), Timer(0, DELETED, due, 0)], deleted := {0, 1});
    assert s3.list[0 := s3.list[0].(id := DELETED)] == s4.list && s3.deleted + {1} == s4.deleted;
    assert Marked(s3, 1) == Some(s4);
    RunTo(s3, es, 3, s4);
    var s5 := s4.(stack := [Frame(0, 1, At(Some(1)))], passes := 1);
    assert Started(s4, time).stack == s5.stack;
    RunTo(s4, es, 4, s5);
    assert Turn(s5, 0, now) == FatalMiddle(now, time);
    RunTo(s5, es, 5, FatalMiddle(now, time));
  }

  lemma FindsSecond(list: seq<Timer>)
    requires |list| == 2 && list[0].id != 0 && list[1].id == 0
    ensures PlaceOfId(list, 0) == 1
  {
  }

  lemma FatalEnd(now: Clock, time: int)
    ensures var s := Run(FatalMiddle(now, time), FatalRun(now, time)[6..]);
            && s.stack != [] && s.stack[0].phase == At(Some(0)) && Next(s, Step(now)) == None
  {
    hide AddMs;
    var es := FatalRun(now, time);
    var s6 := FatalMiddle(now, time);
    var outer := Frame(0, 1, Finalizing(Some(0)));
    var s7 := s6.(stack := [Frame(1, 1, At(Some(0))), outer], passes := 2);
    assert Started(s6, time).stack == s7.stack;
    RunTo(s6, es, 6, s7);
    var s8 := s7.(list := [], stack := [Frame(1, 1, Finalizing(None)), outer]);
    assert s7.stack[1..] == [outer] && Turn(s7, 0, now) == s8;
    RunTo(s7, es, 7, s8);
    var s9 := s8.(stack := [Frame(1, 1, At(None)), outer]);
    assert s8.stack[1..] == [outer];
    assert GoTo(s8, At(None)).stack == s9.stack;
    RunTo(s8, es, 8, s9);
    var s10 := s9.(stack := [outer]);
    assert s9.stack[1..] == [outer];
    RunTo(s9, es, 9, s10);
    var s11 := s10.(stack := [Frame(0, 1, At(Some(0)))]);
    assert s10.stack[1..] == [];
    assert GoTo(s10, At(Some(0))).stack == s11.stack;
    RunTo(s10, es, 10, s11);
    assert es[11..] == [];
  }

  // ----- the sleep ------------------------------------------------------------

  /** The due time of a timer is comparable with the clock: milliseconds run below zero only in
      a second the clock has reached. */
  predicate Fit(due: Clock, now: Clock) {
    -1000 < due.ms < 1000 && (due.ms < 0 ==> due.sec <= now.sec)
  }

  predicate Later(a: Clock, b: Clock) {
    Normal(b) && !Before(b, a)
  }

  /** Every due time computed from the clock is comparable with it, for negative delays as well,
      and stays so while the clock does not go back. */
  lemma AddMsFits(now: Clock, ms: int, later: Clock)
    requires Normal(now) && Later(now, later)
    ensures Fit(AddMs(now, ms), later)
  {
  }

  lemma FitStays(due: Clock, now: Clock, later: Clock)
    requires Fit(due, now) && Normal(now) && Later(now, later)
    ensures Fit(due, later)
  {
  }

  /** A timer is found due at the right time, from now on, exactly when its due time fits. */
  lemma DueExactIff(t: Timer, now: Clock)
    requires Normal(now) && -1000 < t.due.ms < 1000
    ensures Fit(t.due, now) <==>
            forall later :: Later(now, later) ==> (IsDue(t, later) <==> Millis(t.due) <= Millis(later))
  {
    if Fit(t.due, now) {
      forall later | Later(now, later) ensures IsDue(t, later) <==> Millis(t.due) <= Millis(later) {
        FitStays(t.due, now, later);
      }
    } else {
      var later := Clock(t.due.sec - 1, 999);
      assert Later(now, later) && !IsDue(t, later) && Millis(t.due) <= Millis(later);
    }
  }

  predicate AllFit(list: seq<Timer>, now: Clock) {
    forall i :: 0 <= i < |list| ==> Fit(list[i].due, now)
  }

  /** aeSearchNearestTimer: the first timer that no other is before. */
  predicate IsNearest(list: seq<Timer>, i: nat) {
    && i < |list|
    && (forall j :: 0 <= j < |list| ==> !Before(list[j].due, list[i].due))
    && (forall j :: 0 <= j < i ==> Before(list[i].due, list[j].due))
  }

  datatype Timeval = Timeval(sec: int, usec: int)

  /** The timeout for a nearest timer. */
  function Wait(due: Clock, now: Clock): Timeval {
    var ms := (due.sec - now.sec) * 1000 + due.ms - now.ms;
    if ms > 0 then Timeval(Div1000(ms), Mod1000(ms) * 1000) else Timeval(0, 0)
  }

  /** What aeApiPoll hands to epoll_wait. */
  function EpollTimeout(tv: Timeval): int {
    tv.sec * 1000 + tv.usec / 1000
  }

  /** tvp as aeProcessEvents computes it; None is a null pointer: wait forever. nearest is a place
      in the list, or its length when there is none. */
  function Timeout(list: seq<Timer>, nearest: nat, now: Clock, timeEvents: bool, dontWait: bool, loopDontWait: bool): Option<Timeval> {
    if loopDontWait then Some(Timeval(0, 0))
    else if timeEvents && !dontWait && nearest < |list| then Some(Wait(list[nearest].due, now))
    else if dontWait then Some(Timeval(0, 0))
    else None
  }

  function Remaining(due: Clock, now: Clock): int {
    if Millis(due) <= Millis(now) then 0 else Millis(due) - Millis(now)
  }

  /** The sleep never exceeds the remaining delay of any timer, and without a request not to wait
      it is exactly the smallest remaining delay. */
  lemma SleepBound(list: seq<Timer>, nearest: nat, now: Clock, dontWait: bool, loopDontWait: bool, j: nat)
    requires Normal(now) && AllFit(list, now) && IsNearest(list, nearest) && j < |list|
    ensures var tv := Timeout(list, nearest, now, true, dontWait, loopDontWait);
            && tv.Some? && 0 <= EpollTimeout(tv.value) <= Remaining(list[j].due, now)
            && (!dontWait && !loopDontWait ==> EpollTimeout(tv.value) == Remaining(list[nearest].due, now))
            && (dontWait || loopDontWait ==> EpollTimeout(tv.value) == 0)
  {
    hide Wait;
    hide Before;
    hide Fit;
    hide Remaining;
    var d := list[nearest].due;
    WaitIsRemaining(d, now);
    assert !Before(list[j].due, d);
    SoonerRemaining(d, list[j].due, now);
  }

  /** Without timers, or when time events are not asked for, the loop waits forever exactly if nobody
      told it not to wait, and else not at all. */
  lemma WaitsForeverIff(list: seq<Timer>, now: Clock, timeEvents: bool, dontWait: bool, loopDontWait: bool)
    requires !timeEvents || list == []
    ensures var tv := Timeout(list, |list|, now, timeEvents, dontWait, loopDontWait);
            (tv.None? <==> !dontWait && !loopDontWait) && (tv.Some? ==> EpollTimeout(tv.value) == 0)
  {
  }

  /** The timer e would be overslept behind the nearest timer d: its milliseconds reach back into the
      second of d, and d still lies ahead. */
  predicate Overslept(d: Clock, e: Clock, now: Clock) {
    e.sec == d.sec + 1 && e.ms + 1000 < d.ms && Millis(now) < Millis(d)
  }

  lemma OversleptIff(d: Clock, e: Clock, now: Clock)
    requires -1000 < d.ms < 1000 && -1000 < e.ms < 1000 && !Before(e, d)
    ensures EpollTimeout(Wait(d, now)) <= Remaining(e, now) <==> !Overslept(d, e, now)
  {
    WaitIsRemaining(d, now);
    hide Wait;
    hide EpollTimeout;
  }

  /** Exactly when the sleep respects every timer, whatever the clock and the delays were: no timer
      with negative milliseconds reaches back behind the nearest one while that lies ahead. */
  lemma SleepBoundIff(list: seq<Timer>, nearest: nat, now: Clock)
    requires IsNearest(list, nearest) && forall j :: 0 <= j < |list| ==> -1000 < list[j].due.ms < 1000
    ensures (forall j :: 0 <= j < |list| ==> EpollTimeout(Wait(list[nearest].due, now)) <= Remaining(list[j].due, now))
       <==> (forall j :: 0 <= j < |list| ==> !Overslept(list[nearest].due, list[j].due, now))
  {
    hide Wait;
    hide EpollTimeout;
    hide Remaining;
    hide Overslept;
    hide Before;
    forall j | 0 <= j < |list|
      ensures EpollTimeout(Wait(list[nearest].due, now)) <= Remaining(list[j].due, now)
         <==> !Overslept(list[nearest].due, list[j].due, now)
    {
      OversleptIff(list[nearest].due, list[j].due, now);
    }
  }

  predicate SmallMillis(list: seq<Timer>) {
    forall j :: 0 <= j < |list| ==> -1000 < list[j].due.ms < 1000
  }

  lemma StepKeepsSmall(s: State, e: Event)
    requires SmallMillis(s.list) && Next(s, e).Some? && NormalClocks([e])
    ensures SmallMillis(Next(s, e).value.list)
  {
    assert [e][0] == e;
    match e
    case Create(delay, c) => AddMsSmall(c, delay);
    case Return(retval, c) => AddMsSmall(c, retval);
    case _ =>
    hide AddMs;
  }

  lemma AddMsSmall(now: Clock, ms: int)
    requires Normal(now)
    ensures -1000 < AddMs(now, ms).ms < 1000
  {
  }

  /** In every run milliseconds stay below a second in size, so that SleepBoundIff applies. */
  lemma {:induction false} RunKeepsSmall(s: State, es: seq<Event>)
    requires SmallMillis(s.list) && NormalClocks(es)
    ensures SmallMillis(Run(s, es).list)
    decreases |es|
  {
    hide SmallMillis;
    hide Next;
    if es != [] {
      var n := Next(s, es[0]);
      if n.Some? {
        StepKeepsSmall(s, es[0]);
        RunKeepsSmall(n.value, es[1..]);
      } else {
        RunKeepsSmall(s, es[1..]);
      }
    }
  }

  lemma SoonerRemaining(d: Clock, e: Clock, now: Clock)
    requires Normal(now) && Fit(d, now) && Fit(e, now) && !Before(e, d)
    ensures 0 <= Remaining(d, now) <= Remaining(e, now)
  {
  }

  lemma WaitIsRemaining(due: Clock, now: Clock)
    ensures EpollTimeout(Wait(due, now)) == Remaining(due, now)
  {
  }

  /** The clock of an event, if it reads one. */
  function ClockOf(e: Event): Option<Clock> {
    match e
    case Create(_, now) => Some(now)
    case Step(now) => Some(now)
    case Return(_, now) => Some(now)
    case _ => None
  }

  function Tick(now: Clock, e: Event): Clock {
    if ClockOf(e).Some? then ClockOf(e).value else now
  }

  function LastClock(es: seq<Event>, now: Clock): Clock {
    if es == [] then now else LastClock(es[1..], Tick(now, es[0]))
  }

  /** The clock never goes back and is past the epoch. */
  predicate Monotone(es: seq<Event>, now: Clock) {
    && Normal(now) && now.sec >= 0
    && (es != [] ==> Later(now, Tick(now, es[0])) && Monotone(es[1..], Tick(now, es[0])))
  }

  lemma StepKeepsFit(s: State, e: Event, now: Clock)
    requires AllFit(s.list, now) && Normal(now) && now.sec >= 0 && Later(now, Tick(now, e)) && Next(s, e).Some?
    ensures AllFit(Next(s, e).value.list, Tick(now, e))
  {
    hide AddMs;
    var at := Tick(now, e);
    forall i | 0 <= i < |s.list| ensures Fit(s.list[i].due, at) {
      FitStays(s.list[i].due, now, at);
    }
    match e
    case Create(delay, c) => AddMsFits(c, delay, c);
    case Return(retval, c) => AddMsFits(c, retval, c);
    case _ =>
  }

  /** While the clock does not go back, whatever the delays, negative ones included, in every state
      of every run all due times fit, so that SleepBound and DueExactIff apply to all timers. */
  lemma {:induction false} RunKeepsFit(s: State, es: seq<Event>, now: Clock)
    requires AllFit(s.list, now) && Monotone(es, now)
    ensures AllFit(Run(s, es).list, LastClock(es, now))
    decreases |es|
  {
    if es != [] {
      hide AllFit;
      var n := Next(s, es[0]);
      var at := Tick(now, es[0]);
      if n.Some? {
        StepKeepsFit(s, es[0], now);
        RunKeepsFit(n.value, es[1..], at);
      } else {
        AllFitStays(s.list, now, at);
        RunKeepsFit(s, es[1..], at);
      }
    }
  }

  lemma AllFitStays(list: seq<Timer>, now: Clock, later: Clock)
    requires AllFit(list, now) && Normal(now) && Later(now, later)
    ensures AllFit(list, later)
  {
    forall i | 0 <= i < |list| ensures Fit(list[i].due, later) {
      FitStays(list[i].due, now, later);
    }
  }

  /** No timer is created with a negative delay or rescheduled with one; -1 is AE_NOMORE. */
  predicate NoNegativeDelay(es: seq<Event>) {
    forall i :: 0 <= i < |es| ==> (es[i].Create? ==> es[i].delay >= 0) && (es[i].Return? ==> es[i].retval >= -1)
  }

  predicate NormalClocks(es: seq<Event>) {
    forall i :: 0 <= i < |es| ==> ClockOf(es[i]).Some? ==> Normal(ClockOf(es[i]).value)
  }

  predicate AllNormal(list: seq<Timer>) {
    forall i :: 0 <= i < |list| ==> Normal(list[i].due)
  }

  lemma StepKeepsNormal(s: State, e: Event)
    requires AllNormal(s.list) && Next(s, e).Some? && NormalClocks([e]) && NoNegativeDelay([e])
    ensures AllNormal(Next(s, e).value.list)
  {
    hide AddMs;
    assert [e][0] == e;
    match e
    case Create(delay, c) => AddMsExact(c, delay);
    case Return(retval, c) => if retval != -1 { AddMsExact(c, retval); }
    case _ =>
  }

  lemma {:induction false} RunKeepsNormal(s: State, es: seq<Event>)
    requires AllNormal(s.list) && NormalClocks(es) && NoNegativeDelay(es)
    ensures AllNormal(Run(s, es).list)
    decreases |es|
  {
    hide AllNormal;
    hide Next;
    if es != [] {
      var n := Next(s, es[0]);
      if n.Some? {
        StepKeepsNormal(s, es[0]);
        RunKeepsNormal(n.value, es[1..]);
      } else {
        RunKeepsNormal(s, es[1..]);
      }
    }
  }

  /** In every state of every run the sleep is bounded by the remaining delay of every timer, if no
      delay is negative, whatever the clock does, or if the clock does not go back, whatever the
      delays are. */
  lemma SleepBoundOverRuns(time: int, es: seq<Event>, begin: Clock, now: Clock,
                           nearest: nat, dontWait: bool, loopDontWait: bool, j: nat)
    requires NormalClocks(es) && Normal(now)
    requires NoNegativeDelay(es) || (Monotone(es, begin) && Later(LastClock(es, begin), now))
    requires IsNearest(Run(Initial(time), es).list, nearest) && j < |Run(Initial(time), es).list|
    ensures var list := Run(Initial(time), es).list;
            var tv := Timeout(list, nearest, now, true, dontWait, loopDontWait);
            && tv.Some? && 0 <= EpollTimeout(tv.value) <= Remaining(list[j].due, now)
            && (!dontWait && !loopDontWait ==> EpollTimeout(tv.value) == Remaining(list[nearest].due, now))
  {
    hide Run;
    hide Timeout;
    hide Remaining;
    hide IsNearest;
    var list := Run(Initial(time), es).list;
    if NoNegativeDelay(es) {
      RunKeepsNormal(Initial(time), es);
    } else {
      RunKeepsFit(Initial(time), es, begin);
      LastIsNormal(es, begin);
      AllFitStays(list, LastClock(es, begin), now);
    }
    SleepBound(list, nearest, now, dontWait, loopDontWait, j);
  }

  lemma {:induction false} LastIsNormal(es: seq<Event>, now: Clock)
    requires Monotone(es, now)
    ensures Normal(LastClock(es, now))
  {
    if es != [] {
      LastIsNormal(es[1..], Tick(now, es[0]));
    }
  }

  /** With a negative delay and a clock that is set back a timer can be overslept: the one created at
      10.1 s with a delay of -0.6 s is due at 9.5 s, but with another one due at 9.9 s the loop
      sleeps 0.9 s at 9 s. */
  lemma ClockSetBackOversleeps(time: int)
    ensures var list := Run(Initial(time), [Create(-600, Clock(10, 100)), Create(900, Clock(9, 0))]).list;
            var now := Clock(9, 0);
            && |list| == 2 && IsNearest(list, 0)
            && EpollTimeout(Wait(list[0].due, now)) == 900
            && Remaining(list[1].due, now) == 500
  {
    var es := [Create(-600, Clock(10, 100)), Create(900, Clock(9, 0))];
    var s1 := Created(Initial(time), -600, Clock(10, 100));
    var s2 := Created(s1, 900, Clock(9, 0));
    RunTo(Initial(time), es, 0, s1);
    RunTo(s1, es, 1, s2);
    assert es[0..] == es && es[2..] == [];
  }
}
