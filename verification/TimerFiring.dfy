/**
  Which timers a pass of processTimeEvents fires, in instants: no timer before its time, and every
  timer that is due when its turn comes.
 */
module TimerFiring {
  import opened Text
  import opened Timers

  // ----- no timer fires early -------------------------------------------------

  /** In seconds and milliseconds a timer is found due only at or after its instant. */
  lemma DueIsReached(t: Timer, now: Clock)
    requires Normal(now) && -1000 < t.due.ms < 1000 && IsDue(t, now)
    ensures Millis(t.due) <= Millis(now)
  {
  }

  lemma OthersFireNothing(s: State, e: Event)
    requires Next(s, e).Some? && !e.Step?
    ensures Next(s, e).value.fired == s.fired
  {
    hide AddMs;
    hide AllAsap;
  }

  lemma TurnFires(s: State, i: nat, now: Clock)
    requires Inv(s) && s.stack != [] && i < |s.list|
    ensures var s' := Turn(s, i, now);
            s'.fired != s.fired ==>
              && IsDue(s.list[i], now) && s.list[i].name !in s.deleted && s.list[i].name <= s.stack[0].maxId
              && s'.fired == s.fired + [Firing(s.stack[0].pass, s.stack[0].maxId, s.list[i].name)]
              && s'.stack != [] && s'.stack[0].phase == Calling(s.list[i].name)
  {
    hide IsDue;
    hide RefsOk;
    hide FramesOk;
    hide PassesOk;
    hide FiredOk;
  }

  lemma InitialSmall(time: int)
    ensures SmallMillis(Initial(time).list) && AllNormal(Initial(time).list)
  {
  }

  /** In every run, whatever the delays and the clock: a firing is a step of the innermost pass at a
      timer that exists, is not deleted and existed when the pass began, and the clock read in that
      step is at or after the timer's due instant. */
  lemma NeverFiresEarly(time: int, es: seq<Event>, e: Event)
    requires NormalClocks(es) && NormalClocks([e])
    ensures var s := Run(Initial(time), es);
            Next(s, e).Some? && Next(s, e).value.fired != s.fired ==>
              && e.Step? && s.stack != [] && s.stack[0].phase.At? && s.stack[0].phase.te.Some?
              && var name := s.stack[0].phase.te.value;
                 var i, s' := Place(s.list, name), Next(s, e).value;
                 && i < |s.list| && name !in s.deleted && name <= s.stack[0].maxId
                 && Millis(s.list[i].due) <= Millis(e.now)
                 && s'.fired == s.fired + [Firing(s.stack[0].pass, s.stack[0].maxId, name)]
                 && s'.stack != [] && s'.stack[0].phase == Calling(name)
  {
    hide Run;
    hide Inv;
    hide IsDue;
    hide Turn;
    InitialInv(time);
    RunKeepsInv(Initial(time), es);
    InitialSmall(time);
    RunKeepsSmall(Initial(time), es);
    var s := Run(Initial(time), es);
    assert [e][0] == e;
    if Next(s, e).Some? {
      if !e.Step? {
        OthersFireNothing(s, e);
      } else if s.stack[0].phase.te.Some? {
        var i := Place(s.list, s.stack[0].phase.te.value);
        TurnFires(s, i, e.now);
        if Next(s, e).value.fired != s.fired { DueIsReached(s.list[i], e.now); }
      }
    }
  }

  // ----- what a pass has still ahead ----------------------------------------------

  /** The pass in this phase has not come to the timer yet. */
  predicate Ahead(p: Phase, name: nat) {
    match p
    case At(te) => te.Some? && name <= te.value
    case Calling(timer) => name < timer
    case Finalizing(next) => next.Some? && name <= next.value
  }

  /** The pass is in progress, the timer existed when it began, and its turn is still to come. */
  predicate Waiting(s: State, pass: nat, name: nat) {
    exists f :: 0 <= f < |s.stack| && s.stack[f].pass == pass && name <= s.stack[f].maxId && Ahead(s.stack[f].phase, name)
  }

  predicate FiredBy(fired: seq<Firing>, pass: nat, name: nat) {
    exists k :: 0 <= k < |fired| && fired[k].pass == pass && fired[k].timer == name
  }

  /** It is the timer's turn in this pass. */
  predicate HasTurn(s: State, e: Event, pass: nat, name: nat) {
    && e.Step? && s.stack != [] && s.stack[0].pass == pass && s.stack[0].phase == At(Some(name))
    && Linked(s.list, name)
  }

  predicate TurnNotDue(s: State, e: Event, pass: nat, name: nat) {
    HasTurn(s, e, pass, name) && !IsDue(s.list[Place(s.list, name)], e.now)
  }

  lemma NextIsAhead(list: seq<Timer>, nextId: nat, deleted: set<nat>, i: nat, name: nat)
    requires ListOk(list, nextId, deleted) && i < |list| && Linked(list, name) && name < list[i].name
    ensures NextAt(list, i).Some? && name <= NextAt(list, i).value
  {
    var j := Place(list, name);
    assert j > i;
  }

  /** Only deleted timers leave the list. */
  lemma StaysListed(s: State, e: Event, name: nat)
    requires Inv(s) && Next(s, e).Some? && name !in s.deleted && Linked(s.list, name)
    ensures Linked(Next(s, e).value.list, name)
  {
    hide AddMs;
    hide RefsOk;
    hide FramesOk;
    hide PassesOk;
    hide FiredOk;
    var s' := Next(s, e).value;
    if e.Create? {
      LinkedBehindHead(s'.list[0], s.list, name);
    } else if |s'.list| == |s.list| {
      SameNames(s.list, s'.list, name);
    } else {
      StillLinked(s.list, Place(s.list, s.stack[0].phase.te.value), name);
    }
  }

  lemma MovedWaits(s: State, p: Phase, list: seq<Timer>, fired: seq<Firing>, deleted: set<nat>, pass: nat, name: nat)
    requires s.stack != [] && Waiting(s, pass, name)
    requires s.stack[0].pass == pass && name <= s.stack[0].maxId && Ahead(s.stack[0].phase, name) ==> Ahead(p, name)
    ensures Waiting(GoTo(s.(list := list, fired := fired, deleted := deleted), p), pass, name)
  {
    hide Ahead;
    var f :| 0 <= f < |s.stack| && s.stack[f].pass == pass && name <= s.stack[f].maxId && Ahead(s.stack[f].phase, name);
    var s' := GoTo(s.(list := list, fired := fired, deleted := deleted), p);
    if f > 0 { assert s'.stack[f] == s.stack[f]; } else { assert s'.stack[0].phase == p; }
  }

  lemma PushedWaits(s: State, list: seq<Timer>, time: int, top: Frame, pass: nat, name: nat)
    requires Waiting(s, pass, name)
    ensures Waiting(s.(list := list, lastTime := time, passes := s.passes + 1, stack := [top] + s.stack), pass, name)
  {
    hide Ahead;
    var f :| 0 <= f < |s.stack| && s.stack[f].pass == pass && name <= s.stack[f].maxId && Ahead(s.stack[f].phase, name);
    assert ([top] + s.stack)[f + 1] == s.stack[f];
  }

  lemma PoppedWaits(s: State, pass: nat, name: nat)
    requires s.stack != [] && s.stack[0].phase == At(None) && Waiting(s, pass, name)
    ensures Waiting(s.(stack := s.stack[1..]), pass, name)
  {
    var f :| 0 <= f < |s.stack| && s.stack[f].pass == pass && name <= s.stack[f].maxId && Ahead(s.stack[f].phase, name);
    assert f > 0 && s.stack[1..][f - 1] == s.stack[f];
  }

  lemma SameStackWaits(s: State, s': State, pass: nat, name: nat)
    requires Waiting(s, pass, name) && s'.stack == s.stack
    ensures Waiting(s', pass, name)
  {
    hide Ahead;
    var f :| 0 <= f < |s.stack| && s.stack[f].pass == pass && name <= s.stack[f].maxId && Ahead(s.stack[f].phase, name);
    assert s'.stack[f] == s.stack[f];
  }

  /** The turn of another timer: the pass comes closer. */
  lemma TurnWaits(s: State, i: nat, now: Clock, pass: nat, name: nat)
    requires Inv(s) && s.stack != [] && i < |s.list| && s.stack[0].phase == At(Some(s.list[i].name))
    requires Waiting(s, pass, name) && Linked(s.list, name)
    requires s.stack[0].pass == pass ==> s.list[i].name != name
    ensures Waiting(Turn(s, i, now), pass, name)
  {
    hide IsDue;
    hide RefsOk;
    hide FramesOk;
    hide PassesOk;
    hide FiredOk;
    hide Waiting;
    hide NextAt;
    var t, next := s.list[i], NextAt(s.list, i);
    if name < t.name { NextIsAhead(s.list, s.nextId, s.deleted, i, name); }
    hide Inv;
    hide Linked;
    if t.id == DELETED {
      if t.refcount != 0 {
        MovedWaits(s, At(next), s.list, s.fired, s.deleted, pass, name);
      } else {
        MovedWaits(s, Finalizing(next), Unlink(s.list, i), s.fired, s.deleted, pass, name);
      }
    } else if t.id <= s.stack[0].maxId && IsDue(t, now) {
      MovedWaits(s, Calling(t.name), s.list[i := t.(refcount := t.refcount + 1)],
                 s.fired + [Firing(s.stack[0].pass, s.stack[0].maxId, t.name)], s.deleted, pass, name);
    } else {
      MovedWaits(s, At(next), s.list, s.fired, s.deleted, pass, name);
    }
  }

  /** The timer's own turn: it fires, or it is not due. */
  lemma OwnTurn(s: State, i: nat, now: Clock, pass: nat)
    requires Inv(s) && s.stack != [] && i < |s.list| && s.stack[0].pass == pass
    requires s.list[i].name !in s.deleted && s.list[i].name <= s.stack[0].maxId
    ensures FiredBy(Turn(s, i, now).fired, pass, s.list[i].name) || !IsDue(s.list[i], now)
  {
    hide IsDue;
    hide RefsOk;
    hide FramesOk;
    hide PassesOk;
    hide FiredOk;
    if IsDue(s.list[i], now) {
      var fired := Turn(s, i, now).fired;
      assert fired[|fired| - 1] == Firing(pass, s.stack[0].maxId, s.list[i].name);
    }
  }

  lemma ReturnWaits(s: State, i: nat, retval: int, now: Clock, pass: nat, name: nat)
    requires Inv(s) && s.stack != [] && i < |s.list| && s.stack[0].phase == Calling(s.list[i].name)
    requires Waiting(s, pass, name) && Linked(s.list, name)
    ensures Waiting(Returned(s, i, retval, now), pass, name)
  {
    hide RefsOk;
    hide FramesOk;
    hide PassesOk;
    hide FiredOk;
    hide Waiting;
    hide NextAt;
    hide AddMs;
    var t, next := s.list[i].(refcount := s.list[i].refcount - 1), NextAt(s.list, i);
    if name < t.name { NextIsAhead(s.list, s.nextId, s.deleted, i, name); }
    hide Inv;
    hide Linked;
    if retval != -1 {
      MovedWaits(s, At(next), s.list[i := t.(due := AddMs(now, retval))], s.fired, s.deleted, pass, name);
    } else {
      MovedWaits(s, At(next), s.list[i := t.(id := DELETED)], s.fired, s.deleted + {t.name}, pass, name);
    }
  }

  lemma StartWaits(s: State, time: int, pass: nat, name: nat)
    requires Waiting(s, pass, name)
    ensures Waiting(Started(s, time), pass, name)
  {
    hide Waiting;
    hide AllAsap;
    var list := if time < s.lastTime then AllAsap(s.list) else s.list;
    PushedWaits(s, list, time, Frame(s.passes, s.nextId - 1, At(Head(list))), pass, name);
  }

  /** The frame of a pass that the timer waits for is the innermost one, if that is the pass. */
  lemma TopWaits(s: State, pass: nat, name: nat)
    requires Inv(s) && Waiting(s, pass, name) && s.stack != [] && s.stack[0].pass == pass
    ensures name <= s.stack[0].maxId && Ahead(s.stack[0].phase, name)
  {
    hide Ahead;
    hide ListOk;
    hide RefsOk;
    hide FramesOk;
    hide FiredOk;
  }

  /** One event: the timer goes on waiting for the pass, or is fired by it, or has its turn and is not
      due. */
  lemma StepWaits(s: State, e: Event, pass: nat, name: nat)
    requires Inv(s) && Next(s, e).Some? && Waiting(s, pass, name) && name !in s.deleted && Linked(s.list, name)
    ensures var s' := Next(s, e).value;
            Waiting(s', pass, name) || FiredBy(s'.fired, pass, name) || TurnNotDue(s, e, pass, name)
  {
    hide Waiting;
    hide IsDue;
    hide Turn;
    hide Returned;
    hide Started;
    hide Inv;
    hide FiredBy;
    hide Linked;
    match e
    case Create(delay, now) => SameStackWaits(s, Created(s, delay, now), pass, name);
    case Delete(id) => SameStackWaits(s, Marked(s, id).value, pass, name);
    case StartPass(time) => StartWaits(s, time, pass, name);
    case Step(now) =>
      if s.stack[0].phase.te.None? {
        PoppedWaits(s, pass, name);
      } else {
        var i := Place(s.list, s.stack[0].phase.te.value);
        if s.stack[0].pass == pass && s.list[i].name == name {
          TopWaits(s, pass, name);
          OwnTurn(s, i, now, pass);
        } else {
          TurnWaits(s, i, now, pass, name);
        }
      }
    case Return(retval, now) => ReturnWaits(s, Place(s.list, s.stack[0].phase.timer), retval, now, pass, name);
    case Finalized => MovedWaits(s, At(s.stack[0].phase.next), s.list, s.fired, s.deleted, pass, name);
  }

  // ----- a whole pass -------------------------------------------------------------

  /** At place k of the run the timer is spared: it was deleted before its turn, or it is its turn and
      it is not due. */
  predicate SparedAt(s: State, es: seq<Event>, k: nat, pass: nat, name: nat)
    requires k <= |es|
  {
    var u := Run(s, es[..k]);
    && Waiting(u, pass, name)
    && (name in u.deleted || (k < |es| && TurnNotDue(u, es[k], pass, name)))
  }

  predicate Spared(s: State, es: seq<Event>, pass: nat, name: nat) {
    exists k :: 0 <= k <= |es| && SparedAt(s, es, k, pass, name)
  }

  lemma SparedLater(s: State, es: seq<Event>, pass: nat, name: nat)
    requires es != []
    requires var n := Next(s, es[0]); Spared(if n.Some? then n.value else s, es[1..], pass, name)
    ensures Spared(s, es, pass, name)
  {
    hide Next;
    hide TurnNotDue;
    hide Waiting;
    var n := Next(s, es[0]);
    var s1 := if n.Some? then n.value else s;
    var k :| 0 <= k <= |es| - 1 && SparedAt(s1, es[1..], k, pass, name);
    assert es[..k + 1][1..] == es[1..][..k];
    assert Run(s, es[..k + 1]) == Run(s1, es[1..][..k]);
    assert SparedAt(s, es, k + 1, pass, name);
  }

  lemma SparedNow(s: State, es: seq<Event>, pass: nat, name: nat)
    requires Waiting(s, pass, name) && (name in s.deleted || (es != [] && TurnNotDue(s, es[0], pass, name)))
    ensures Spared(s, es, pass, name)
  {
    hide TurnNotDue;
    hide Waiting;
    assert Run(s, es[..0]) == s;
    assert SparedAt(s, es, 0, pass, name);
  }

  lemma FiredStays(s: State, e: Event)
    requires Next(s, e).Some?
    ensures s.fired <= Next(s, e).value.fired
  {
    hide AllAsap;
    hide AddMs;
    hide IsDue;
  }

  lemma {:induction false} RunKeepsFired(s: State, es: seq<Event>, pass: nat, name: nat)
    requires FiredBy(s.fired, pass, name)
    ensures FiredBy(Run(s, es).fired, pass, name)
    decreases |es|
  {
    hide Next;
    if es != [] {
      var n := Next(s, es[0]);
      if n.Some? {
        FiredStays(s, es[0]);
        var k :| 0 <= k < |s.fired| && s.fired[k].pass == pass && s.fired[k].timer == name;
        assert n.value.fired[k] == s.fired[k];
        RunKeepsFired(n.value, es[1..], pass, name);
      } else {
        RunKeepsFired(s, es[1..], pass, name);
      }
    }
  }

  /** From the moment a pass is waiting for a timer: it still waits, or the pass fires the timer, or
      the timer is spared. */
  lemma {:induction false} PassCovers(s: State, es: seq<Event>, pass: nat, name: nat)
    requires Inv(s) && Waiting(s, pass, name) && (name in s.deleted || Linked(s.list, name))
    ensures Waiting(Run(s, es), pass, name) || FiredBy(Run(s, es).fired, pass, name) || Spared(s, es, pass, name)
    decreases |es|
  {
    hide Inv;
    hide Next;
    hide Waiting;
    hide FiredBy;
    hide Linked;
    hide TurnNotDue;
    hide Spared;
    if name in s.deleted {
      SparedNow(s, es, pass, name);
    } else if es != [] {
      var n := Next(s, es[0]);
      if n.None? {
        PassCovers(s, es[1..], pass, name);
        if Spared(s, es[1..], pass, name) { SparedLater(s, es, pass, name); }
      } else {
        NextKeepsInv(s, es[0]);
        StepWaits(s, es[0], pass, name);
        StaysListed(s, es[0], name);
        if TurnNotDue(s, es[0], pass, name) {
          SparedNow(s, es, pass, name);
        } else if FiredBy(n.value.fired, pass, name) {
          RunKeepsFired(n.value, es[1..], pass, name);
        } else {
          PassCovers(n.value, es[1..], pass, name);
          if Spared(n.value, es[1..], pass, name) { SparedLater(s, es, pass, name); }
        }
      }
    }
  }

  // ----- in instants ----------------------------------------------------------------

  /** Whether the due times of a run can be compared as instants: no negative delay, or a clock that
      does not go back. */
  predicate Comparable(es: seq<Event>, begin: Clock) {
    NormalClocks(es) && (NoNegativeDelay(es) || Monotone(es, begin))
  }

  lemma {:induction false} MonotonePrefix(es: seq<Event>, k: nat, begin: Clock)
    requires Monotone(es, begin) && k < |es|
    ensures Monotone(es[..k], begin) && Normal(LastClock(es[..k], begin))
    ensures Later(LastClock(es[..k], begin), Tick(LastClock(es[..k], begin), es[k]))
    decreases k
  {
    if k > 0 {
      MonotonePrefix(es[1..], k - 1, Tick(begin, es[0]));
      assert es[..k][1..] == es[1..][..k - 1];
    }
  }

  /** A timer that has its turn and is not found due has not reached its instant. */
  lemma NotDueIsEarly(time: int, es: seq<Event>, k: nat, begin: Clock, i: nat)
    requires Comparable(es, begin) && k < |es| && es[k].Step?
    requires i < |Run(Initial(time), es[..k]).list| && !IsDue(Run(Initial(time), es[..k]).list[i], es[k].now)
    ensures Millis(es[k].now) < Millis(Run(Initial(time), es[..k]).list[i].due)
  {
    hide Run;
    var s := Run(Initial(time), es[..k]);
    InitialSmall(time);
    assert Normal(es[k].now) by { assert ClockOf(es[k]).Some?; }
    if NoNegativeDelay(es) {
      RunKeepsNormal(Initial(time), es[..k]);
      assert Normal(s.list[i].due);
    } else {
      MonotonePrefix(es, k, begin);
      RunKeepsFit(Initial(time), es[..k], begin);
      AllFitStays(s.list, LastClock(es[..k], begin), es[k].now);
      assert Fit(s.list[i].due, es[k].now);
    }
  }

  /** The pass is over. */
  predicate Ended(s: State, pass: nat) {
    forall f :: 0 <= f < |s.stack| ==> s.stack[f].pass != pass
  }

  lemma EndedWaitsForNothing(s: State, pass: nat, name: nat)
    requires Ended(s, pass)
    ensures !Waiting(s, pass, name)
  {
  }

  /** Place k of a run is the turn of the timer in the pass, before its due instant. */
  predicate TooEarly(time: int, es: seq<Event>, k: nat, pass: nat, name: nat)
    requires k < |es|
  {
    var u := Run(Initial(time), es[..k]);
    HasTurn(u, es[k], pass, name) && Millis(es[k].now) < Millis(u.list[Place(u.list, name)].due)
  }

  /** Place k of a run lies in the pass, the timer's turn is still to come, and it is deleted. */
  predicate DeletedFirst(time: int, es: seq<Event>, k: nat, pass: nat, name: nat)
    requires k <= |es|
  {
    var u := Run(Initial(time), es[..k]);
    Waiting(u, pass, name) && name in u.deleted
  }

  lemma StartsWaiting(s: State, time: int, name: nat)
    requires Inv(s) && InCode(s) && Linked(s.list, name) && name !in s.deleted
    ensures var s' := Started(s, time); Inv(s') && Waiting(s', s.passes, name) && Linked(s'.list, name)
  {
    StartKeepsInv(s, time);
    hide RefsOk;
    hide FramesOk;
    hide PassesOk;
    hide FiredOk;
    var s' := Started(s, time);
    SameNames(s.list, s'.list, name);
    var j := Place(s.list, name);
    assert s'.list[0].name == s.list[0].name >= name;
    assert s'.stack[0].pass == s.passes && name <= s'.stack[0].maxId && Ahead(s'.stack[0].phase, name);
  }

  lemma {:induction false} RunSplit(s: State, a: seq<Event>, b: seq<Event>)
    ensures Run(s, a + b) == Run(Run(s, a), b)
    decreases |a|
  {
    hide Next;
    if a == [] {
      assert a + b == b;
    } else {
      assert (a + b)[1..] == a[1..] + b;
      var n := Next(s, a[0]);
      RunSplit(if n.Some? then n.value else s, a[1..], b);
    }
  }

  lemma RunOneStart(s: State, time: int)
    requires InCode(s)
    ensures Run(s, [StartPass(time)]) == Started(s, time)
  {
    hide Started;
    var es := [StartPass(time)];
    assert es[1..] == [];
  }

  lemma SparedMeans(time: int, es: seq<Event>, cut: nat, k: nat, begin: Clock, pass: nat, name: nat)
    requires Comparable(es, begin) && cut <= |es| && k <= |es| - cut
    requires SparedAt(Run(Initial(time), es[..cut]), es[cut..], k, pass, name)
    ensures DeletedFirst(time, es, cut + k, pass, name) || (cut + k < |es| && TooEarly(time, es, cut + k, pass, name))
  {
    hide Run;
    hide Waiting;
    hide IsDue;
    RunSplit(Initial(time), es[..cut], es[cut..][..k]);
    assert es[..cut] + es[cut..][..k] == es[..cut + k];
    var u := Run(Initial(time), es[..cut + k]);
    if name !in u.deleted {
      NotDueIsEarly(time, es, cut + k, begin, Place(u.list, name));
    }
  }

  /** Main theorem. In any run, a pass that began at place `cut` and is over at the end has fired every
      timer that existed when it began, unless the timer was deleted before its turn in the pass, or
      the clock read at its turn was before its due instant. */
  lemma PassFiresAllDue(time: int, es: seq<Event>, cut: nat, begin: Clock, name: nat)
    requires Comparable(es, begin) && cut < |es| && es[cut].StartPass?
    requires var s := Run(Initial(time), es[..cut]);
             InCode(s) && Linked(s.list, name) && name !in s.deleted && Ended(Run(Initial(time), es), s.passes)
    ensures var pass := Run(Initial(time), es[..cut]).passes;
            || FiredBy(Run(Initial(time), es).fired, pass, name)
            || (exists k :: cut < k <= |es| && DeletedFirst(time, es, k, pass, name))
            || (exists k :: cut < k < |es| && TooEarly(time, es, k, pass, name))
  {
    hide Inv;
    hide Run;
    hide Started;
    hide Waiting;
    hide FiredBy;
    hide Linked;
    hide DeletedFirst;
    hide TooEarly;
    hide SparedAt;
    hide Comparable;
    var s := Run(Initial(time), es[..cut]);
    InitialInv(time);
    RunKeepsInv(Initial(time), es[..cut]);
    StartsWaiting(s, es[cut].time, name);
    RunSplit(Initial(time), es[..cut], [es[cut]]);
    assert es[..cut] + [es[cut]] == es[..cut + 1];
    RunOneStart(s, es[cut].time);
    var s1 := Run(Initial(time), es[..cut + 1]);
    RunSplit(Initial(time), es[..cut + 1], es[cut + 1..]);
    assert es[..cut + 1] + es[cut + 1..] == es;
    PassCovers(s1, es[cut + 1..], s.passes, name);
    EndedWaitsForNothing(Run(Initial(time), es), s.passes, name);
    if Spared(s1, es[cut + 1..], s.passes, name) {
      var k :| 0 <= k <= |es| - cut - 1 && SparedAt(s1, es[cut + 1..], k, s.passes, name);
      SparedMeans(time, es, cut + 1, k, begin, s.passes, name);
    }
  }

  // ----- creation, return, and a clock set back ---------------------------------------

  /** A new timer is listed first, under a name never used before, due after its delay; nothing else
      changes. */
  lemma CreateMeans(time: int, es: seq<Event>, delay: int, now: Clock)
    requires Normal(now) && InCode(Run(Initial(time), es))
    ensures var s := Run(Initial(time), es);
            Next(s, Create(delay, now)).Some? &&
            var s' := Next(s, Create(delay, now)).value;
            && s'.list != [] && s'.list[1..] == s.list && Millis(s'.list[0].due) == Millis(now) + delay
            && s'.list[0].id == s'.list[0].name && s'.list[0].name !in s'.deleted
            && (forall i :: 0 <= i < |s.list| ==> s.list[i].name < s'.list[0].name)
            && s' == s.(list := s'.list, nextId := s'.nextId)
  {
    hide Run;
    InitialInv(time);
    RunKeepsInv(Initial(time), es);
    AddMsExact(now, delay);
    hide AddMs;
    hide RefsOk;
    hide FramesOk;
    hide PassesOk;
    hide FiredOk;
  }

  /** aeDeleteTimeEvent in any run: it succeeds exactly for a timer that is listed and not deleted, which
      it marks, and it changes nothing else; the timer itself stays until a pass comes by. */
  lemma DeleteMeans(time: int, es: seq<Event>, name: nat)
    requires InCode(Run(Initial(time), es))
    ensures var s := Run(Initial(time), es);
            && (Next(s, Delete(name)).Some? <==> Linked(s.list, name) && name !in s.deleted)
            && (Next(s, Delete(name)).Some? ==>
                  var s', i := Next(s, Delete(name)).value, Place(s.list, name);
                  && i < |s.list| && s'.deleted == s.deleted + {name}
                  && s'.list == s.list[i := s.list[i].(id := DELETED)]
                  && s' == s.(list := s'.list, deleted := s'.deleted))
  {
    hide Run;
    InitialInv(time);
    RunKeepsInv(Initial(time), es);
    hide RefsOk;
    hide FramesOk;
    hide PassesOk;
    hide FiredOk;
    var s := Run(Initial(time), es);
    var k := PlaceOfId(s.list, name);
    if Linked(s.list, name) {
      var i := Place(s.list, name);
      assert name !in s.deleted ==> s.list[i].id == name;
    }
    if k < |s.list| {
      assert s.list[k].name == name;
      LinkedAt(s.list, k);
      var i := Place(s.list, name);
      assert s.list[i].name == s.list[k].name;
    }
  }

  /** What a callback's result does: the next due instant is the clock plus the result, or, for
      AE_NOMORE, the timer is deleted; no other timer changes and nothing fires. */
  lemma ReturnMeans(time: int, es: seq<Event>, retval: int, now: Clock)
    requires Normal(now)
    requires var s := Run(Initial(time), es); s.stack != [] && s.stack[0].phase.Calling?
    ensures var s := Run(Initial(time), es);
            Next(s, Return(retval, now)).Some? &&
            var s' := Next(s, Return(retval, now)).value;
            var name := s.stack[0].phase.timer;
            var i := Place(s.list, name);
            && i < |s.list| == |s'.list| && s'.list[i].name == name
            && (retval != -1 ==> Millis(s'.list[i].due) == Millis(now) + retval && s'.list[i].id == s.list[i].id && s'.deleted == s.deleted)
            && (retval == -1 ==> s'.list[i].id == DELETED && s'.list[i].due == s.list[i].due && s'.deleted == s.deleted + {name})
            && (forall j :: 0 <= j < |s.list| && j != i ==> s'.list[j] == s.list[j])
            && s'.fired == s.fired && s'.nextId == s.nextId
            && s'.stack[1..] == s.stack[1..] && s'.stack[0].phase == At(NextAt(s.list, i))
  {
    hide Run;
    EveryRun(time, es, now, retval);
    AddMsExact(now, retval);
    hide AddMs;
    hide NextAt;
  }

  /** A pass that finds the clock set back makes every timer due from the second second on; any other
      leaves the timers alone. It looks at all of them, first to last, and at no timer made later. */
  lemma StartMeans(s: State, time: int, now: Clock)
    requires Normal(now) && now.sec >= 1 && SmallMillis(s.list)
    ensures var s' := Started(s, time);
            && s'.lastTime == time && s'.fired == s.fired && s'.deleted == s.deleted && s'.nextId == s.nextId
            && (time >= s.lastTime ==> s'.list == s.list)
            && |s'.list| == |s.list|
            && (forall i :: 0 <= i < |s.list| ==> s'.list[i] == s.list[i].(due := s'.list[i].due))
            && (time < s.lastTime ==> forall i :: 0 <= i < |s.list| ==> Millis(s'.list[i].due) <= Millis(now))
            && s'.stack == [Frame(s.passes, s.nextId - 1, At(Head(s.list)))] + s.stack
  {
  }
}
