/**
  The life of the log: how the server gets from one state of the append only file to the next, that a
  rewrite can always be completed, and that commands are logged from then on.
 */
module AofLife {
  import opened Resp
  import opened Text
  import opened Store
  import opened AofFeed
  import opened AofSkew
  import opened AofRewrite
  import opened AofFlush
  import opened AofDump
  import opened AofProtocol

  // ----- one event ------------------------------------------------------------

  /** The start gets past open, and either waits for another child or forks its own. */
  ghost predicate StartSucceeds(eng: Engine, n: nat, s: Server, e: Event) {
    && e.StartAof? && e.openOk
    && ((e.otherChild && s.child.None?) || (e.forkOk && GoodDump(eng, e.dump, n) && Enumerates(eng, e.dump, s.ds)))
  }

  /** The rewrite succeeds with this event: a finished child, and no system call fails. */
  predicate RewriteSucceeds(s: Server, e: Event) {
    && e.ChildExit? && e.success && e.openOk && e.writeOk && e.renameOk
    && s.child.Some? && s.child.value.phase == Finished
  }

  lemma FeedState(s: Server, db: nat, cmds: seq<Argv>, drift: bool, skew: Skew, childSkew: Skew)
    ensures Feed(s, db, cmds, drift, skew, childSkew).aofState == s.aofState
  {
    hide EncodeAll;
    hide Fed;
    hide FeedChild;
  }

  lemma CallState(eng: Engine, s: Server, db: nat, argv: Argv, now: int, fedAt: int, force: bool)
    requires argv != []
    ensures DoCall(eng, s, db, argv, now, fedAt, force).aofState == s.aofState
  {
    hide Execute;
    hide Translate;
    hide Drifts;
    hide NewSkew;
    hide Feed;
    var r := Execute(eng, false, now, force, s.ds, db, argv);
    var cmds := Translate(eng, r.argv, fedAt);
    if cmds.Some? {
      FeedState(s.(ds := r.ds), db, cmds.value, Drifts(eng, r.argv, now, fedAt),
                NewSkew(eng, s.ds, r.ds, db, r.argv, s.skew, now, fedAt),
                NewSkew(eng, s.ds, r.ds, db, r.argv, ChildSkew(s), now, fedAt));
    }
  }

  lemma MarkerState(eng: Engine, s: Server, db: nat, argv: Argv)
    requires argv != []
    ensures DoMarker(eng, s, db, argv).aofState == s.aofState
  {
    hide Feed;
    FeedState(s.(inMulti := eng.kindOf(argv[0]) == MultiCmd), db, [argv], false, s.skew, ChildSkew(s));
  }

  lemma FlushState(s: Server, force: bool, env: Env)
    ensures DoFlush(s, force, env).aofState == s.aofState
  {
    hide Flush;
    hide BadUndo;
  }

  lemma ForkKeepsState(eng: Engine, s: Server, dump: Dump, n: nat)
    requires GoodDump(eng, dump, n)
    ensures DoFork(eng, s, dump, n).aofState == s.aofState
  {
    hide RewriteCommands;
    hide EncodeAll;
  }

  lemma SwitchState(s: Server, statOk: bool)
    requires s.child.Some?
    ensures DoSwitch(s, statOk).aofState == if s.aofState == Off then Off else On
  {
    hide SwitchedOut;
  }

  lemma CleanupState(s: Server)
    ensures Cleanup(s).aofState == s.aofState
  {
  }

  lemma StartState(eng: Engine, n: nat, s: Server, e: Event)
    requires n >= 1 && !s.dead && e.StartAof?
    ensures Next(eng, n, s, e).aofState == if s.aofState == Off && StartSucceeds(eng, n, s, e) then WaitRewrite else s.aofState
  {
    hide DoCall;
    hide DoMarker;
    hide DoFlush;
    hide DoFork;
    hide DoSwitch;
    hide Cleanup;
    hide GoodDump;
    hide Enumerates;
    CleanupState(s);
  }

  lemma StopState(eng: Engine, n: nat, s: Server, env: Env)
    requires n >= 1 && !s.dead
    ensures var s' := Next(eng, n, s, StopAof(env)); s'.aofState == if s'.dead then s.aofState else Off
  {
    hide DoCall;
    hide DoMarker;
    hide DoFlush;
    hide DoFork;
    hide DoSwitch;
    hide Cleanup;
    hide GoodDump;
    hide Enumerates;
    var f := DoFlush(s, true, env);
    FlushState(s, true, env);
    CleanupState(f.(aofState := Off, selected := -1));
    CleanupLives(f.(aofState := Off, selected := -1));
  }

  lemma ExitState(eng: Engine, n: nat, s: Server, e: Event)
    requires n >= 1 && !s.dead && e.ChildExit?
    ensures Next(eng, n, s, e).aofState == if s.aofState != Off && RewriteSucceeds(s, e) then On else s.aofState
  {
    hide DoCall;
    hide DoMarker;
    hide DoFlush;
    hide DoFork;
    hide DoSwitch;
    hide Cleanup;
    hide GoodDump;
    hide Enumerates;
    CleanupState(s);
    if s.child.Some? {
      SwitchState(s, e.statOk);
      CleanupState(DoSwitch(s, e.statOk));
    }
  }

  lemma OthersKeepState(eng: Engine, n: nat, s: Server, e: Event)
    requires n >= 1 && !s.dead && !e.StartAof? && !e.StopAof? && !e.ChildExit?
    ensures Next(eng, n, s, e).aofState == s.aofState
  {
    hide DoCall;
    hide DoMarker;
    hide DoFlush;
    hide DoFork;
    hide DoSwitch;
    hide Cleanup;
    hide GoodDump;
    hide Enumerates;
    match e
    case Call(db, argv, now, fedAt, force) => if argv != [] { CallState(eng, s, db, argv, now, fedAt, force); }
    case Marker(db, argv) => if argv != [] { MarkerState(eng, s, db, argv); }
    case FlushOut(force, env) => FlushState(s, force, env);
    case Fork(dump) => if GoodDump(eng, dump, n) { ForkKeepsState(eng, s, dump, n); }
    case KillChild => CleanupState(s);
    case _ =>
  }

  /** The log leaves Off exactly by a start that succeeds, and then waits for a rewrite; it becomes On
      exactly when that rewrite succeeds; it becomes Off exactly by a stop that does not exit. */
  lemma StateLife(eng: Engine, n: nat, s: Server, e: Event)
    requires n >= 1 && !s.dead
    ensures var s' := Next(eng, n, s, e);
            match s.aofState
            case Off => s'.aofState == (if StartSucceeds(eng, n, s, e) then WaitRewrite else Off)
            case WaitRewrite =>
              s'.aofState == (if RewriteSucceeds(s, e) then On else if e.StopAof? && !s'.dead then Off else WaitRewrite)
            case On => s'.aofState == (if e.StopAof? && !s'.dead then Off else On)
  {
    hide Next;
    hide GoodDump;
    hide Enumerates;
    if e.StartAof? {
      StartState(eng, n, s, e);
    } else if e.StopAof? {
      StopState(eng, n, s, e.env);
    } else if e.ChildExit? {
      ExitState(eng, n, s, e);
    } else {
      OthersKeepState(eng, n, s, e);
    }
  }

  lemma CleanupLives(s: Server)
    ensures Cleanup(s).dead == s.dead
  {
  }

  /** No child, or one that was just forked and has been fed nothing. */
  predicate FreshChild(s: Server) {
    s.child.None? || (s.child.value.fed == "" && s.child.value.diff == "" && s.pipe == "" && s.blocks == "")
  }

  lemma NewFork(eng: Engine, s: Server, dump: Dump, n: nat)
    requires GoodDump(eng, dump, n)
    ensures var s' := DoFork(eng, Cleanup(s), dump, n).(aofState := WaitRewrite);
            FreshChild(s') && s'.ds == s.ds && s'.out == s.out
  {
    hide RewriteCommands;
    hide EncodeAll;
    hide GoodDump;
  }

  lemma NoFork(s: Server)
    ensures FreshChild(Cleanup(s)) && Cleanup(s).ds == s.ds && Cleanup(s).out == s.out
    ensures s.child.None? ==> var s' := s.(aofState := WaitRewrite); FreshChild(s') && s'.ds == s.ds && s'.out == s.out
  {
  }

  lemma StartIs(eng: Engine, n: nat, s: Server, e: Event)
    requires n >= 1 && !s.dead && s.aofState == Off && e.StartAof? && e.openOk
    ensures var s' := Next(eng, n, s, e);
            || (s.child.None? && s' == s.(aofState := WaitRewrite))
            || s' == Cleanup(s)
            || (GoodDump(eng, e.dump, n) && s' == DoFork(eng, Cleanup(s), e.dump, n).(aofState := WaitRewrite))
  {
    hide DoFork;
    hide DoSwitch;
    hide DoFlush;
    hide DoCall;
    hide DoMarker;
    hide Cleanup;
    hide GoodDump;
    hide Enumerates;
  }

  /** A start that could open the file leaves no old rewrite behind, which has not seen the log. */
  lemma StartDropsOldChild(eng: Engine, n: nat, s: Server, e: Event)
    requires n >= 1 && !s.dead && s.aofState == Off && e.StartAof? && e.openOk
    ensures var s' := Next(eng, n, s, e); FreshChild(s') && s'.ds == s.ds && s'.out == s.out
  {
    hide Next;
    hide DoFork;
    hide Cleanup;
    hide GoodDump;
    hide FreshChild;
    StartIs(eng, n, s, e);
    NoFork(s);
    if GoodDump(eng, e.dump, n) { NewFork(eng, s, e.dump, n); }
  }

  // ----- the handshake --------------------------------------------------------------

  /** Parent and child have not agreed to stop. */
  predicate NotAgreed(s: Server) {
    !s.ackSent && (s.child.Some? ==> s.child.value.phase != Finished)
  }

  lemma FeedKeepsAgreement(s: Server, db: nat, cmds: seq<Argv>, drift: bool, skew: Skew, childSkew: Skew)
    ensures NotAgreed(Feed(s, db, cmds, drift, skew, childSkew)) <==> NotAgreed(s)
  {
    hide EncodeAll;
    hide Fed;
  }

  lemma CommandKeepsAgreement(eng: Engine, n: nat, s: Server, e: Event)
    requires n >= 1 && !s.dead && NotAgreed(s) && (e.Call? || e.Marker?)
    ensures NotAgreed(Next(eng, n, s, e))
  {
    hide Execute;
    hide Translate;
    hide Drifts;
    hide NewSkew;
    hide Feed;
    hide GoodDump;
    hide Enumerates;
    match e
    case Call(db, argv, now, fedAt, force) =>
      if argv != [] {
        var r := Execute(eng, false, now, force, s.ds, db, argv);
        var cmds := Translate(eng, r.argv, fedAt);
        if cmds.Some? {
          FeedKeepsAgreement(s.(ds := r.ds), db, cmds.value, Drifts(eng, r.argv, now, fedAt),
                             NewSkew(eng, s.ds, r.ds, db, r.argv, s.skew, now, fedAt),
                             NewSkew(eng, s.ds, r.ds, db, r.argv, ChildSkew(s), now, fedAt));
        }
      }
    case Marker(db, argv) =>
      if argv != [] {
        FeedKeepsAgreement(s.(inMulti := eng.kindOf(argv[0]) == MultiCmd), db, [argv], false, s.skew, ChildSkew(s));
      }
  }

  lemma PipeKeepsAgreement(eng: Engine, n: nat, s: Server, e: Event)
    requires n >= 1 && !s.dead && NotAgreed(s) && (e.ParentSend? || e.ChildRead? || e.ChildAsk? || e.ChildFinish? || e.ParentAck?)
    requires e.ParentAck? ==> !e.ackOk
    ensures NotAgreed(Next(eng, n, s, e))
  {
    hide DoCall;
    hide DoMarker;
    hide DoFlush;
    hide DoFork;
    hide DoSwitch;
    hide Cleanup;
    hide GoodDump;
    hide Enumerates;
  }

  lemma FreshAgreement(eng: Engine, n: nat, s: Server)
    ensures NotAgreed(Cleanup(s))
    ensures forall dump: Dump :: GoodDump(eng, dump, n) ==> NotAgreed(DoFork(eng, s, dump, n))
  {
    hide RewriteCommands;
    hide EncodeAll;
    hide GoodDump;
  }

  lemma OthersKeepAgreement(eng: Engine, n: nat, s: Server, e: Event)
    requires n >= 1 && !s.dead && NotAgreed(s)
    requires e.Fork? || e.StartAof? || e.StopAof? || e.FlushOut? || e.KillChild? || e.ChildExit?
    ensures NotAgreed(Next(eng, n, s, e))
  {
    hide DoCall;
    hide DoMarker;
    hide DoSwitch;
    hide DoFork;
    hide Cleanup;
    hide GoodDump;
    hide Enumerates;
    hide Flush;
    hide BadUndo;
    FreshAgreement(eng, n, s);
    FreshAgreement(eng, n, Cleanup(s));
    match e
    case ChildExit(_, _, _, _, statOk) => if s.child.Some? { FreshAgreement(eng, n, DoSwitch(s, statOk)); }
    case StopAof(env) => FreshAgreement(eng, n, DoFlush(s, true, env).(aofState := Off, selected := -1));
    case _ =>
  }

  predicate NeverAcked(events: seq<Event>) {
    forall i :: 0 <= i < |events| && events[i].ParentAck? ==> !events[i].ackOk
  }

  /** As long as no ack reaches the child, it never finishes, so no rewrite ever succeeds. */
  lemma {:induction false} NoAckNoRewrite(eng: Engine, n: nat, s: Server, events: seq<Event>, e: Event)
    requires n >= 1 && NotAgreed(s) && NeverAcked(events)
    ensures !RewriteSucceeds(Run(eng, n, s, events), e)
    decreases |events|
  {
    hide Next;
    if events != [] {
      var e0 := events[0];
      if s.dead {
        DeadStays(eng, n, s, e0);
      } else if e0.Call? || e0.Marker? {
        CommandKeepsAgreement(eng, n, s, e0);
      } else if e0.ParentSend? || e0.ChildRead? || e0.ChildAsk? || e0.ChildFinish? || e0.ParentAck? {
        PipeKeepsAgreement(eng, n, s, e0);
      } else {
        OthersKeepAgreement(eng, n, s, e0);
      }
      NoAckNoRewrite(eng, n, Next(eng, n, s, e0), events[1..], e);
    }
  }

  lemma FailedExit(eng: Engine, n: nat, s: Server, e: Event)
    requires n >= 1 && !s.dead && e.ChildExit? && s.child.Some? && !RewriteSucceeds(s, e)
    requires !e.success || s.child.value.phase == Finished
    ensures Next(eng, n, s, e) == Cleanup(s)
  {
    hide DoCall;
    hide DoMarker;
    hide DoFlush;
    hide DoFork;
    hide DoSwitch;
    hide GoodDump;
    hide Cleanup;
  }

  /** A rewrite that fails, for whatever reason, leaves the log, its buffer and the dataset alone, and
      gives up the child with everything kept for it. */
  lemma FailedRewriteKeepsLog(eng: Engine, n: nat, s: Server, e: Event)
    requires n >= 1 && !s.dead && s.child.Some?
    requires e.KillChild? ||
             (e.ChildExit? && !RewriteSucceeds(s, e) && (!e.success || s.child.value.phase == Finished))
    ensures var s' := Next(eng, n, s, e);
            && s'.child.None? && s'.blocks == "" && s'.pipe == ""
            && s'.out == s.out && s'.ds == s.ds && s'.aofState == s.aofState && s'.selected == s.selected && !s'.dead
  {
    if e.ChildExit? { FailedExit(eng, n, s, e); }
  }

  // ----- over runs --------------------------------------------------------------

  lemma {:induction false} RunConcat(eng: Engine, n: nat, s: Server, a: seq<Event>, b: seq<Event>)
    requires n >= 1
    ensures Run(eng, n, s, a + b) == Run(eng, n, Run(eng, n, s, a), b)
    decreases |a|
  {
    hide Next;
    if a == [] {
      assert a + b == b;
    } else {
      assert (a + b)[1..] == a[1..] + b;
      RunConcat(eng, n, Next(eng, n, s, a[0]), a[1..], b);
    }
  }

  lemma RunOneEvent(eng: Engine, n: nat, s: Server, e: Event)
    requires n >= 1
    ensures Run(eng, n, s, [e]) == Next(eng, n, s, e)
  {
    hide Next;
    assert [e][1..] == [];
  }

  predicate NoStop(events: seq<Event>) {
    forall i :: 0 <= i < |events| ==> !events[i].StopAof?
  }

  /** Once on, the log stays on until it is stopped. */
  lemma {:induction false} OnLasts(eng: Engine, n: nat, s: Server, events: seq<Event>)
    requires n >= 1 && s.aofState == On && NoStop(events)
    ensures Run(eng, n, s, events).aofState == On
    decreases |events|
  {
    hide Next;
    if events != [] {
      if s.dead {
        DeadStays(eng, n, s, events[0]);
      } else {
        StateLife(eng, n, s, events[0]);
      }
      OnLasts(eng, n, Next(eng, n, s, events[0]), events[1..]);
    }
  }

  /** While the log is off and nobody starts it, it stays off. */
  lemma {:induction false} OffLasts(eng: Engine, n: nat, s: Server, events: seq<Event>)
    requires n >= 1 && s.aofState == Off && forall i :: 0 <= i < |events| ==> !events[i].StartAof?
    ensures Run(eng, n, s, events).aofState == Off
    decreases |events|
  {
    hide Next;
    if events != [] {
      if s.dead {
        DeadStays(eng, n, s, events[0]);
      } else {
        StateLife(eng, n, s, events[0]);
      }
      OffLasts(eng, n, Next(eng, n, s, events[0]), events[1..]);
    }
  }

  // ----- commands are logged ----------------------------------------------------

  /** What a command appends to the log. */
  function Logged(eng: Engine, s: Server, db: nat, argv: Argv, now: int, fedAt: int, force: bool): Option<Bytes>
    requires argv != []
  {
    var r := Execute(eng, false, now, force, s.ds, db, argv);
    if !r.dirty then None
    else
      var cmds := Translate(eng, r.argv, fedAt);
      if cmds.None? then None else Some(EncodeAll(Fed(s.selected, db, cmds.value)))
  }

  lemma FeedOut(s: Server, db: nat, cmds: seq<Argv>, drift: bool, skew: Skew, childSkew: Skew)
    ensures var s' := Feed(s, db, cmds, drift, skew, childSkew);
            var bytes := EncodeAll(Fed(s.selected, db, cmds));
            && s'.dead == s.dead && s'.ds == s.ds && s'.selected == db
            && s'.out == s.out.(buf := s.out.buf + (if s.aofState == On then bytes else ""))
            && s'.blocks == s.blocks + (if s.child.Some? then bytes else "")
  {
    hide EncodeAll;
    hide Fed;
    assert s.out.buf + "" == s.out.buf && s.blocks + "" == s.blocks;
  }

  lemma OffCall(eng: Engine, s: Server, db: nat, argv: Argv, now: int, fedAt: int, force: bool)
    requires argv != [] && s.aofState == Off
    ensures var r := Execute(eng, false, now, force, s.ds, db, argv);
            DoCall(eng, s, db, argv, now, fedAt, force) == if r.dirty then s.(ds := r.ds) else s
  {
    hide Execute;
    hide Translate;
  }

  lemma FedCall(eng: Engine, s: Server, db: nat, argv: Argv, now: int, fedAt: int, force: bool)
    requires argv != [] && s.aofState != Off && Logged(eng, s, db, argv, now, fedAt, force).Some?
    ensures var r := Execute(eng, false, now, force, s.ds, db, argv);
            DoCall(eng, s, db, argv, now, fedAt, force) ==
            Feed(s.(ds := r.ds), db, Translate(eng, r.argv, fedAt).value, Drifts(eng, r.argv, now, fedAt),
                 NewSkew(eng, s.ds, r.ds, db, r.argv, s.skew, now, fedAt),
                 NewSkew(eng, s.ds, r.ds, db, r.argv, ChildSkew(s), now, fedAt))
  {
    hide Execute;
    hide Translate;
    hide Drifts;
    hide NewSkew;
    hide Feed;
    hide EncodeAll;
    hide Fed;
  }

  /** A command that is propagated goes to the buffer exactly while the log is on, and to the child of
      a rewrite exactly while there is one and the log is not off; the file itself waits for a flush. */
  lemma CallIsLogged(eng: Engine, n: nat, s: Server, db: nat, argv: Argv, now: int, fedAt: int, force: bool)
    requires n >= 1 && !s.dead && argv != [] && db < eng.dbnum && Logged(eng, s, db, argv, now, fedAt, force).Some?
    ensures var s' := Next(eng, n, s, Call(db, argv, now, fedAt, force));
            var bytes := Logged(eng, s, db, argv, now, fedAt, force).value;
            && !s'.dead && s'.ds == Execute(eng, false, now, force, s.ds, db, argv).ds
            && s'.out == s.out.(buf := s.out.buf + (if s.aofState == On then bytes else ""))
            && s'.blocks == s.blocks + (if s.aofState != Off && s.child.Some? then bytes else "")
            && s'.selected == (if s.aofState == Off then s.selected else db)
  {
    hide Execute;
    hide Translate;
    hide Drifts;
    hide NewSkew;
    hide EncodeAll;
    hide Fed;
    hide Feed;
    hide DoCall;
    var r := Execute(eng, false, now, force, s.ds, db, argv);
    if s.aofState == Off {
      OffCall(eng, s, db, argv, now, fedAt, force);
      assert s.out.buf + "" == s.out.buf && s.blocks + "" == s.blocks;
    } else {
      FedCall(eng, s, db, argv, now, fedAt, force);
      FeedOut(s.(ds := r.ds), db, Translate(eng, r.argv, fedAt).value, Drifts(eng, r.argv, now, fedAt),
              NewSkew(eng, s.ds, r.ds, db, r.argv, s.skew, now, fedAt),
              NewSkew(eng, s.ds, r.ds, db, r.argv, ChildSkew(s), now, fedAt));
    }
  }

  /** The database is selected once: a command after a logged one in the same database is logged as its
      translation alone, and one in another database with a SELECT in front. */
  lemma SelectsOnce(eng: Engine, n: nat, s: Server, db: nat, argv: Argv, now: int, fedAt: int, force: bool,
                    db2: nat, argv2: Argv, now2: int, fedAt2: int, force2: bool)
    requires n >= 1 && !s.dead && s.aofState == On && argv != [] && argv2 != [] && db < eng.dbnum
    requires Logged(eng, s, db, argv, now, fedAt, force).Some?
    requires var s' := Next(eng, n, s, Call(db, argv, now, fedAt, force));
             Logged(eng, s', db2, argv2, now2, fedAt2, force2).Some?
    ensures var s' := Next(eng, n, s, Call(db, argv, now, fedAt, force));
            var r := Execute(eng, false, now2, force2, s'.ds, db2, argv2);
            && Translate(eng, r.argv, fedAt2).Some?
            && Logged(eng, s', db2, argv2, now2, fedAt2, force2).value ==
               (if db2 == db then "" else Encode(SelectCommand(db2))) + EncodeAll(Translate(eng, r.argv, fedAt2).value)
  {
    hide Next;
    hide Execute;
    hide Translate;
    hide EncodeAll;
    hide Encode;
    CallIsLogged(eng, n, s, db, argv, now, fedAt, force);
    var s' := Next(eng, n, s, Call(db, argv, now, fedAt, force));
    var cmds := Translate(eng, Execute(eng, false, now2, force2, s'.ds, db2, argv2).argv, fedAt2).value;
    if db2 == db {
      assert [] + cmds == cmds && "" + EncodeAll(cmds) == EncodeAll(cmds);
    } else {
      EncodeAllConcat([SelectCommand(db2)], cmds);
      EncodeAllOne(SelectCommand(db2));
    }
  }

  /** MULTI and EXEC are logged around the commands of a transaction like commands. */
  lemma MarkerIsLogged(eng: Engine, n: nat, s: Server, db: nat, argv: Argv)
    requires n >= 1 && !s.dead && argv != [] && db < eng.dbnum && eng.kindOf(argv[0]) in {MultiCmd, ExecCmd}
    ensures var s' := Next(eng, n, s, Marker(db, argv));
            var bytes := EncodeAll(Fed(s.selected, db, [argv]));
            && !s'.dead && s'.ds == s.ds && s'.inMulti == (eng.kindOf(argv[0]) == MultiCmd)
            && s'.out == s.out.(buf := s.out.buf + (if s.aofState == On then bytes else ""))
            && s'.blocks == s.blocks + (if s.aofState != Off && s.child.Some? then bytes else "")
  {
    hide EncodeAll;
    hide Fed;
    hide Feed;
    var s1 := s.(inMulti := eng.kindOf(argv[0]) == MultiCmd);
    FeedOut(s1, db, [argv], false, s.skew, ChildSkew(s));
    FeedKeepsMulti(s1, db, [argv], false, s.skew, ChildSkew(s));
    assert s.out.buf + "" == s.out.buf && s.blocks + "" == s.blocks;
  }

  lemma FeedKeepsMulti(s: Server, db: nat, cmds: seq<Argv>, drift: bool, skew: Skew, childSkew: Skew)
    ensures Feed(s, db, cmds, drift, skew, childSkew).inMulti == s.inMulti
  {
    hide EncodeAll;
    hide Fed;
    hide FeedChild;
  }

  lemma FlushIs(s: Server, force: bool, env: Env)
    ensures DoFlush(s, force, env).out == Flush(s.out, force, env).out
    ensures DoFlush(s, force, env).dead == Flush(s.out, force, env).exited
    ensures DoFlush(s, force, env).ds == s.ds
  {
    hide Flush;
    hide BadUndo;
  }

  /** A flush of a running log that may write, with a kernel that takes everything, leaves all of the
      log in the file; and so does a stop, which forces the write whatever fsync is doing. */
  lemma FlushAndStopWrite(eng: Engine, n: nat, s: Server, force: bool, env: Env)
    requires n >= 1 && !s.dead && s.aofState != Off && Capacity(env.writes) >= |s.out.buf|
    ensures MayWrite(s.out, force, env) ==>
              var s' := Next(eng, n, s, FlushOut(force, env));
              !s'.dead && s'.out.file == s.out.file + s.out.buf && s'.out.buf == "" && s'.ds == s.ds
    ensures var s' := Next(eng, n, s, StopAof(env));
            && !s'.dead && s'.aofState == Off && s'.child.None? && s'.ds == s.ds
            && s'.out.file == s.out.file + s.out.buf && s'.out.buf == ""
  {
    hide Flush;
    hide DoFlush;
    hide DoCall;
    hide DoMarker;
    hide DoSwitch;
    hide DoFork;
    hide GoodDump;
    hide Capacity;
    FlushIs(s, force, env);
    FlushIs(s, true, env);
    if MayWrite(s.out, force, env) { CompleteFlush(s.out, force, env); }
    if s.out.buf != "" {
      CompleteFlush(s.out, true, env);
    } else {
      NoWrite(s.out, true, env);
      assert s.out.file + "" == s.out.file;
    }
  }

  /** A command that changes nothing leaves the whole server alone. */
  lemma CleanCallDoesNothing(eng: Engine, n: nat, s: Server, db: nat, argv: Argv, now: int, fedAt: int, force: bool)
    requires n >= 1 && argv != [] && !Execute(eng, false, now, force, s.ds, db, argv).dirty
    ensures Next(eng, n, s, Call(db, argv, now, fedAt, force)) == s
  {
    hide Execute;
  }

  lemma SwitchEmptiesBuffer(eng: Engine, n: nat, s: Server, e: Event)
    requires n >= 1 && !s.dead && s.aofState != Off && RewriteSucceeds(s, e) && Inv(eng, s)
    ensures var s' := Next(eng, n, s, e);
            && !s'.dead && s'.aofState == On && s'.child.None? && s'.blocks == "" && s'.pipe == ""
            && s'.out.file == s.child.value.base + s.child.value.fed && s'.out.buf == "" && s'.selected == -1
            && (e.statOk ==> s'.out.size == |s'.out.file| == s'.out.fsyncOffset)
            && s'.ds == s.ds
  {
    hide Tracks;
    hide Shifted;
    hide OtherShifts;
    SwitchKeepsInv(eng, s, e.statOk);
  }

  /** The whole way. In any run, from either start, a rewrite that succeeds while the log is not off
      leaves the log on, with the snapshot and everything fed since in the file and an empty buffer;
      and from then on, until it is stopped, every propagated command makes file and buffer longer by
      exactly the bytes fed for it, whatever happens in between. */
  lemma RewrittenLogIsUsed(eng: Engine, n: nat, log: seq<Argv>, ds: Dataset, file: Bytes, on: bool, stale: Option<int>,
                           before: seq<Event>, exit: Event, after: seq<Event>,
                           db: nat, argv: Argv, now: int, fedAt: int, force: bool)
    requires GoodEngine(eng) && ScoresAreNumbers(eng) && n >= 1 && ReplaysTo(eng, log, ds) && NoStop(after)
    requires argv != [] && db < eng.dbnum
    requires var s := Run(eng, n, Begin(on, log, file, ds, stale), before);
             !s.dead && s.aofState != Off && RewriteSucceeds(s, exit)
    ensures var s := Run(eng, n, Begin(on, log, file, ds, stale), before);
            var s1 := Run(eng, n, Begin(on, log, file, ds, stale), before + [exit]);
            && s1.aofState == On && s1.out.buf == "" && s1.out.file == s.child.value.base + s.child.value.fed
    ensures var s2 := Run(eng, n, Begin(on, log, file, ds, stale), before + [exit] + after);
            && s2.aofState == On
            && (!s2.dead && Logged(eng, s2, db, argv, now, fedAt, force).Some? ==>
                  var s3 := Next(eng, n, s2, Call(db, argv, now, fedAt, force));
                  && !s3.dead
                  && s3.out.file + s3.out.buf ==
                     s2.out.file + s2.out.buf + Logged(eng, s2, db, argv, now, fedAt, force).value)
  {
    hide Run;
    hide Next;
    hide Inv;
    hide ReplaysTo;
    hide KnowsNames;
    hide Logged;
    ReachableInv(eng, n, log, ds, file, on, stale, before);
    var s0 := Begin(on, log, file, ds, stale);
    hide Begin;
    var s := Run(eng, n, s0, before);
    SwitchEmptiesBuffer(eng, n, s, exit);
    RunConcat(eng, n, s0, before, [exit]);
    RunOneEvent(eng, n, s, exit);
    RunConcat(eng, n, s0, before + [exit], after);
    OnLasts(eng, n, Run(eng, n, s0, before + [exit]), after);
    var s2 := Run(eng, n, s0, before + [exit] + after);
    if !s2.dead && Logged(eng, s2, db, argv, now, fedAt, force).Some? {
      CallIsLogged(eng, n, s2, db, argv, now, fedAt, force);
      Assoc(s2.out.file, s2.out.buf, Logged(eng, s2, db, argv, now, fedAt, force).value);
    }
  }

  // ----- a rewrite can be completed ---------------------------------------------

  /** The rest of a rewrite that nothing disturbs: the parent sends all it has, the child reads it, they
      agree to stop, and the child exits. */
  function Handshake(s: Server): seq<Event> {
    [ParentSend(|s.blocks|), ChildRead(|s.pipe| + |s.blocks|), ChildAsk, ParentAck(true, true), ChildFinish,
     ChildExit(true, true, true, true, true)]
  }

  /** The child has received everything. */
  function AllSent(s: Server): Server
    requires s.child.Some?
  {
    s.(child := Some(s.child.value.(diff := s.child.value.diff + (s.pipe + s.blocks))), pipe := "", blocks := "")
  }

  lemma SendAll(eng: Engine, n: nat, s: Server)
    requires n >= 1 && !s.dead && s.child.Some? && s.child.value.phase == Working && !s.stopSending
    ensures Next(eng, n, Next(eng, n, s, ParentSend(|s.blocks|)), ChildRead(|s.pipe| + |s.blocks|)) == AllSent(s)
  {
    assert s.blocks[..|s.blocks|] == s.blocks && s.blocks[|s.blocks|..] == "";
    var p := s.pipe + s.blocks;
    assert p[..|p|] == p && p[|p|..] == "";
  }

  /** Both sides have agreed to stop and the child is done. */
  function AllDone(s: Server): Server
    requires s.child.Some?
  {
    s.(child := Some(s.child.value.(phase := Finished)), stopSending := true, ackSent := true)
  }

  lemma Agree(eng: Engine, n: nat, s: Server)
    requires n >= 1 && !s.dead && s.child.Some? && s.child.value.phase == Working && !s.stopSending && s.pipe == ""
    ensures Next(eng, n, Next(eng, n, Next(eng, n, s, ChildAsk), ParentAck(true, true)), ChildFinish) == AllDone(s)
  {
    var c := s.child.value;
    assert c.diff + "" == c.diff;
    var s1 := Next(eng, n, s, ChildAsk);
    assert s1 == s.(child := Some(c.(phase := Asked)));
    var s2 := Next(eng, n, s1, ParentAck(true, true));
    assert s2 == s1.(stopSending := true, ackSent := true);
  }

  /** A child that still works can always be brought to its end; the new file is its snapshot and every
      byte fed since the fork, and the log is on unless it is off. */
  lemma RewriteCompletes(eng: Engine, n: nat, s: Server)
    requires n >= 1 && !s.dead && s.child.Some? && s.child.value.phase == Working && !s.stopSending && Inv(eng, s)
    ensures var s' := Run(eng, n, s, Handshake(s));
            && !s'.dead && s'.child.None? && s'.ds == s.ds
            && s'.out.file == s.child.value.base + s.child.value.fed
            && s'.aofState == (if s.aofState == Off then Off else On)
            && (s.aofState != Off ==> s'.out.buf == "" && s'.out.size == |s'.out.file|)
  {
    hide Next;
    hide Tracks;
    hide Shifted;
    hide OtherShifts;
    hide Run;
    var es := Handshake(s);
    assert es[0..] == es && es[6..] == [];
    SendAll(eng, n, s);
    var s1 := AllSent(s);
    var t := Next(eng, n, s, es[0]);
    RunTo(eng, n, s, es, 0, t);
    RunTo(eng, n, t, es, 1, s1);
    Agree(eng, n, s1);
    var s2, c := AllDone(s1), s.child.value;
    var t2 := Next(eng, n, s1, es[2]);
    var t3 := Next(eng, n, t2, es[3]);
    RunTo(eng, n, s1, es, 2, t2);
    RunTo(eng, n, t2, es, 3, t3);
    RunTo(eng, n, t3, es, 4, s2);
    RunTo(eng, n, s2, es, 5, Next(eng, n, s2, es[5]));
    RunNoEvents(eng, n, Next(eng, n, s2, es[5]));
    assert c.diff + s.pipe + s.blocks == c.diff + (s.pipe + s.blocks) + "" by { Assoc(c.diff, s.pipe, s.blocks); }
    FinishedExit(eng, n, s2);
  }

  lemma FinishedExit(eng: Engine, n: nat, s: Server)
    requires n >= 1 && !s.dead && s.child.Some? && s.child.value.phase == Finished
    requires s.child.value.fed == s.child.value.diff + s.blocks
    ensures var s' := Next(eng, n, s, ChildExit(true, true, true, true, true));
            && !s'.dead && s'.child.None? && s'.ds == s.ds
            && s'.out.file == s.child.value.base + s.child.value.fed
            && s'.aofState == (if s.aofState == Off then Off else On)
            && (s.aofState != Off ==> s'.out.buf == "" && s'.out.size == |s'.out.file|)
  {
    var c := s.child.value;
    Assoc(c.base, c.diff, s.blocks);
  }

  /** Bringing the log on from any live state: forget a running child, start or fork, and let the
      rewrite end. */
  function TurnOnEvents(s: Server, dump: Dump): seq<Event> {
    [KillChild, if s.aofState == Off then StartAof(true, false, true, dump) else Fork(dump)]
  }

  lemma NewChild(eng: Engine, n: nat, s: Server, dump: Dump)
    requires n >= 1 && !s.dead && GoodDump(eng, dump, n) && Enumerates(eng, dump, s.ds)
    ensures var s' := Run(eng, n, s, TurnOnEvents(s, dump));
            && !s'.dead && s'.ds == s.ds && s'.aofState == (if s.aofState == Off then WaitRewrite else s.aofState)
            && s'.child == Some(Child(EncodeAll(RewriteCommands(eng, dump, n)), "", Working, "", false, map[]))
            && s'.blocks == "" && s'.pipe == "" && !s'.stopSending
  {
    hide GoodDump;
    hide Enumerates;
    hide RewriteCommands;
    hide EncodeAll;
    var es := TurnOnEvents(s, dump);
    assert es[0..] == es && es[2..] == [];
    var s1 := Cleanup(s);
    RunTo(eng, n, s, es, 0, s1);
    var s2 := DoFork(eng, s1, dump, n);
    RunTo(eng, n, s1, es, 1, if s.aofState == Off then s2.(aofState := WaitRewrite) else s2);
  }

  /** From every reachable live state, whatever went wrong before, the log can be brought on, with the
      snapshot of the current dataset as the file and nothing in the buffer. */
  lemma LogCanBeTurnedOn(eng: Engine, n: nat, log: seq<Argv>, ds: Dataset, file: Bytes, on: bool, stale: Option<int>,
                         events: seq<Event>) returns (more: seq<Event>, dump: Dump)
    requires GoodEngine(eng) && ScoresAreNumbers(eng) && n >= 1 && ReplaysTo(eng, log, ds)
    requires EngineKeeps(eng) && DatasetOk(eng, ds)
    requires !Run(eng, n, Begin(on, log, file, ds, stale), events).dead
    ensures var s := Run(eng, n, Begin(on, log, file, ds, stale), events);
            var s' := Run(eng, n, Begin(on, log, file, ds, stale), events + more);
            && GoodDump(eng, dump, n) && Enumerates(eng, dump, s.ds)
            && !s'.dead && s'.aofState == On && s'.ds == s.ds && s'.out.buf == ""
            && s'.out.file == EncodeAll(RewriteCommands(eng, dump, n))
  {
    hide Run;
    hide Inv;
    hide ReplaysTo;
    hide KnowsNames;
    hide GoodDump;
    hide Enumerates;
    hide RewriteCommands;
    hide EncodeAll;
    hide EngineKeeps;
    hide DatasetOk;
    var s0 := Begin(on, log, file, ds, stale);
    var s := Run(eng, n, s0, events);
    dump := ForkIsPossible(eng, n, s0, events);
    var a := TurnOnEvents(s, dump);
    NewChild(eng, n, s, dump);
    ReachableInv(eng, n, log, ds, file, on, stale, events + a);
    RunConcat(eng, n, s0, events, a);
    var s1 := Run(eng, n, s0, events + a);
    RewriteCompletes(eng, n, s1);
    more := a + Handshake(s1);
    RunConcat(eng, n, s0, events + a, Handshake(s1));
    assert events + more == events + a + Handshake(s1);
    assert s1.child.value.base + "" == s1.child.value.base;
  }
}
